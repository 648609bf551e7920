/** The "mm:ss" clock text both result panels show. Seconds are a `real`;
  * IEEE single-precision rounding is not modelled. */
module TimeFormat {

  /** `Mathf.FloorToInt`. */
  function FloorToInt(x: real): int {
    x.Floor
  }

  /** Truncation toward zero, as a C# cast of a floating-point value to an
    * integer does it. */
  function Truncate(q: real): (t: int)
    ensures q >= 0.0 ==> 0.0 <= q - t as real < 1.0
    ensures q < 0.0 ==> -1.0 < q - t as real <= 0.0
  {
    if q >= 0.0 then q.Floor else -((-q).Floor)
  }

  /** The remainder of C#'s `%` by 60 on floating-point values: it truncates
    * the quotient toward zero, so the result takes the sign of `x`. */
  function FMod60(x: real): (r: real)
    ensures x >= 0.0 ==> 0.0 <= r < 60.0
    ensures x < 0.0 ==> -60.0 < r <= 0.0
    ensures ((x - r) / 60.0).Floor as real == (x - r) / 60.0
  {
    var t := Truncate(x / 60.0);
    var r := x - 60.0 * (t as real);
    assert r == 60.0 * (x / 60.0 - t as real);
    assert (x - r) / 60.0 == t as real;
    assert (t as real).Floor == t;
    r
  }

  function DigitChar(d: int): char
    requires 0 <= d <= 9
  {
    ('0' as int + d) as char
  }

  /** Decimal digits of `n`, without leading zeros. */
  function Digits(n: nat): (s: string)
    ensures |s| >= 1
    ensures n < 10 <==> |s| == 1
    ensures 10 <= n < 100 ==> |s| == 2
    ensures forall i :: 0 <= i < |s| ==> '0' <= s[i] <= '9'
    decreases n
  {
    if n < 10 then [DigitChar(n)] else Digits(n / 10) + [DigitChar(n % 10)]
  }

  /** The `00` custom format: at least two digits, a minus sign in front of a
    * negative value. */
  function Pad2(n: int): (s: string)
    ensures n >= 0 ==> |s| >= 2 && forall i :: 0 <= i < |s| ==> '0' <= s[i] <= '9'
    ensures 0 <= n < 100 ==> |s| == 2
    ensures n < 0 ==> |s| >= 3 && s[0] == '-'
  {
    if n < 0 then "-" + Pad2Nat(-n) else Pad2Nat(n)
  }

  function Pad2Nat(n: nat): (s: string)
    ensures |s| >= 2 && forall i :: 0 <= i < |s| ==> '0' <= s[i] <= '9'
    ensures n < 100 ==> |s| == 2
  {
    if n < 10 then ['0', DigitChar(n)] else Digits(n)
  }

  /** Value of a string of decimal digits. */
  function Value(s: string): int
    decreases |s|
  {
    if |s| == 0 then 0 else Value(s[..|s| - 1]) * 10 + (s[|s| - 1] as int - '0' as int)
  }

  lemma {:induction false} ValueDigits(n: nat)
    ensures Value(Digits(n)) == n
    decreases n
  {
    if n >= 10 {
      ValueDigits(n / 10);
      var s := Digits(n);
      assert s[..|s| - 1] == Digits(n / 10);
    }
  }

  /** Reading a padded number back gives the number. */
  lemma Pad2RoundTrip(n: nat)
    ensures Value(Pad2Nat(n)) == n
  {
    if n >= 10 {
      ValueDigits(n);
    } else {
      assert ['0', DigitChar(n)][..1] == ['0'];
      assert ['0'][..0] == [];
    }
  }

  /** `FormatTime`: whole minutes, then the whole seconds of the remainder,
    * each padded to two digits. */
  function FormatTime(seconds: real): (s: string)
    ensures seconds >= 0.0 ==> |s| >= 5 && s[|s| - 3] == ':'
  {
    var minutes := FloorToInt(seconds / 60.0);
    var rest := FloorToInt(FMod60(seconds));
    Pad2(minutes) + ":" + Pad2(rest)
  }

  /** Reads "mm:ss" back: the minutes before the colon, the two seconds digits after. */
  function ParseClock(s: string): (int, int)
    requires |s| >= 3
  {
    (Value(s[..|s| - 3]), Value(s[|s| - 2..]))
  }

  /** For a non-negative time, the text reads back as minutes and seconds
    * with seconds below 60 that together give the whole seconds elapsed. */
  lemma FormatTimeRoundTrip(seconds: real)
    requires seconds >= 0.0
    ensures var (m, sec) := ParseClock(FormatTime(seconds));
      0 <= sec < 60 && m * 60 + sec == seconds.Floor
  {
    var m := FloorToInt(seconds / 60.0);
    var rest := FMod60(seconds);
    var sec := FloorToInt(rest);
    assert 0 <= m;
    assert rest == seconds - 60.0 * (m as real);
    assert 0 <= sec < 60;
    var s := FormatTime(seconds);
    assert s == Pad2Nat(m) + ":" + Pad2Nat(sec);
    assert s[..|s| - 3] == Pad2Nat(m);
    assert s[|s| - 2..] == Pad2Nat(sec);
    Pad2RoundTrip(m);
    Pad2RoundTrip(sec);
    FloorShift(seconds, m);
  }

  /** Taking away whole minutes shifts the floor by the same amount. */
  lemma FloorShift(x: real, m: int)
    ensures (x - 60.0 * (m as real)).Floor == x.Floor - 60 * m
  {
  }
}
