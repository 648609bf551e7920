/** The enemy AI: a controller per enemy jelly holding its last known cell,
    and the per-enemy decision of where to move next (towards the nearest
    player in range, otherwise in a random order of the four directions).

    The map's legality test is an oracle `canEnter` on target cells, the
    random draws are passed in as `rolls`, and an executed move is reported as
    the chosen direction instead of an event. */
module EnemyAI {
  import opened Wrappers
  import opened Directions
  import JellyMap

  /** Fixed fallback order: up, right, down, left. */
  const MovePriorities: seq<Vec> := [Up, Right, Down, Left]
  /** How far, in cells, an enemy looks for a player. */
  const DetectionRange: int := 5

  type Controllers = map<int, Vec>

  // ---------------------------------------------------------------------------
  // Controller map

  /** `OnGenerateEntity`: only enemy-type entities get a controller. Adding an
      id that already has one raises in the source; that is the `None` result. */
  function OnGenerateEntity(ctrls: Controllers, id: int, kind: int, pos: Vec): (r: Option<Controllers>)
    ensures kind != JellyMap.EnemyType ==> r == Some(ctrls)
    ensures kind == JellyMap.EnemyType && id in ctrls ==> r.None?
    ensures kind == JellyMap.EnemyType && id !in ctrls ==>
      && r.Some? && r.value.Keys == ctrls.Keys + {id} && r.value[id] == pos
      && forall o :: o in ctrls ==> r.value[o] == ctrls[o]
  {
    if kind != JellyMap.EnemyType then Some(ctrls)
    else if id in ctrls then None
    else Some(ctrls[id := pos])
  }

  /** `OnDestroyEntity`: drops the id's controller if there is one. */
  function OnDestroyEntity(ctrls: Controllers, id: int): (r: Controllers)
    ensures r.Keys == ctrls.Keys - {id}
    ensures forall o :: o in r ==> r[o] == ctrls[o]
  {
    ctrls - {id}
  }

  /** `OnEntityMoved`: only a known enemy's position is updated. */
  function OnEntityMoved(ctrls: Controllers, id: int, pos: Vec): (r: Controllers)
    ensures r.Keys == ctrls.Keys
    ensures id in ctrls ==> r[id] == pos
    ensures forall o :: o in ctrls && o != id ==> r[o] == ctrls[o]
  {
    if id in ctrls then ctrls[id := pos] else ctrls
  }

  /** `Reset`: forgets every controller. */
  function Reset(ctrls: Controllers): (r: Controllers)
    ensures forall id :: id !in r
  {
    map[]
  }

  // ---------------------------------------------------------------------------
  // Nearest player

  function SqDist(a: Vec, b: Vec): int {
    (a.0 - b.0) * (a.0 - b.0) + (a.1 - b.1) * (a.1 - b.1)
  }

  /** Euclidean distance at most `maxRange`, compared on squares. */
  predicate InRange(e: Vec, p: Vec, maxRange: int) {
    maxRange >= 0 && SqDist(e, p) <= maxRange * maxRange
  }

  /** players[i] is in range, strictly nearer than every in-range player
      before it and no farther than every in-range player after it. */
  predicate NearestAt(e: Vec, players: seq<Vec>, maxRange: int, i: int) {
    && 0 <= i < |players|
    && InRange(e, players[i], maxRange)
    && (forall j :: 0 <= j < i && InRange(e, players[j], maxRange) ==>
          SqDist(e, players[j]) > SqDist(e, players[i]))
    && (forall j :: i < j < |players| && InRange(e, players[j], maxRange) ==>
          SqDist(e, players[j]) >= SqDist(e, players[i]))
  }

  /** `FindNearestPlayer`: none exactly when no player is in range; otherwise
      a player of least distance, the earliest one on ties. `best` names the
      position of the chosen player in the list. */
  method FindNearestPlayer(e: Vec, players: seq<Vec>, maxRange: int) returns (r: Option<Vec>, ghost best: int)
    ensures r.None? <==> forall j :: 0 <= j < |players| ==> !InRange(e, players[j], maxRange)
    ensures r.Some? ==> NearestAt(e, players, maxRange, best) && players[best] == r.value
  {
    r := None;
    best := 0;
    for k := 0 to |players|
      invariant r.None? <==> forall j :: 0 <= j < k ==> !InRange(e, players[j], maxRange)
      invariant r.Some? ==>
        && 0 <= best < k && r.value == players[best]
        && InRange(e, players[best], maxRange)
        && (forall j :: 0 <= j < best && InRange(e, players[j], maxRange) ==>
              SqDist(e, players[j]) > SqDist(e, players[best]))
        && (forall j :: best < j < k && InRange(e, players[j], maxRange) ==>
              SqDist(e, players[j]) >= SqDist(e, players[best]))
    {
      var p := players[k];
      if InRange(e, p, maxRange) && (r.None? || SqDist(e, p) < SqDist(e, r.value)) {
        r := Some(p);
        best := k;
      }
    }
  }

  // ---------------------------------------------------------------------------
  // Choosing a move

  /** Position of the first direction whose target cell may be entered, or
      |dirs| when there is none. */
  function FirstLegalIndex(cur: Vec, dirs: seq<Vec>, canEnter: Vec -> bool): (i: nat)
    ensures i <= |dirs|
    ensures i < |dirs| ==> canEnter(Add(cur, dirs[i]))
    ensures forall j :: 0 <= j < i ==> !canEnter(Add(cur, dirs[j]))
  {
    if |dirs| == 0 then 0
    else if canEnter(Add(cur, dirs[0])) then 0
    else 1 + FirstLegalIndex(cur, dirs[1..], canEnter)
  }

  /** The first legal direction in the given order, if any. */
  function FirstLegal(cur: Vec, dirs: seq<Vec>, canEnter: Vec -> bool): (r: Option<Vec>)
    ensures r.None? <==> forall j :: 0 <= j < |dirs| ==> !canEnter(Add(cur, dirs[j]))
    ensures r.Some? ==> r.value in dirs && canEnter(Add(cur, r.value))
  {
    var i := FirstLegalIndex(cur, dirs, canEnter);
    if i < |dirs| then Some(dirs[i]) else None
  }

  /** `TryAlternativeMoves`: the first legal direction in the order up, right,
      down, left; no move when none is legal. */
  function TryAlternativeMoves(cur: Vec, canEnter: Vec -> bool): (r: Option<Vec>)
    ensures r.None? <==> forall d :: d in MovePriorities ==> !canEnter(Add(cur, d))
    ensures r.Some? ==> IsUnitVec(r.value) && canEnter(Add(cur, r.value))
    ensures canEnter(Add(cur, Up)) ==> r == Some(Up)
    ensures !canEnter(Add(cur, Up)) && canEnter(Add(cur, Right)) ==> r == Some(Right)
    ensures !canEnter(Add(cur, Up)) && !canEnter(Add(cur, Right)) && canEnter(Add(cur, Down)) ==>
      r == Some(Down)
  {
    var i := FirstLegalIndex(cur, MovePriorities, canEnter);
    assert MovePriorities[0] == Up && MovePriorities[1] == Right && MovePriorities[2] == Down;
    assert forall d :: d in MovePriorities <==> (d == Up || d == Right || d == Down || d == Left);
    FirstLegal(cur, MovePriorities, canEnter)
  }

  /** `MoveTowardsTarget`: the axis with the strictly larger distance to the
      target (the vertical axis on ties) when that step is legal, otherwise the
      fallback order. */
  function MoveTowardsTarget(cur: Vec, target: Vec, canEnter: Vec -> bool): (r: Option<Vec>)
    ensures r.None? <==> forall d :: d in MovePriorities ==> !canEnter(Add(cur, d))
    ensures r.Some? ==> IsUnitVec(r.value) && canEnter(Add(cur, r.value))
    ensures var off := Sub(target, cur);
      var primary := DominantDirection(off);
      && (canEnter(Add(cur, primary)) ==>
            && r.Some?
            && (r.value.0 != 0 <==> Abs(off.0) > Abs(off.1))
            && Dot(r.value, off) == (if Abs(off.0) > Abs(off.1) then Abs(off.0) else Abs(off.1)))
      && (!canEnter(Add(cur, primary)) ==> r == TryAlternativeMoves(cur, canEnter))
    ensures canEnter(Add(cur, DominantDirection(Sub(target, cur)))) ==>
      r == Some(DominantDirection(Sub(target, cur)))
  {
    var primary := DominantDirection(Sub(target, cur));
    assert primary in MovePriorities;
    if canEnter(Add(cur, primary)) then Some(primary) else TryAlternativeMoves(cur, canEnter)
  }

  /** Number of swaps the shuffle performs on a list of n items. */
  function SwapCount(n: nat): nat { if n > 1 then n - 1 else 0 }

  /** The draws from position `j` on are valid for the swaps still to be
      made on the first `n` slots: one draw per swap, the i-th between 0 and
      the last slot then in play. */
  predicate RollsFit(rolls: seq<int>, j: nat, n: nat) {
    && j + SwapCount(n) == |rolls|
    && forall i :: j <= i < |rolls| ==> 0 <= rolls[i] <= n - 1 - (i - j)
  }

  /** `list` with the items at `i` and `k` exchanged. */
  function Swap<T>(list: seq<T>, i: int, k: int): (r: seq<T>)
    requires 0 <= i < |list| && 0 <= k < |list|
    ensures |r| == |list| && r[i] == list[k] && r[k] == list[i]
    ensures forall p :: 0 <= p < |list| && p != i && p != k ==> r[p] == list[p]
  {
    list[i := list[k]][k := list[i]]
  }

  /** Exchanging two items loses and duplicates nothing. */
  lemma SwapPermutes<T>(list: seq<T>, i: int, k: int)
    requires 0 <= i < |list| && 0 <= k < |list|
    ensures multiset(Swap(list, i, k)) == multiset(list)
  {
    var m := list[i := list[k]];
    assert multiset(m) == multiset(list) - multiset{list[i]} + multiset{list[k]};
  }

  /** The swaps still to be made once only the first `n` slots are in play:
      draw a slot among them and exchange it with the last one. */
  function ShuffleFrom<T>(list: seq<T>, n: nat, rolls: seq<int>, j: nat): (r: seq<T>)
    requires n <= |list| && RollsFit(rolls, j, n)
    ensures |r| == |list|
    decreases n
  {
    if n <= 1 then list
    else ShuffleFrom(Swap(list, rolls[j], n - 1), n - 1, rolls, j + 1)
  }

  /** The swaps still to be made rearrange the list: nothing is lost or
      duplicated. */
  lemma {:induction false} ShufflePermutes<T>(list: seq<T>, n: nat, rolls: seq<int>, j: nat)
    requires n <= |list| && RollsFit(rolls, j, n)
    ensures multiset(ShuffleFrom(list, n, rolls, j)) == multiset(list)
    decreases n
  {
    if n > 1 {
      assert RollsFit(rolls, j + 1, n - 1);
      SwapPermutes(list, rolls[j], n - 1);
      ShufflePermutes(Swap(list, rolls[j], n - 1), n - 1, rolls, j + 1);
    }
  }

  /** The Fisher-Yates shuffle of `list` driven by the draws `rolls`. */
  function FisherYates<T>(list: seq<T>, rolls: seq<int>): (r: seq<T>)
    requires RollsFit(rolls, 0, |list|)
    ensures |r| == |list| && multiset(r) == multiset(list)
  {
    ShufflePermutes(list, |list|, rolls, 0);
    ShuffleFrom(list, |list|, rolls, 0)
  }

  /** `r` is `list` with its first `n` slots rotated left by one. */
  ghost predicate RotatedPrefix<T>(r: seq<T>, list: seq<T>, n: nat)
    requires 1 <= n <= |list|
  {
    |r| == |list| && forall k :: 0 <= k < |list| ==> r[k] == RotatedAt(list, n, k)
  }

  /** Draws that always pick the last slot in play swap nothing: the order is kept. */
  lemma {:induction false} LastSlotDrawsKeepOrder<T>(list: seq<T>, n: nat, rolls: seq<int>, j: nat)
    requires n <= |list| && RollsFit(rolls, j, n)
    requires forall i :: j <= i < |rolls| ==> rolls[i] == n - 1 - (i - j)
    ensures ShuffleFrom(list, n, rolls, j) == list
    decreases n
  {
    if n > 1 {
      assert Swap(list, rolls[j], n - 1) == list;
      LastSlotDrawsKeepOrder(list, n - 1, rolls, j + 1);
    }
  }

  /** The item at slot `k` once the first `n` slots of `list` are rotated left
      by one. */
  function RotatedAt<T>(list: seq<T>, n: nat, k: nat): T
    requires 1 <= n <= |list| && k < |list|
  {
    if k < n - 1 then list[k + 1] else if k == n - 1 then list[0] else list[k]
  }

  /** Draws that always pick the first slot carry the first item to the end of
      the slots in play and move every other one of them up by one. */
  lemma {:induction false} ZeroDrawsRotateFrom<T>(list: seq<T>, n: nat, rolls: seq<int>, j: nat)
    requires 1 <= n <= |list| && RollsFit(rolls, j, n)
    requires forall i :: j <= i < |rolls| ==> rolls[i] == 0
    ensures RotatedPrefix(ShuffleFrom(list, n, rolls, j), list, n)
    decreases n
  {
    if n > 1 {
      var m := Swap(list, 0, n - 1);
      ZeroDrawStep(list, n, rolls, j);
      ZeroDrawsRotateFrom(m, n - 1, rolls, j + 1);
      RotateStep(list, m, n, ShuffleFrom(m, n - 1, rolls, j + 1));
    }
  }

  /** A zero draw swaps the first slot with the last one in play. */
  lemma ZeroDrawStep<T>(list: seq<T>, n: nat, rolls: seq<int>, j: nat)
    requires 2 <= n <= |list| && RollsFit(rolls, j, n) && rolls[j] == 0
    ensures RollsFit(rolls, j + 1, n - 1)
    ensures ShuffleFrom(list, n, rolls, j) == ShuffleFrom(Swap(list, 0, n - 1), n - 1, rolls, j + 1)
  {
  }

  /** One more swap of the first slot with the last one in play extends the
      rotation of the slots before it to all `n`. */
  lemma RotateStep<T>(list: seq<T>, m: seq<T>, n: nat, r: seq<T>)
    requires 2 <= n <= |list| && m == Swap(list, 0, n - 1)
    requires RotatedPrefix(r, m, n - 1)
    ensures RotatedPrefix(r, list, n)
  {
  }

  /** All-zero draws rotate the list left by one: the shuffled order is the
      original one with its first item moved to the end. */
  lemma ZeroDrawsRotate<T>(list: seq<T>, rolls: seq<int>)
    requires |list| >= 1 && RollsFit(rolls, 0, |list|)
    requires forall i :: 0 <= i < |rolls| ==> rolls[i] == 0
    ensures FisherYates(list, rolls) == list[1..] + [list[0]]
  {
    ZeroDrawsRotateFrom(list, |list|, rolls, 0);
    var r := FisherYates(list, rolls);
    var rot := list[1..] + [list[0]];
    assert forall k :: 0 <= k < |list| ==> r[k] == RotatedAt(list, |list|, k) == rot[k];
  }

  /** With all-zero draws, a random move tries right, down, left, up. */
  lemma ZeroDrawsOrder()
    ensures FisherYates(MovePriorities, [0, 0, 0]) == [Right, Down, Left, Up]
  {
    ZeroDrawsRotate(MovePriorities, [0, 0, 0]);
  }

  /** `ShuffleList`: Fisher-Yates from the back; the j-th draw picks the slot,
      between 0 and the current last slot inclusive, to swap with the last
      slot. The result is the shuffle the draws determine, a rearrangement of
      the input. */
  method ShuffleList<T>(list: seq<T>, rolls: seq<int>) returns (r: seq<T>)
    requires RollsFit(rolls, 0, |list|)
    ensures r == FisherYates(list, rolls)
    ensures |r| == |list| && multiset(r) == multiset(list)
  {
    r := list;
    var n := |list|;
    var j := 0;
    while n > 1
      invariant 0 <= n <= |r| == |list|
      invariant RollsFit(rolls, j, n)
      invariant ShuffleFrom(r, n, rolls, j) == FisherYates(list, rolls)
    {
      n := n - 1;
      var k := rolls[j];
      var v := r[k];
      r := r[k := r[n]][n := v];
      j := j + 1;
    }
  }

  /** `RandomMove`: the first legal direction in the order the draws shuffle
      the four directions into; it moves exactly when one of them is legal. */
  method RandomMove(cur: Vec, rolls: seq<int>, canEnter: Vec -> bool) returns (r: Option<Vec>)
    requires RollsFit(rolls, 0, |MovePriorities|)
    ensures r == FirstLegal(cur, FisherYates(MovePriorities, rolls), canEnter)
    ensures r.None? <==> forall d :: d in MovePriorities ==> !canEnter(Add(cur, d))
    ensures r.Some? ==> IsUnitVec(r.value) && canEnter(Add(cur, r.value))
  {
    var shuffled := ShuffleList(MovePriorities, rolls);
    assert forall d :: d in shuffled <==> d in multiset(MovePriorities);
    r := FirstLegal(cur, shuffled, canEnter);
    assert forall d :: d in MovePriorities <==> (d == Up || d == Right || d == Down || d == Left);
  }

  /** One pass of `EnemyAIBehavior` for enemy `id`: it stops when the id has no
      controller or its entity is no longer active; otherwise it heads for the
      nearest player within range (the one at position `target`), or moves
      randomly when there is none. */
  method DecideMove(ctrls: Controllers, id: int, active: bool, players: seq<Vec>,
                    rolls: seq<int>, canEnter: Vec -> bool)
    returns (continues: bool, move: Option<Vec>, ghost target: int)
    requires RollsFit(rolls, 0, |MovePriorities|)
    ensures continues <==> id in ctrls && active
    ensures !continues ==> move.None?
    ensures move.Some? ==> IsUnitVec(move.value) && canEnter(Add(ctrls[id], move.value))
    ensures continues && (exists j :: 0 <= j < |players| && InRange(ctrls[id], players[j], DetectionRange)) ==>
      NearestAt(ctrls[id], players, DetectionRange, target)
        && move == MoveTowardsTarget(ctrls[id], players[target], canEnter)
    ensures continues && (forall j :: 0 <= j < |players| ==> !InRange(ctrls[id], players[j], DetectionRange)) ==>
      move == FirstLegal(ctrls[id], FisherYates(MovePriorities, rolls), canEnter)
    ensures continues && (forall j :: 0 <= j < |players| ==> !InRange(ctrls[id], players[j], DetectionRange)) ==>
      (move.None? <==> forall d :: d in MovePriorities ==> !canEnter(Add(ctrls[id], d)))
  {
    if id !in ctrls || !active {
      return false, None, 0;
    }
    continues := true;
    var cur := ctrls[id];
    var nearest;
    nearest, target := FindNearestPlayer(cur, players, DetectionRange);
    if nearest.Some? {
      move := MoveTowardsTarget(cur, nearest.value, canEnter);
    } else {
      move := RandomMove(cur, rolls, canEnter);
    }
  }

  /** On a tie, and when the target is the enemy's own cell, the vertical axis
      is chosen, so standing on the target yields a step down. */
  lemma TieGoesVertical(cur: Vec, target: Vec)
    requires Abs(target.0 - cur.0) == Abs(target.1 - cur.1)
    ensures DominantDirection(Sub(target, cur)).0 == 0
    ensures target == cur ==> DominantDirection(Sub(target, cur)) == Down
  {
  }

  /** Nearest-player search is first-come on ties: of two equally near players
      in range, the earlier one is never passed over for the later. */
  lemma NearestIsUnique(e: Vec, players: seq<Vec>, maxRange: int, i: int, k: int)
    requires NearestAt(e, players, maxRange, i)
    requires NearestAt(e, players, maxRange, k)
    ensures i == k
  {
  }
}
