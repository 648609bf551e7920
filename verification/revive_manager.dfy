/** The revive counter: a persisted count with a default of 2, spent one at a
  * time and topped up by 2 on the first check of each new day. The settings
  * store is a pair of optional entries and "today" is passed in. */
module ReviveManager {
  import opened Wrappers

  datatype Settings = Settings(reviveCount: Option<int>, lastReviveDate: Option<string>)

  /** The count read when none has been stored yet. */
  const DefaultReviveCount := 2
  /** Revives granted by each new day. */
  const DailyRevives := 2

  /** The `ReviveCount` getter. */
  function ReviveCount(s: Settings): (n: int)
    ensures s.reviveCount.None? ==> n == DefaultReviveCount
    ensures s.reviveCount.Some? ==> n == s.reviveCount.value
  {
    s.reviveCount.GetOr(DefaultReviveCount)
  }

  /** The `ReviveCount` setter. */
  function SetReviveCount(s: Settings, n: int): (r: Settings)
    ensures ReviveCount(r) == n && r.lastReviveDate == s.lastReviveDate
  {
    s.(reviveCount := Some(n))
  }

  /** `ReviveManager.ConsumeRevive`: succeeds and spends exactly one revive iff
    * one is left; otherwise fails and changes nothing. */
  function ConsumeRevive(s: Settings): (res: (bool, Settings))
    ensures res.0 <==> ReviveCount(s) > 0
    ensures res.0 ==> ReviveCount(res.1) == ReviveCount(s) - 1
    ensures !res.0 ==> res.1 == s
    ensures ReviveCount(s) >= 0 ==> ReviveCount(res.1) >= 0
    ensures res.1.lastReviveDate == s.lastReviveDate
  {
    if ReviveCount(s) > 0 then (true, SetReviveCount(s, ReviveCount(s) - 1)) else (false, s)
  }

  /** `ReviveManager.AddRevive`. */
  function AddRevive(s: Settings, amount: int): (r: Settings)
    ensures ReviveCount(r) - ReviveCount(s) == amount
    ensures r.lastReviveDate == s.lastReviveDate
  {
    SetReviveCount(s, ReviveCount(s) + amount)
  }

  /** The stored date, with the empty string when none is stored. */
  function LastDate(s: Settings): (d: string)
    ensures s.lastReviveDate.None? ==> d == ""
    ensures s.lastReviveDate.Some? ==> d == s.lastReviveDate.value
  {
    s.lastReviveDate.GetOr("")
  }

  /** `ReviveManager.CheckDailyRefresh`: the first check on a day other than
    * the stored one grants 2 revives and stores the day; otherwise nothing. */
  function CheckDailyRefresh(s: Settings, today: string): (r: Settings)
    ensures LastDate(s) == today ==> r == s
    ensures LastDate(s) != today ==>
      ReviveCount(r) == ReviveCount(s) + DailyRevives && LastDate(r) == today
    ensures LastDate(r) == today
  {
    if LastDate(s) != today then
      AddRevive(s, DailyRevives).(lastReviveDate := Some(today))
    else s
  }

  /** A second check on the same day is a no-op. */
  lemma DailyRefreshIdempotent(s: Settings, today: string)
    ensures CheckDailyRefresh(CheckDailyRefresh(s, today), today) == CheckDailyRefresh(s, today)
  {
  }

  /** Consuming never takes a non-negative count below zero, however often it
    * is repeated. */
  function ConsumeTimes(s: Settings, k: nat): Settings {
    if k == 0 then s else ConsumeRevive(ConsumeTimes(s, k - 1)).1
  }

  lemma {:induction false} ConsumeNeverNegative(s: Settings, k: nat)
    requires ReviveCount(s) >= 0
    ensures ReviveCount(ConsumeTimes(s, k)) == if k <= ReviveCount(s) then ReviveCount(s) - k else 0
  {
    if k > 0 {
      ConsumeNeverNegative(s, k - 1);
    }
  }

  /** Adding revives and then consuming one undoes a single added revive. */
  lemma AddThenConsume(s: Settings)
    requires ReviveCount(s) >= 0
    ensures ConsumeRevive(AddRevive(s, 1)).0
    ensures ReviveCount(ConsumeRevive(AddRevive(s, 1)).1) == ReviveCount(s)
  {
  }

  /** A fresh install on its first day has the default 2 plus the daily 2. */
  lemma FirstDay(today: string)
    requires today != ""
    ensures ReviveCount(CheckDailyRefresh(Settings(None, None), today)) == 4
  {
  }
}
