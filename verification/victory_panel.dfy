/** The victory panel's result record: score, star rating, and the copied
  * inputs. Time is a `real` number of seconds. */
module VictoryPanel {
  import TimeFormat

  datatype VictoryData = VictoryData(score: int, enemiesKilled: int, timeUsed: real, starsEarned: int)

  /** The time part of the score: 10 points lost per second from 1000, never below 0. */
  function TimeBonus(timeUsed: real): (b: int)
    ensures b >= 0
    ensures timeUsed >= 0.0 ==> b <= 1000
    ensures timeUsed <= 100.0 ==> b == TimeFormat.FloorToInt(1000.0 - timeUsed * 10.0)
    ensures timeUsed >= 100.0 ==> b == 0
  {
    var raw := TimeFormat.FloorToInt(1000.0 - timeUsed * 10.0);
    if raw > 0 then raw else 0
  }

  /** The star rating: 3 for at least 5 kills within 60 s, else 2 for at
    * least 3 kills within 120 s, else 1. */
  function Stars(enemiesKilled: int, timeUsed: real): (s: int)
    ensures 1 <= s <= 3
    ensures s == 3 <==> enemiesKilled >= 5 && timeUsed <= 60.0
    ensures s == 2 <==> !(enemiesKilled >= 5 && timeUsed <= 60.0) && enemiesKilled >= 3 && timeUsed <= 120.0
  {
    if enemiesKilled >= 5 && timeUsed <= 60.0 then 3
    else if enemiesKilled >= 3 && timeUsed <= 120.0 then 2
    else 1
  }

  /** `VictoryData.Calculate`: 100 points per kill plus the time bonus, the
    * star rating, and the inputs copied. */
  function Calculate(enemiesKilled: int, timeUsed: real): (d: VictoryData)
    ensures d.enemiesKilled == enemiesKilled && d.timeUsed == timeUsed
    ensures d.score - 100 * enemiesKilled == TimeBonus(timeUsed)
    ensures timeUsed >= 0.0 ==> 100 * enemiesKilled <= d.score <= 100 * enemiesKilled + 1000
    ensures 1 <= d.starsEarned <= 3 && d.starsEarned == Stars(enemiesKilled, timeUsed)
  {
    VictoryData(enemiesKilled * 100 + TimeBonus(timeUsed), enemiesKilled, timeUsed, Stars(enemiesKilled, timeUsed))
  }

  /** More kills or less time never lowers the rating. */
  lemma StarsMonotone(k1: int, t1: real, k2: int, t2: real)
    requires k1 <= k2 && t2 <= t1
    ensures Calculate(k1, t1).starsEarned <= Calculate(k2, t2).starsEarned
  {
  }

  /** More kills or less time never lowers the score. */
  lemma ScoreMonotone(k1: int, t1: real, k2: int, t2: real)
    requires k1 <= k2 && t2 <= t1
    ensures Calculate(k1, t1).score <= Calculate(k2, t2).score
  {
  }

  /** A finish at 30 s with 5 kills: 700 time points, 1200 in all, 3 stars. */
  lemma ExampleFastWin()
    ensures Calculate(5, 30.0) == VictoryData(1200, 5, 30.0, 3)
  {
  }
}
