/** The defeat panel's result record and its failure-reason text. */
module DefeatPanel {

  /** The failure reasons. The C# enum is an integer, so any other value can
    * reach the panel and gets the generic text. */
  const PlayerDied := 0
  const TimeOut := 1
  const Trapped := 2
  const EnemyReachedGoal := 3

  datatype FailureData = FailureData(reason: int, score: int, enemiesKilled: int, timeUsed: real)

  /** `FailureData.Calculate`: 100 points per kill, whatever the reason or time. */
  function Calculate(reason: int, enemiesKilled: int, timeUsed: real): (d: FailureData)
    ensures d.reason == reason && d.enemiesKilled == enemiesKilled && d.timeUsed == timeUsed
    ensures d.score == 100 * enemiesKilled
  {
    FailureData(reason, enemiesKilled * 100, enemiesKilled, timeUsed)
  }

  /** `GetFailureReasonText`. */
  function GetFailureReasonText(reason: int): (s: string)
    ensures |s| > 0
  {
    if reason == PlayerDied then "主角被击败了！"
    else if reason == TimeOut then "时间到！"
    else if reason == Trapped then "掉进陷阱了！"
    else if reason == EnemyReachedGoal then "敌人到达终点！"
    else "游戏失败"
  }

  /** Each named reason has its own text, distinct from the generic one:
    * the text identifies the reason. */
  lemma ReasonTextsDistinct(a: int, b: int)
    requires PlayerDied <= a <= EnemyReachedGoal && PlayerDied <= b <= EnemyReachedGoal
    ensures GetFailureReasonText(a) == GetFailureReasonText(b) <==> a == b
    ensures GetFailureReasonText(a) != GetFailureReasonText(-1)
  {
  }

  /** The score depends on the kills alone. */
  lemma ScoreIgnoresReasonAndTime(r1: int, r2: int, k: int, t1: real, t2: real)
    ensures Calculate(r1, k, t1).score == Calculate(r2, k, t2).score
  {
  }
}
