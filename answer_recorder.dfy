/**
 * `recordPlayerAnswer` of `utils/gameLogic.ts`: judges an answer, stores it through
 * `recordScore` and reports the points of `calculatePoints`.
 */
module AnswerRecorder {
  import opened Common
  import opened Types
  import opened GameLogic
  import opened Database

  /** What `recordPlayerAnswer` hands back to its caller. */
  datatype AnswerReport = AnswerReport(score: ScoreRow, isCorrect: bool, pointsEarned: int, breakdown: Breakdown)

  /**
   * The reported points come from the 20000 ms rule and the stored row's from the 10000 ms
   * rule: they differ exactly for correct answers timed in [10000, 20000), by the 30-point bonus.
   */
  lemma {:induction false} ReportedVersusStored(isCorrect: bool, responseTimeMs: int)
    ensures CalculatePoints(isCorrect, responseTimeMs).total != Points(isCorrect, responseTimeMs, RecordScoreThresholdMs).total
        <==> isCorrect && 10000 <= responseTimeMs < 20000
    ensures CalculatePoints(isCorrect, responseTimeMs).total - Points(isCorrect, responseTimeMs, RecordScoreThresholdMs).total
        == if isCorrect && 10000 <= responseTimeMs < 20000 then 30 else 0
  {
    ThresholdsDisagree(isCorrect, responseTimeMs, RecordScoreThresholdMs, SpeedBonusThresholdMs);
  }

  /** A correct answer after 15 seconds is reported as 130 points and stored as 100. */
  lemma FifteenSecondsExample()
    ensures CalculatePoints(true, 15000).total == 130
    ensures Points(true, 15000, RecordScoreThresholdMs).total == 100
  {
  }

  /** `recordPlayerAnswer` as written: the report and the stored row use different thresholds. */
  method RecordPlayerAnswer(store: Store, gameId: string, playerId: string, questionId: string,
                            userAnswer: string, correctAnswer: string, responseTimeMs: int,
                            newId: string, fails: bool)
    returns (r: Result<AnswerReport>)
    modifies store
    ensures store.players == old(store.players) && store.games == old(store.games)
    ensures store.participants == old(store.participants)
    ensures fails <==> r.Err?
    ensures r.Err? ==> store.scores == old(store.scores)
    ensures r.Ok? ==>
      && store.scores == old(store.scores) + [r.value.score]
      && r.value.isCorrect == ValidateAnswer(userAnswer, correctAnswer)
      && r.value.breakdown == CalculatePoints(r.value.isCorrect, responseTimeMs)
      && r.value.pointsEarned == r.value.breakdown.total
      && r.value.score == StoredRow(newId, gameId, playerId, questionId, userAnswer, r.value.isCorrect, responseTimeMs)
  {
    var isCorrect := ValidateAnswer(userAnswer, correctAnswer);
    var pointsCalculation := CalculatePoints(isCorrect, responseTimeMs);
    var score := store.RecordScore(gameId, playerId, questionId, userAnswer, isCorrect, responseTimeMs, newId, fails);
    if score.Err? {
      return Err(score.message);
    }
    r := Ok(AnswerReport(score.value, isCorrect, pointsCalculation.total, pointsCalculation));
  }

  /**
   * `recordPlayerAnswer` reporting the points of the row it stored, so that the report, its
   * breakdown and every later total agree.
   */
  method RecordPlayerAnswerConsistent(store: Store, gameId: string, playerId: string, questionId: string,
                                      userAnswer: string, correctAnswer: string, responseTimeMs: int,
                                      newId: string, fails: bool)
    returns (r: Result<AnswerReport>)
    modifies store
    ensures store.players == old(store.players) && store.games == old(store.games)
    ensures store.participants == old(store.participants)
    ensures fails <==> r.Err?
    ensures r.Err? ==> store.scores == old(store.scores)
    ensures r.Ok? ==>
      && store.scores == old(store.scores) + [r.value.score]
      && r.value.isCorrect == ValidateAnswer(userAnswer, correctAnswer)
      && r.value.score == StoredRow(newId, gameId, playerId, questionId, userAnswer, r.value.isCorrect, responseTimeMs)
      && r.value.pointsEarned == r.value.score.pointsEarned
      && r.value.breakdown.total == r.value.pointsEarned
      && r.value.breakdown.basePoints + r.value.breakdown.bonus == r.value.pointsEarned
      && r.value.breakdown == Points(r.value.isCorrect, responseTimeMs, RecordScoreThresholdMs)
  {
    var isCorrect := ValidateAnswer(userAnswer, correctAnswer);
    var pointsCalculation := Points(isCorrect, responseTimeMs, RecordScoreThresholdMs);
    var score := store.RecordScore(gameId, playerId, questionId, userAnswer, isCorrect, responseTimeMs, newId, fails);
    if score.Err? {
      return Err(score.message);
    }
    r := Ok(AnswerReport(score.value, isCorrect, pointsCalculation.total, pointsCalculation));
  }
}
