/**
 * The `verify-answer` server function: checks the required fields, judges the answer, scores
 * it with the 10000 ms rule, stores the row and returns the player's new total for the game.
 */
module VerifyAnswer {
  import opened Common
  import opened Types
  import opened GameLogic
  import opened Scoreboard
  import opened Database

  /** The speed-bonus threshold of this endpoint. */
  const ThresholdMs: int := 10000

  /** The request body; an empty string stands for a missing field. */
  datatype Request = Request(gameId: string, playerId: string, questionId: string,
                             userAnswer: string, correctAnswer: string, responseTimeMs: int)

  /** The handler's responses. */
  datatype Response =
    | MissingFields
    | InsertFailed
    | FetchFailed
    | Verified(isCorrect: bool, pointsEarned: int, basePoints: int, bonus: int, playerTotalScore: int, score: ScoreRow)

  function StatusCode(r: Response): (code: int)
    ensures code == 200 <==> r.Verified?
    ensures code == 400 <==> r.MissingFields?
    ensures code == 500 <==> !(r.MissingFields? || r.Verified?)
  {
    match r
    case MissingFields => 400
    case Verified(_, _, _, _, _, _) => 200
    case _ => 500
  }

  /** Every field the handler insists on is present and non-empty. */
  predicate HasRequiredFields(req: Request) {
    req.gameId != [] && req.playerId != [] && req.questionId != [] && req.userAnswer != [] && req.correctAnswer != []
  }

  /**
   * The handler's judgement and points: trimmed case-insensitive equality, 100 or -25 base
   * points and a 30-point bonus for a correct answer under 10000 ms.
   */
  method ScoreAnswer(userAnswer: string, correctAnswer: string, responseTimeMs: int)
    returns (isCorrect: bool, basePoints: int, bonus: int, totalPoints: int)
    ensures isCorrect == ValidateAnswer(userAnswer, correctAnswer)
    ensures basePoints == (if isCorrect then 100 else -25)
    ensures bonus == 30 <==> isCorrect && responseTimeMs < ThresholdMs
    ensures bonus == 0 || bonus == 30
    ensures totalPoints == basePoints + bonus
    ensures Breakdown(basePoints, bonus, totalPoints) == Points(isCorrect, responseTimeMs, ThresholdMs)
  {
    isCorrect := ValidateAnswer(userAnswer, correctAnswer);
    basePoints := if isCorrect then CorrectAnswer else IncorrectAnswer;
    bonus := if isCorrect && responseTimeMs < ThresholdMs then SpeedBonus else 0;
    totalPoints := basePoints + bonus;
  }

  /** A player's total in a game after one more row of theirs is that row's points more. */
  lemma {:induction false} NewRowCounted(scores: seq<ScoreRow>, row: ScoreRow)
    ensures SumPoints(PlayerRows(GameRows(scores + [row], row.gameId), row.playerId))
      == SumPoints(PlayerRows(GameRows(scores, row.gameId), row.playerId)) + row.pointsEarned
  {
    var after := scores + [row];
    assert after[..|after| - 1] == scores;
    var rows := GameRows(scores, row.gameId);
    assert GameRows(after, row.gameId) == rows + [row];
    assert (rows + [row])[..|rows|] == rows;
    assert PlayerRows(rows + [row], row.playerId) == PlayerRows(rows, row.playerId) + [row];
    var mine := PlayerRows(rows, row.playerId) + [row];
    assert mine[..|mine| - 1] == PlayerRows(rows, row.playerId);
  }

  /** Rows of other games or other players leave a player's total as it was. */
  lemma {:induction false} OtherRowNotCounted(scores: seq<ScoreRow>, row: ScoreRow, gameId: string, playerId: string)
    requires row.gameId != gameId || row.playerId != playerId
    ensures SumPoints(PlayerRows(GameRows(scores + [row], gameId), playerId))
      == SumPoints(PlayerRows(GameRows(scores, gameId), playerId))
  {
    var after := scores + [row];
    assert after[..|after| - 1] == scores;
    var rows := GameRows(scores, gameId);
    if row.gameId == gameId {
      assert GameRows(after, gameId) == rows + [row];
      assert (rows + [row])[..|rows|] == rows;
      assert PlayerRows(rows + [row], playerId) == PlayerRows(rows, playerId);
    } else {
      assert GameRows(after, gameId) == rows;
    }
  }

  /**
   * The handler. `insertFails` and `fetchFails` are the store's failures and `newId` the id
   * it generates. A failed fetch comes after the insert, whose row stays stored.
   */
  method Handle(store: Store, req: Request, newId: string, insertFails: bool, fetchFails: bool)
    returns (resp: Response)
    modifies store
    ensures store.players == old(store.players) && store.games == old(store.games)
    ensures store.participants == old(store.participants)
    ensures !HasRequiredFields(req) ==> resp == MissingFields && store.scores == old(store.scores)
    ensures HasRequiredFields(req) && insertFails ==> resp == InsertFailed && store.scores == old(store.scores)
    ensures HasRequiredFields(req) && !insertFails ==>
      var isCorrect := ValidateAnswer(req.userAnswer, req.correctAnswer);
      var points := Points(isCorrect, req.responseTimeMs, ThresholdMs);
      var row := ScoreRow(newId, req.gameId, req.playerId, req.questionId, req.userAnswer, isCorrect,
                          points.total, req.responseTimeMs);
      && store.scores == old(store.scores) + [row]
      && (fetchFails ==> resp == FetchFailed)
      && (!fetchFails ==>
            resp == Verified(isCorrect, points.total, points.basePoints, points.bonus,
                             SumPoints(PlayerRows(GameRows(old(store.scores), req.gameId), req.playerId)) + points.total,
                             row))
  {
    if !HasRequiredFields(req) {
      return MissingFields;
    }
    var isCorrect, basePoints, bonus, totalPoints := ScoreAnswer(req.userAnswer, req.correctAnswer, req.responseTimeMs);
    var row := ScoreRow(newId, req.gameId, req.playerId, req.questionId, req.userAnswer, isCorrect,
                        totalPoints, req.responseTimeMs);
    if insertFails {
      return InsertFailed;
    }
    store.scores := store.scores + [row];
    if fetchFails {
      return FetchFailed;
    }
    var allScores := PlayerRows(GameRows(store.scores, req.gameId), req.playerId);
    var playerTotalScore := SumPoints(allScores);
    NewRowCounted(old(store.scores), row);
    resp := Verified(isCorrect, totalPoints, basePoints, bonus, playerTotalScore, row);
  }
}
