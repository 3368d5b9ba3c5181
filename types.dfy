/** The rows of the backing store's tables and the records derived from them. */
module Types {
  import opened Common

  /** Timestamps are opaque ISO strings handed in by the caller (the clock is not modelled). */
  type Timestamp = string

  /** The lifecycle phase of a game. */
  datatype Status = Pending | Active | Finished

  /** A row of `players`. */
  datatype Player = Player(id: string, username: string, email: Option<string>, avatarUrl: Option<string>)

  /** A row of `games`. */
  datatype Game = Game(id: string, title: string, status: Status, startedAt: Option<Timestamp>, endedAt: Option<Timestamp>)

  /** A row of `scores`: one answer attempt. */
  datatype ScoreRow = ScoreRow(
    id: string, gameId: string, playerId: string, questionId: string,
    answerText: string, isCorrect: bool, pointsEarned: int, responseTimeMs: int)

  /** A row of `game_participants`. */
  datatype Participant = Participant(gameId: string, playerId: string, finalScore: Option<int>, finalRank: Option<int>)

  /** One player's line of the live scoreboard before it is ranked. */
  datatype Tally = Tally(
    playerId: string, username: Option<string>, avatarUrl: Option<string>,
    totalPoints: int, correctAnswers: nat, totalAnswers: nat)

  /** One player's total in the finalization. */
  datatype PlayerTotal = PlayerTotal(playerId: string, totalScore: int)

  /** A record extended with its 1-based `rank`. */
  datatype Ranked<T> = Ranked(item: T, rank: int)

  function TotalPointsKey(t: Tally): int { t.totalPoints }

  function TotalAnswersKey(t: Tally): int { t.totalAnswers }

  function TallyId(t: Tally): string { t.playerId }

  function TotalId(p: PlayerTotal): string { p.playerId }

  function TotalScoreKey(p: PlayerTotal): int { p.totalScore }

  /** The records of a ranking without their ranks. */
  function Items<T>(b: seq<Ranked<T>>): (s: seq<T>)
    ensures |s| == |b| && forall i :: 0 <= i < |b| ==> s[i] == b[i].item
  {
    seq(|b|, i requires 0 <= i < |b| => b[i].item)
  }
}
