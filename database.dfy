/**
 * The store wrappers of `utils/database.ts` over in-memory tables.
 *
 * Each wrapper is one atomic step on the tables. A failure of the backing store is the input
 * `fails`; generated ids and the clock reading are inputs too.
 */
module Database {
  import opened Common
  import opened Types
  import opened Ranking
  import opened GameLogic
  import opened Scoreboard

  /** The speed-bonus threshold `recordScore` uses (it differs from `SCORING_RULES`). */
  const RecordScoreThresholdMs: int := 10000

  // ---------------------------------------------------------------------------
  // Lookups on the players table

  /** The position of the player called `username`, or `|players|` when there is none. */
  function IndexOfName(players: seq<Player>, username: string): (k: nat)
    ensures k <= |players|
    ensures k < |players| ==> players[k].username == username
    ensures k == |players| ==> forall j :: 0 <= j < |players| ==> players[j].username != username
  {
    if players == [] then 0
    else if players[0].username == username then 0
    else 1 + IndexOfName(players[1..], username)
  }

  /** The position of the player with id `id`, or `|players|` when there is none. */
  function IndexOfId(players: seq<Player>, id: string): (k: nat)
    ensures k <= |players|
    ensures k < |players| ==> players[k].id == id
    ensures k == |players| ==> forall j :: 0 <= j < |players| ==> players[j].id != id
  {
    if players == [] then 0
    else if players[0].id == id then 0
    else 1 + IndexOfId(players[1..], id)
  }

  /** `username` is a unique column of `players`. */
  ghost predicate UniqueNames(players: seq<Player>) {
    forall i, j :: 0 <= i < j < |players| ==> players[i].username != players[j].username
  }

  /** A player other than the one at position `k` is called `name`. */
  predicate TakenByAnother(players: seq<Player>, k: nat, name: string) {
    exists j :: 0 <= j < |players| && j != k && players[j].username == name
  }

  /**
   * The unique username column lets the patch through: no row has the id, or the patched name
   * belongs to no other player.
   */
  predicate PatchAllowed(players: seq<Player>, playerId: string, patch: ProfilePatch) {
    var k := IndexOfId(players, playerId);
    k == |players| || !TakenByAnother(players, k, Patched(players[k], patch).username)
  }

  /** `id` is the primary key of `players`. */
  ghost predicate UniqueIds(players: seq<Player>) {
    forall i, j :: 0 <= i < j < |players| ==> players[i].id != players[j].id
  }

  /** The games table is keyed by each game's own id. */
  ghost predicate KeyedById(games: map<string, Game>) {
    forall id :: id in games ==> games[id].id == id
  }

  // ---------------------------------------------------------------------------
  // Game status

  /**
   * The game after `updateGameStatus`: the new status, a start stamp only when it becomes
   * active and an end stamp only when it becomes finished; the current status is not consulted.
   */
  function WithStatus(g: Game, status: Status, now: Timestamp): (h: Game)
    ensures h.id == g.id && h.title == g.title && h.status == status
    ensures status == Active ==> h.startedAt == Some(now)
    ensures status == Finished ==> h.endedAt == Some(now)
    ensures h.startedAt != g.startedAt ==> status == Active && h.startedAt == Some(now)
    ensures h.endedAt != g.endedAt ==> status == Finished && h.endedAt == Some(now)
  {
    g.(status := status,
       startedAt := if status == Active then Some(now) else g.startedAt,
       endedAt := if status == Finished then Some(now) else g.endedAt)
  }

  /** A pending game started at `t1` and finished at `t2` keeps both stamps. */
  lemma LifecycleStamps(g: Game, t1: Timestamp, t2: Timestamp)
    requires g.status == Pending
    ensures var h := WithStatus(WithStatus(g, Active, t1), Finished, t2);
      h.status == Finished && h.startedAt == Some(t1) && h.endedAt == Some(t2)
  {
  }

  /**
   * No transition is refused: a finished game can be written back to pending, and it then
   * still carries the end stamp of the game that was finished.
   */
  lemma StatusCanRegress(g: Game, now: Timestamp)
    requires g.status == Finished && g.endedAt.Some?
    ensures WithStatus(g, Pending, now).status == Pending
    ensures WithStatus(g, Pending, now).endedAt == g.endedAt
  {
  }

  /** Writing the same status at the same instant twice is writing it once. */
  lemma WithStatusIdempotent(g: Game, status: Status, now: Timestamp)
    ensures WithStatus(WithStatus(g, status, now), status, now) == WithStatus(g, status, now)
  {
  }

  // ---------------------------------------------------------------------------
  // Participants

  /** The rows of `game_participants` for `gameId`, in table order. */
  function ParticipantsOf(parts: seq<Participant>, gameId: string): seq<Participant> {
    if parts == [] then []
    else
      var last := parts[|parts| - 1];
      ParticipantsOf(parts[..|parts| - 1], gameId) + (if last.gameId == gameId then [last] else [])
  }

  /** The rows with a final score, in table order. */
  function Scored(parts: seq<Participant>): seq<Participant> {
    if parts == [] then []
    else (if parts[0].finalScore.Some? then [parts[0]] else []) + Scored(parts[1..])
  }

  /** The rows without a final score, in table order. */
  function Unscored(parts: seq<Participant>): seq<Participant> {
    if parts == [] then []
    else (if parts[0].finalScore.None? then [parts[0]] else []) + Unscored(parts[1..])
  }

  function FinalScoreKey(p: Participant): int {
    if p.finalScore.Some? then p.finalScore.value else 0
  }

  /** `order("final_score", { ascending: false, nullsFirst: false })`. */
  function ScoreOrder(parts: seq<Participant>): (r: seq<Participant>)
    ensures multiset(r) == multiset(parts)
  {
    ScoredSplit(parts);
    SortDescFacts(Scored(parts), FinalScoreKey);
    SortDesc(Scored(parts), FinalScoreKey) + Unscored(parts)
  }

  lemma {:induction false} ScoredSplit(parts: seq<Participant>)
    ensures multiset(Scored(parts)) + multiset(Unscored(parts)) == multiset(parts)
  {
    if parts != [] {
      ScoredSplit(parts[1..]);
      assert parts == [parts[0]] + parts[1..];
    }
  }

  lemma {:induction false} ScoredHaveScores(parts: seq<Participant>)
    ensures forall i :: 0 <= i < |Scored(parts)| ==> Scored(parts)[i].finalScore.Some?
  {
    if parts != [] {
      ScoredHaveScores(parts[1..]);
    }
  }

  lemma {:induction false} UnscoredHaveNone(parts: seq<Participant>)
    ensures forall i :: 0 <= i < |Unscored(parts)| ==> Unscored(parts)[i].finalScore.None?
  {
    if parts != [] {
      UnscoredHaveNone(parts[1..]);
    }
  }

  /**
   * Every scored row comes first, by non-increasing final score, and every unscored row
   * comes last.
   */
  lemma ScoreOrderNullsLast(parts: seq<Participant>)
    ensures var r := ScoreOrder(parts);
      var n := |Scored(parts)|;
      && n <= |r|
      && (forall i :: 0 <= i < n ==> r[i].finalScore.Some?)
      && (forall i :: n <= i < |r| ==> r[i].finalScore.None?)
      && (forall i, j :: 0 <= i < j < n ==> r[i].finalScore.value >= r[j].finalScore.value)
  {
    var scored := Scored(parts);
    var sorted := SortDesc(scored, FinalScoreKey);
    ScoredHaveScores(parts);
    UnscoredHaveNone(parts);
    SortDescFacts(scored, FinalScoreKey);
    var r := ScoreOrder(parts);
    forall i | 0 <= i < |sorted| ensures sorted[i].finalScore.Some? {
      assert sorted[i] in multiset(scored);
      var m :| 0 <= m < |scored| && scored[m] == sorted[i];
    }
    forall i | |sorted| <= i < |r| ensures r[i].finalScore.None? {
      assert r[i] == Unscored(parts)[i - |sorted|];
    }
    forall i, j | 0 <= i < j < |sorted| ensures r[i].finalScore.value >= r[j].finalScore.value {
      assert FinalScoreKey(sorted[i]) >= FinalScoreKey(sorted[j]);
    }
  }

  /** The rows after `final_score`/`final_rank` are written for one (game, player) pair. */
  function WithFinal(parts: seq<Participant>, gameId: string, playerId: string, score: int, rank: int): (r: seq<Participant>)
    ensures |r| == |parts|
    ensures forall i :: 0 <= i < |parts| ==>
      r[i] == if parts[i].gameId == gameId && parts[i].playerId == playerId
              then parts[i].(finalScore := Some(score), finalRank := Some(rank))
              else parts[i]
  {
    seq(|parts|, i requires 0 <= i < |parts| =>
      if parts[i].gameId == gameId && parts[i].playerId == playerId
      then parts[i].(finalScore := Some(score), finalRank := Some(rank))
      else parts[i])
  }

  /** The first row of a (game, player) pair, or `|parts|` when there is none. */
  function IndexOfParticipant(parts: seq<Participant>, gameId: string, playerId: string): (k: nat)
    ensures k <= |parts|
    ensures k < |parts| ==> parts[k].gameId == gameId && parts[k].playerId == playerId
    ensures forall j :: 0 <= j < k ==> parts[j].gameId != gameId || parts[j].playerId != playerId
  {
    if parts == [] then 0
    else if parts[0].gameId == gameId && parts[0].playerId == playerId then 0
    else 1 + IndexOfParticipant(parts[1..], gameId, playerId)
  }

  /** The per-player view a caller gets back from `getPlayerScore`. */
  datatype PlayerScore = PlayerScore(totalPoints: int, answers: seq<ScoreRow>)

  /** The profile fields `updatePlayer` may overwrite; `None` leaves a field as it is. */
  datatype ProfilePatch = ProfilePatch(username: Option<string>, email: Option<string>, avatarUrl: Option<string>)

  function Patched(p: Player, patch: ProfilePatch): (q: Player)
    ensures q.id == p.id
    ensures q.username == (if patch.username.Some? then patch.username.value else p.username)
  {
    Player(p.id,
           if patch.username.Some? then patch.username.value else p.username,
           if patch.email.Some? then patch.email else p.email,
           if patch.avatarUrl.Some? then patch.avatarUrl else p.avatarUrl)
  }

  /** `recordScore`'s own copy of the points rule, with its 10000 ms threshold. */
  method RecordScorePoints(isCorrect: bool, responseTimeMs: int) returns (pointsEarned: int)
    ensures isCorrect && responseTimeMs < 10000 ==> pointsEarned == 130
    ensures isCorrect && responseTimeMs >= 10000 ==> pointsEarned == 100
    ensures !isCorrect ==> pointsEarned == -25
    ensures pointsEarned == Points(isCorrect, responseTimeMs, RecordScoreThresholdMs).total
  {
    pointsEarned := if isCorrect then 100 else -25;
    if isCorrect && responseTimeMs < 10000 {
      pointsEarned := pointsEarned + 30;
    }
  }

  /**
   * The row `recordScore` stores for an answer: every argument passed through, and the points
   * of the 10000 ms rule.
   */
  function StoredRow(id: string, gameId: string, playerId: string, questionId: string, answerText: string,
                     isCorrect: bool, responseTimeMs: int): ScoreRow
  {
    ScoreRow(id, gameId, playerId, questionId, answerText, isCorrect,
             Points(isCorrect, responseTimeMs, RecordScoreThresholdMs).total, responseTimeMs)
  }

  /** The tables of the backing store. */
  class Store {
    var players: seq<Player>
    var games: map<string, Game>
    var scores: seq<ScoreRow>
    var participants: seq<Participant>

    ghost predicate Valid()
      reads this
    {
      UniqueNames(players) && UniqueIds(players) && KeyedById(games)
    }

    /** A store holding the given tables. */
    constructor (players0: seq<Player>, games0: map<string, Game>, scores0: seq<ScoreRow>, participants0: seq<Participant>)
      requires UniqueNames(players0) && UniqueIds(players0) && KeyedById(games0)
      ensures Valid()
      ensures players == players0 && games == games0 && scores == scores0 && participants == participants0
    {
      players := players0;
      games := games0;
      scores := scores0;
      participants := participants0;
    }

    /**
     * `createPlayer`: inserts a row under the store-generated id `newId`; the unique username
     * column refuses a second row with the same name.
     */
    method CreatePlayer(username: string, email: Option<string>, avatarUrl: Option<string>, newId: string, fails: bool)
      returns (r: Result<Player>)
      requires Valid()
      requires IndexOfId(players, newId) == |players|
      modifies this
      ensures Valid()
      ensures games == old(games) && scores == old(scores) && participants == old(participants)
      ensures fails || IndexOfName(old(players), username) < |old(players)| ==> r.Err? && players == old(players)
      ensures !fails && IndexOfName(old(players), username) == |old(players)| ==>
        r == Ok(Player(newId, username, email, avatarUrl)) && players == old(players) + [r.value]
    {
      if fails || IndexOfName(players, username) < |players| {
        return Err(StoreFailure);
      }
      var row := Player(newId, username, email, avatarUrl);
      players := players + [row];
      r := Ok(row);
    }

    /**
     * `getPlayerByUsername`: the player with that name, or `None` when the lookup finds no row;
     * any other store error is passed on.
     */
    method GetPlayerByUsername(username: string, fails: bool) returns (r: Result<Option<Player>>)
      requires Valid()
      ensures fails <==> r.Err?
      ensures r.Ok? && r.value.Some? ==> r.value.value in players && r.value.value.username == username
      ensures r.Ok? && r.value.None? ==> forall p :: p in players ==> p.username != username
    {
      if fails {
        return Err(StoreFailure);
      }
      var k := IndexOfName(players, username);
      if k < |players| {
        r := Ok(Some(players[k]));
      } else {
        r := Ok(None);
      }
    }

    /**
     * `updatePlayer`: overwrites the patched fields of the player with id `playerId`; no row
     * matching gives `None`, and a username taken by another player is refused.
     */
    method UpdatePlayer(playerId: string, patch: ProfilePatch, fails: bool) returns (r: Result<Option<Player>>)
      requires Valid()
      modifies this
      ensures Valid()
      ensures games == old(games) && scores == old(scores) && participants == old(participants)
      ensures r.Err? || r.value.None? ==> players == old(players)
      ensures fails ==> r.Err?
      ensures IndexOfId(old(players), playerId) == |old(players)| && !fails ==> r == Ok(None)
      ensures var k := IndexOfId(old(players), playerId);
        !fails && k < |old(players)| && !TakenByAnother(old(players), k, Patched(old(players)[k], patch).username) ==>
          r == Ok(Some(Patched(old(players)[k], patch))) && players == old(players)[k := Patched(old(players)[k], patch)]
      ensures r.Err? ==> fails || var k := IndexOfId(old(players), playerId);
        k < |old(players)| && TakenByAnother(old(players), k, Patched(old(players)[k], patch).username)
      ensures r.Ok? && r.value.None? ==> IndexOfId(old(players), playerId) == |old(players)|
      ensures r.Ok? && r.value.Some? ==>
        var k := IndexOfId(old(players), playerId);
        k < |old(players)| && r.value.value == Patched(old(players)[k], patch) && players == old(players)[k := r.value.value]
    {
      if fails {
        return Err(StoreFailure);
      }
      var k := IndexOfId(players, playerId);
      if k == |players| {
        return Ok(None);
      }
      var updated := Patched(players[k], patch);
      var other := IndexOfName(players, updated.username);
      if other < |players| && other != k {
        assert players[other].username == updated.username;
        return Err(StoreFailure);
      }
      assert !TakenByAnother(players, k, updated.username) by {
        forall j | 0 <= j < |players| && j != k ensures players[j].username != updated.username {
          if other < |players| {
            assert other == k;
          }
        }
      }
      var next := players[k := updated];
      forall i, j | 0 <= i < j < |next| ensures next[i].username != next[j].username {
        if i == k {
          assert players[j].username != updated.username;
        } else if j == k {
          assert players[i].username != updated.username;
        }
      }
      players := next;
      r := Ok(Some(updated));
    }

    /** `getGame`: the game with that id; a missing row is an error, like any store error. */
    method GetGame(gameId: string, fails: bool) returns (r: Result<Game>)
      requires Valid()
      ensures r.Ok? <==> !fails && gameId in games
      ensures r.Ok? ==> r.value == games[gameId] && r.value.id == gameId
    {
      if fails || gameId !in games {
        return Err(StoreFailure);
      }
      r := Ok(games[gameId]);
    }

    /**
     * `updateGameStatus`: writes the status and its time stamp to the matching row (none
     * matching gives `None` and changes nothing).
     */
    method UpdateGameStatus(gameId: string, status: Status, now: Timestamp, fails: bool) returns (r: Result<Option<Game>>)
      requires Valid()
      modifies this
      ensures Valid()
      ensures players == old(players) && scores == old(scores) && participants == old(participants)
      ensures fails ==> r.Err? && games == old(games)
      ensures !fails && gameId !in old(games) ==> r == Ok(None) && games == old(games)
      ensures !fails && gameId in old(games) ==>
        games == old(games)[gameId := WithStatus(old(games)[gameId], status, now)] && r == Ok(Some(games[gameId]))
    {
      if fails {
        return Err(StoreFailure);
      }
      if gameId !in games {
        return Ok(None);
      }
      var g := games[gameId];
      var updated := g.(status := status);
      if status == Active {
        updated := updated.(startedAt := Some(now));
      }
      if status == Finished {
        updated := updated.(endedAt := Some(now));
      }
      games := games[gameId := updated];
      r := Ok(Some(updated));
    }

    /**
     * `recordScore`: appends one answer row whose points follow the 10000 ms rule and returns it.
     */
    method RecordScore(gameId: string, playerId: string, questionId: string, answerText: string,
                       isCorrect: bool, responseTimeMs: int, newId: string, fails: bool)
      returns (r: Result<ScoreRow>)
      modifies this
      ensures players == old(players) && games == old(games) && participants == old(participants)
      ensures fails ==> r.Err? && scores == old(scores)
      ensures !fails ==>
        && r == Ok(StoredRow(newId, gameId, playerId, questionId, answerText, isCorrect, responseTimeMs))
        && scores == old(scores) + [r.value]
    {
      var pointsEarned := RecordScorePoints(isCorrect, responseTimeMs);
      if fails {
        return Err(StoreFailure);
      }
      var row := ScoreRow(newId, gameId, playerId, questionId, answerText, isCorrect, pointsEarned, responseTimeMs);
      scores := scores + [row];
      r := Ok(row);
    }

    /**
     * `getPlayerScore`: the player's rows for the game and their points total, which is the
     * total the scoreboard shows for that player.
     */
    method GetPlayerScore(gameId: string, playerId: string, fails: bool) returns (r: Result<PlayerScore>)
      ensures fails <==> r.Err?
      ensures r.Ok? ==> r.value.answers == PlayerRows(GameRows(scores, gameId), playerId)
      ensures r.Ok? ==> r.value.totalPoints == SumPoints(r.value.answers)
      ensures r.Ok? ==> forall e :: e in GameScoreboard(scores, players, gameId) && e.item.playerId == playerId ==>
        e.item.totalPoints == r.value.totalPoints && e.item.totalAnswers == |r.value.answers|
    {
      if fails {
        return Err(StoreFailure);
      }
      var data := PlayerRows(GameRows(scores, gameId), playerId);
      GameScoreboardTallies(scores, players, gameId);
      r := Ok(PlayerScore(SumPoints(data), data));
    }

    /**
     * `getGameScoreboard`: fills a dictionary keyed by player id, one row at a time, then sorts
     * its values by points and numbers them; the result is the scoreboard `GameScoreboard`
     * specifies.
     */
    method GetGameScoreboard(gameId: string, fails: bool) returns (r: Result<seq<Ranked<Tally>>>)
      ensures fails <==> r.Err?
      ensures r.Ok? ==> r.value == GameScoreboard(scores, players, gameId)
    {
      if fails {
        return Err(StoreFailure);
      }
      var data := GameRows(scores, gameId);
      var board: map<string, Tally> := map[];
      var keys: seq<string> := [];
      var i := 0;
      while i < |data|
        invariant 0 <= i <= |data|
        invariant Mirrors(keys, board, Accumulate(data[..i], players))
      {
        var score := data[i];
        assert data[..i + 1] == data[..i] + [score];
        if score.playerId !in board {
          MirrorStepAbsent(keys, board, Accumulate(data[..i], players), score, players);
          board := board[score.playerId := Bump(NewTally(score, players), score)];
          keys := keys + [score.playerId];
        } else {
          MirrorStepPresent(keys, board, Accumulate(data[..i], players), score, players);
          board := board[score.playerId := Bump(board[score.playerId], score)];
        }
        i := i + 1;
      }
      assert data[..i] == data;
      MirrorsValues(keys, board, Accumulate(data, players));
      var values := ValuesInOrder(keys, board);
      r := Ok(CalculateRankings(SortDesc(values, TotalPointsKey)));
    }

    /**
     * `getGameParticipants`: the game's participant rows, scored ones first by non-increasing
     * final score, unscored ones last.
     */
    method GetGameParticipants(gameId: string, fails: bool) returns (r: Result<seq<Participant>>)
      ensures fails <==> r.Err?
      ensures r.Ok? ==> multiset(r.value) == multiset(ParticipantsOf(participants, gameId))
      ensures r.Ok? ==> r.value == ScoreOrder(ParticipantsOf(participants, gameId))
    {
      if fails {
        return Err(StoreFailure);
      }
      r := Ok(ScoreOrder(ParticipantsOf(participants, gameId)));
    }

    /**
     * `updateParticipantFinalScore`: writes the final score and rank of one player in one
     * game, and returns the first updated row (`None` when no row matched).
     */
    method UpdateParticipantFinalScore(gameId: string, playerId: string, finalScore: int, finalRank: int, fails: bool)
      returns (r: Result<Option<Participant>>)
      modifies this
      ensures players == old(players) && games == old(games) && scores == old(scores)
      ensures fails ==> r.Err? && participants == old(participants)
      ensures !fails ==> participants == WithFinal(old(participants), gameId, playerId, finalScore, finalRank)
      ensures !fails ==>
        var k := IndexOfParticipant(old(participants), gameId, playerId);
        r == Ok(if k < |participants| then Some(participants[k]) else None)
    {
      if fails {
        return Err(StoreFailure);
      }
      var k := IndexOfParticipant(participants, gameId, playerId);
      participants := WithFinal(participants, gameId, playerId, finalScore, finalRank);
      r := Ok(if k < |participants| then Some(participants[k]) else None);
    }
  }
}
