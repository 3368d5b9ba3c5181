/**
 * The `finalize-game` server function: totals every player's points in a game, ranks the
 * players, writes each one's final score and rank, then marks the game finished.
 */
module FinalizeGame {
  import opened Common
  import opened Types
  import opened Ranking
  import opened GameLogic
  import opened Scoreboard
  import opened Database

  // ---------------------------------------------------------------------------
  // Totals and rankings

  /** The totals of a fold's entries, in the same order. */
  function TotalsOf(acc: seq<Tally>): (t: seq<PlayerTotal>)
    ensures |t| == |acc|
    ensures forall i :: 0 <= i < |acc| ==> t[i] == PlayerTotal(acc[i].playerId, acc[i].totalPoints)
  {
    seq(|acc|, i requires 0 <= i < |acc| => PlayerTotal(acc[i].playerId, acc[i].totalPoints))
  }

  /** The `playerScores` dictionary as its entries, in key insertion order. */
  function Totals(rows: seq<ScoreRow>): (t: seq<PlayerTotal>)
    ensures |t| <= |rows|
  {
    TotalsOf(Accumulate(rows, []))
  }

  /** `rankedPlayers`: the totals sorted by non-increasing score, numbered from 1. */
  function FinalRankings(rows: seq<ScoreRow>): (r: seq<Ranked<PlayerTotal>>)
    ensures |r| == |Totals(rows)|
    ensures forall i :: 0 <= i < |r| ==> r[i].rank == i + 1
  {
    SortDescFacts(Totals(rows), TotalScoreKey);
    CalculateRankings(SortDesc(Totals(rows), TotalScoreKey))
  }

  function FirstTotalOrder(rows: seq<ScoreRow>): PlayerTotal -> int {
    (t: PlayerTotal) => FirstIndex(rows, t.playerId)
  }

  /**
   * The totals are one per player with rows, each the sum of that player's points, no player
   * twice, in the order of the players' first rows.
   */
  lemma TotalsFacts(rows: seq<ScoreRow>)
    ensures var t := Totals(rows);
      && (forall i :: 0 <= i < |t| ==> FirstIndex(rows, t[i].playerId) < |rows|)
      && (forall i :: 0 <= i < |t| ==> t[i].totalScore == SumPoints(PlayerRows(rows, t[i].playerId)))
      && DistinctBy(t, TotalId)
      && TiesOrderedBy(t, TotalScoreKey, FirstTotalOrder(rows))
      && (forall i, j :: 0 <= i < j < |t| ==> FirstIndex(rows, t[i].playerId) < FirstIndex(rows, t[j].playerId))
  {
    var acc := Accumulate(rows, []);
    var t := Totals(rows);
    AccumulatePlayers(rows, []);
    AccumulateTallies(rows, []);
    forall i | 0 <= i < |t| ensures t[i].totalScore == SumPoints(PlayerRows(rows, t[i].playerId)) {
      assert acc[i] in acc;
    }
    assert DistinctBy(acc, TallyId);
    forall i, j | 0 <= i < j < |t| ensures TotalId(t[i]) != TotalId(t[j]) {
      assert TallyId(acc[i]) != TallyId(acc[j]);
    }
  }

  /** A player with rows has a total. */
  lemma TotalsComplete(rows: seq<ScoreRow>, p: string)
    requires FirstIndex(rows, p) < |rows|
    ensures var t := Totals(rows);
      0 <= IndexOfPlayer(Accumulate(rows, []), p) < |t| && t[IndexOfPlayer(Accumulate(rows, []), p)].playerId == p
  {
    AccumulateComplete(rows, []);
  }

  /**
   * Ranks are 1..n in output order, hence distinct even for equal scores; scores never
   * increase down the list; tied players keep the order of their first rows.
   */
  lemma FinalRankingsOrder(rows: seq<ScoreRow>)
    ensures var f := FinalRankings(rows);
      && |f| == |Totals(rows)|
      && (forall i :: 0 <= i < |f| ==> f[i].rank == i + 1)
      && (forall i, j :: 0 <= i < j < |f| ==> f[i].item.totalScore >= f[j].item.totalScore)
      && (forall i, j :: 0 <= i < j < |f| && f[i].item.totalScore == f[j].item.totalScore ==>
            FirstIndex(rows, f[i].item.playerId) < FirstIndex(rows, f[j].item.playerId))
  {
    var t := Totals(rows);
    var f := FinalRankings(rows);
    assert Items(f) == SortDesc(t, TotalScoreKey);
    TotalsFacts(rows);
    SortDescFacts(t, TotalScoreKey);
    SortDescKeepsTieOrder(t, TotalScoreKey, FirstTotalOrder(rows));
  }

  /**
   * No player is ranked twice, every ranked player has rows in the game, and each score is the
   * sum of that player's points.
   */
  lemma FinalRankingsTotals(rows: seq<ScoreRow>)
    ensures var f := FinalRankings(rows);
      && (forall i, j :: 0 <= i < j < |f| ==> f[i].item.playerId != f[j].item.playerId)
      && (forall i :: 0 <= i < |f| ==> FirstIndex(rows, f[i].item.playerId) < |rows|)
      && (forall i :: 0 <= i < |f| ==> f[i].item.totalScore == SumPoints(PlayerRows(rows, f[i].item.playerId)))
  {
    var t := Totals(rows);
    var sorted := SortDesc(t, TotalScoreKey);
    var f := FinalRankings(rows);
    assert Items(f) == sorted;
    TotalsFacts(rows);
    SortDescFacts(t, TotalScoreKey);
    SortDescKeepsDistinct(t, TotalScoreKey, TotalId);
    forall i | 0 <= i < |f|
      ensures FirstIndex(rows, f[i].item.playerId) < |rows|
      ensures f[i].item.totalScore == SumPoints(PlayerRows(rows, f[i].item.playerId))
    {
      assert sorted[i] in multiset(t);
      var k :| 0 <= k < |t| && t[k] == sorted[i];
    }
    forall i, j | 0 <= i < j < |f| ensures f[i].item.playerId != f[j].item.playerId {
      assert TotalId(sorted[i]) != TotalId(sorted[j]);
    }
  }

  /** Every player with rows in the game is ranked. */
  lemma FinalRankingsComplete(rows: seq<ScoreRow>, p: string)
    requires FirstIndex(rows, p) < |rows|
    ensures var f := FinalRankings(rows);
      exists i :: 0 <= i < |f| && f[i].item.playerId == p
  {
    var t := Totals(rows);
    var sorted := SortDesc(t, TotalScoreKey);
    var f := FinalRankings(rows);
    assert Items(f) == sorted;
    TotalsComplete(rows, p);
    SortDescFacts(t, TotalScoreKey);
    var k := IndexOfPlayer(Accumulate(rows, []), p);
    assert t[k] in multiset(sorted);
    var i :| 0 <= i < |sorted| && sorted[i] == t[k];
    assert f[i].item.playerId == p;
  }

  function Row(id: string, playerId: string, points: int): ScoreRow {
    ScoreRow(id, "g", playerId, "q", "a", points > 0, points, 0)
  }

  /** Two players tied at 130 and one at 50 are ranked 1, 2 and 3, the tie in row order. */
  lemma TiedScoresExample()
    ensures FinalRankings([Row("s1", "p1", 130), Row("s2", "p2", 130), Row("s3", "p3", 50)])
      == [Ranked(PlayerTotal("p1", 130), 1), Ranked(PlayerTotal("p2", 130), 2), Ranked(PlayerTotal("p3", 50), 3)]
  {
    var rows := [Row("s1", "p1", 130), Row("s2", "p2", 130), Row("s3", "p3", 50)];
    assert rows[..2] == [Row("s1", "p1", 130), Row("s2", "p2", 130)];
    assert rows[..2][..1] == [Row("s1", "p1", 130)];
    var t1 := Tally("p1", None, None, 130, 1, 1);
    var t2 := Tally("p2", None, None, 130, 1, 1);
    var t3 := Tally("p3", None, None, 50, 1, 1);
    assert Accumulate(rows[..2][..1], []) == [t1];
    assert Accumulate(rows[..2], []) == [t1, t2];
    assert Accumulate(rows, []) == [t1, t2, t3];
    var t := [PlayerTotal("p1", 130), PlayerTotal("p2", 130), PlayerTotal("p3", 50)];
    assert Totals(rows) == t;
    assert SortDesc(t, TotalScoreKey) == t;
  }

  // ---------------------------------------------------------------------------
  // The participant writes

  /**
   * The participants table after the ranked updates, applied in ranking order; an update of a
   * player in `failing` reports an error and writes nothing.
   */
  function ApplyFinals(parts: seq<Participant>, gameId: string, ranked: seq<Ranked<PlayerTotal>>, failing: set<string>): (r: seq<Participant>)
    ensures |r| == |parts|
  {
    if ranked == [] then parts
    else
      var last := ranked[|ranked| - 1];
      var before := ApplyFinals(parts, gameId, ranked[..|ranked| - 1], failing);
      if last.item.playerId in failing then before
      else WithFinal(before, gameId, last.item.playerId, last.item.totalScore, last.rank)
  }

  /** A row of another game, or of a player nobody ranked, is not touched. */
  lemma {:induction false} ApplyFinalsKeeps(parts: seq<Participant>, gameId: string, ranked: seq<Ranked<PlayerTotal>>,
                                            failing: set<string>, i: nat)
    requires i < |parts|
    requires parts[i].gameId != gameId || forall j :: 0 <= j < |ranked| ==> ranked[j].item.playerId != parts[i].playerId
    ensures ApplyFinals(parts, gameId, ranked, failing)[i] == parts[i]
  {
    if ranked != [] {
      ApplyFinalsKeeps(parts, gameId, ranked[..|ranked| - 1], failing, i);
    }
  }

  /**
   * With distinct players, the row of the player ranked `j` ends with that player's total and
   * rank, unless that player's update failed, in which case it is not touched.
   */
  lemma {:induction false} ApplyFinalsWrites(parts: seq<Participant>, gameId: string, ranked: seq<Ranked<PlayerTotal>>,
                                             failing: set<string>, i: nat, j: nat)
    requires i < |parts| && j < |ranked|
    requires forall a, b :: 0 <= a < b < |ranked| ==> ranked[a].item.playerId != ranked[b].item.playerId
    requires parts[i].gameId == gameId && parts[i].playerId == ranked[j].item.playerId
    ensures ApplyFinals(parts, gameId, ranked, failing)[i] ==
      if ranked[j].item.playerId in failing then parts[i]
      else parts[i].(finalScore := Some(ranked[j].item.totalScore), finalRank := Some(ranked[j].rank))
  {
    var n := |ranked| - 1;
    var init := ranked[..n];
    if j == n {
      ApplyFinalsKeeps(parts, gameId, init, failing, i);
    } else {
      ApplyFinalsWrites(parts, gameId, init, failing, i, j);
    }
  }

  /** Participants without rows in the game are not touched by the finalization's writes. */
  lemma UnscoredParticipantsUntouched(parts: seq<Participant>, rows: seq<ScoreRow>, gameId: string,
                                      failing: set<string>, i: nat)
    requires i < |parts| && FirstIndex(rows, parts[i].playerId) == |rows|
    ensures ApplyFinals(parts, gameId, FinalRankings(rows), failing)[i] == parts[i]
  {
    FinalRankingsTotals(rows);
    ApplyFinalsKeeps(parts, gameId, FinalRankings(rows), failing, i);
  }

  /**
   * The participant row of the player ranked `j` receives that player's sum of points as
   * final score and `j + 1` as final rank, unless its update failed.
   */
  lemma RankedParticipantWritten(parts: seq<Participant>, rows: seq<ScoreRow>, gameId: string,
                                 failing: set<string>, i: nat, j: nat)
    requires i < |parts| && j < |FinalRankings(rows)|
    requires parts[i].gameId == gameId && parts[i].playerId == FinalRankings(rows)[j].item.playerId
    requires parts[i].playerId !in failing
    ensures ApplyFinals(parts, gameId, FinalRankings(rows), failing)[i]
      == parts[i].(finalScore := Some(SumPoints(PlayerRows(rows, parts[i].playerId))), finalRank := Some(j + 1))
  {
    FinalRankingsTotals(rows);
    FinalRankingsOrder(rows);
    ApplyFinalsWrites(parts, gameId, FinalRankings(rows), failing, i, j);
  }

  /** The first ranked player whose update failed, or `|ranked|` when none did. */
  function FirstFailing(ranked: seq<Ranked<PlayerTotal>>, failing: set<string>): (k: nat)
    ensures k <= |ranked|
    ensures k < |ranked| ==> ranked[k].item.playerId in failing
    ensures forall j :: 0 <= j < k ==> ranked[j].item.playerId !in failing
  {
    if ranked == [] then 0
    else if ranked[0].item.playerId in failing then 0
    else 1 + FirstFailing(ranked[1..], failing)
  }

  // ---------------------------------------------------------------------------
  // The handler

  /** The handler's responses. */
  datatype Response =
    | MissingGameId
    | ScoresFetchFailed
    | ParticipantUpdateFailed(playerId: string)
    | GameUpdateFailed
    | Finalized(gameId: string, finalRankings: seq<Ranked<PlayerTotal>>)

  function StatusCode(r: Response): (code: int)
    ensures code == 200 <==> r.Finalized?
    ensures code == 400 <==> r.MissingGameId?
    ensures code == 500 <==> !(r.MissingGameId? || r.Finalized?)
  {
    match r
    case MissingGameId => 400
    case Finalized(_, _) => 200
    case _ => 500
  }

  /** The dictionary `m` with key order `keys` holds the totals of the fold's entries `acc`. */
  ghost predicate HoldsTotals(keys: seq<string>, m: map<string, int>, acc: seq<Tally>) {
    && |keys| == |acc|
    && (forall k :: 0 <= k < |keys| ==> keys[k] in m && m[keys[k]] == acc[k].totalPoints && acc[k].playerId == keys[k])
    && (forall p :: p in m ==> p in keys)
    && (forall k, l :: 0 <= k < l < |keys| ==> keys[k] != keys[l])
  }

  lemma HoldsTotalsPresent(keys: seq<string>, m: map<string, int>, acc: seq<Tally>, r: ScoreRow)
    requires HoldsTotals(keys, m, acc) && r.playerId in m
    ensures HoldsTotals(keys, m[r.playerId := m[r.playerId] + r.pointsEarned], AddRow(acc, r, []))
  {
    var p := r.playerId;
    var k := IndexOfPlayer(acc, p);
    var l :| 0 <= l < |keys| && keys[l] == p;
    assert acc[l].playerId == p;
    assert k == l;
    assert AddRow(acc, r, []) == acc[l := Bump(acc[l], r)];
  }

  lemma HoldsTotalsAbsent(keys: seq<string>, m: map<string, int>, acc: seq<Tally>, r: ScoreRow)
    requires HoldsTotals(keys, m, acc) && r.playerId !in m
    ensures HoldsTotals(keys + [r.playerId], m[r.playerId := r.pointsEarned], AddRow(acc, r, []))
  {
    var p := r.playerId;
    assert IndexOfPlayer(acc, p) == |acc|;
    assert AddRow(acc, r, []) == acc + [Bump(NewTally(r, []), r)];
    var keys1 := keys + [p];
    forall a, b | 0 <= a < b < |keys1| ensures keys1[a] != keys1[b] {
      if b == |keys| {
        assert keys1[a] == keys[a] && keys[a] in m;
      }
    }
  }

  /** The dictionary's entries, in key order. */
  function EntriesInOrder(keys: seq<string>, m: map<string, int>): seq<PlayerTotal>
    requires forall k :: 0 <= k < |keys| ==> keys[k] in m
  {
    seq(|keys|, k requires 0 <= k < |keys| && keys[k] in m => PlayerTotal(keys[k], m[keys[k]]))
  }

  lemma HoldsTotalsEntries(keys: seq<string>, m: map<string, int>, acc: seq<Tally>)
    requires HoldsTotals(keys, m, acc)
    ensures EntriesInOrder(keys, m) == TotalsOf(acc)
  {
  }

  /** One `forEach` step: the row's points are added to its player's entry, created if absent. */
  method AddScore(keys: seq<string>, playerScores: map<string, int>, score: ScoreRow, ghost acc: seq<Tally>)
    returns (keys': seq<string>, playerScores': map<string, int>)
    requires HoldsTotals(keys, playerScores, acc)
    ensures HoldsTotals(keys', playerScores', AddRow(acc, score, []))
  {
    var pid := score.playerId;
    keys', playerScores' := keys, playerScores;
    if pid !in playerScores' || playerScores'[pid] == 0 {
      // a total of 0 is falsy, so an entry holding 0 is reset to the 0 it already holds
      if pid !in playerScores' {
        keys' := keys' + [pid];
      }
      playerScores' := playerScores'[pid := 0];
    }
    playerScores' := playerScores'[pid := playerScores'[pid] + score.pointsEarned];
    if pid in playerScores {
      assert playerScores' == playerScores[pid := playerScores[pid] + score.pointsEarned];
      HoldsTotalsPresent(keys, playerScores, acc, score);
    } else {
      assert playerScores' == playerScores[pid := score.pointsEarned];
      HoldsTotalsAbsent(keys, playerScores, acc, score);
    }
  }

  /** The `forEach` of the handler: the per-player totals, filled in place. */
  method TotalScores(rows: seq<ScoreRow>) returns (entries: seq<PlayerTotal>)
    ensures entries == Totals(rows)
  {
    var playerScores: map<string, int> := map[];
    var keys: seq<string> := [];
    var i := 0;
    while i < |rows|
      invariant 0 <= i <= |rows|
      invariant HoldsTotals(keys, playerScores, Accumulate(rows[..i], []))
    {
      assert rows[..i + 1] == rows[..i] + [rows[i]];
      keys, playerScores := AddScore(keys, playerScores, rows[i], Accumulate(rows[..i], []));
      i := i + 1;
    }
    assert rows[..i] == rows;
    HoldsTotalsEntries(keys, playerScores, Accumulate(rows, []));
    entries := EntriesInOrder(keys, playerScores);
  }

  /**
   * Issues every ranked player's update and reports the first one, in ranking order, that
   * failed; the updates that succeed are written whatever the others do.
   */
  method WriteFinals(store: Store, gameId: string, rankedPlayers: seq<Ranked<PlayerTotal>>, failingUpdates: set<string>)
    returns (firstError: Option<string>)
    requires store.Valid()
    modifies store
    ensures store.Valid()
    ensures store.players == old(store.players) && store.scores == old(store.scores) && store.games == old(store.games)
    ensures store.participants == ApplyFinals(old(store.participants), gameId, rankedPlayers, failingUpdates)
    ensures var k := FirstFailing(rankedPlayers, failingUpdates);
      firstError == if k < |rankedPlayers| then Some(rankedPlayers[k].item.playerId) else None
  {
    firstError := None;
    var i := 0;
    while i < |rankedPlayers|
      invariant 0 <= i <= |rankedPlayers|
      invariant store.Valid()
      invariant store.players == old(store.players) && store.scores == old(store.scores)
      invariant store.games == old(store.games)
      invariant store.participants == ApplyFinals(old(store.participants), gameId, rankedPlayers[..i], failingUpdates)
      invariant firstError == if FirstFailing(rankedPlayers[..i], failingUpdates) < i
                              then Some(rankedPlayers[FirstFailing(rankedPlayers[..i], failingUpdates)].item.playerId)
                              else None
    {
      var player := rankedPlayers[i];
      var result := store.UpdateParticipantFinalScore(gameId, player.item.playerId, player.item.totalScore, player.rank,
                                                      player.item.playerId in failingUpdates);
      assert rankedPlayers[..i + 1][..i] == rankedPlayers[..i];
      FirstFailingExtends(rankedPlayers[..i + 1], failingUpdates);
      if result.Err? && firstError.None? {
        firstError := Some(player.item.playerId);
      }
      i := i + 1;
    }
    assert rankedPlayers[..i] == rankedPlayers;
  }

  /**
   * The handler. `gameId == ""` stands for a missing id; `scoresFetchFails`, `failingUpdates`
   * (players whose update reports an error) and `gameUpdateFails` are the store's failures;
   * `now` is the clock reading. Every update is issued; the first error in ranking order is
   * reported and then the game is not marked finished.
   */
  method Finalize(store: Store, gameId: string, scoresFetchFails: bool, failingUpdates: set<string>,
                  gameUpdateFails: bool, now: Timestamp)
    returns (resp: Response)
    requires store.Valid()
    modifies store
    ensures store.Valid()
    ensures store.players == old(store.players) && store.scores == old(store.scores)
    ensures gameId == "" ==> resp == MissingGameId && unchanged(store)
    ensures gameId != "" && scoresFetchFails ==> resp == ScoresFetchFailed && unchanged(store)
    ensures gameId != "" && !scoresFetchFails ==>
      var ranked := FinalRankings(GameRows(old(store.scores), gameId));
      var k := FirstFailing(ranked, failingUpdates);
      && store.participants == ApplyFinals(old(store.participants), gameId, ranked, failingUpdates)
      && (k < |ranked| ==> resp == ParticipantUpdateFailed(ranked[k].item.playerId) && store.games == old(store.games))
      && (k == |ranked| && gameUpdateFails ==> resp == GameUpdateFailed && store.games == old(store.games))
      && (k == |ranked| && !gameUpdateFails ==>
            && resp == Finalized(gameId, ranked)
            && store.games == if gameId in old(store.games)
                              then old(store.games)[gameId := WithStatus(old(store.games)[gameId], Finished, now)]
                              else old(store.games))
  {
    if gameId == "" {
      return MissingGameId;
    }
    if scoresFetchFails {
      return ScoresFetchFailed;
    }
    var scores := GameRows(store.scores, gameId);
    var totals := TotalScores(scores);
    var rankedPlayers := CalculateRankings(SortDesc(totals, TotalScoreKey));
    var firstError := WriteFinals(store, gameId, rankedPlayers, failingUpdates);
    if firstError.Some? {
      return ParticipantUpdateFailed(firstError.value);
    }
    var updated := store.UpdateGameStatus(gameId, Finished, now, gameUpdateFails);
    if updated.Err? {
      return GameUpdateFailed;
    }
    resp := Finalized(gameId, rankedPlayers);
  }

  lemma {:induction false} FirstFailingExtends(ranked: seq<Ranked<PlayerTotal>>, failing: set<string>)
    requires ranked != []
    ensures var n := |ranked| - 1;
      var k := FirstFailing(ranked[..n], failing);
      FirstFailing(ranked, failing) == if k < n then k else if ranked[n].item.playerId in failing then n else n + 1
  {
    var n := |ranked| - 1;
    if n > 0 && ranked[0].item.playerId !in failing {
      assert ranked[1..][..n - 1] == ranked[..n][1..];
      FirstFailingExtends(ranked[1..], failing);
    }
  }
}
