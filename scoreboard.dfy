/**
 * The aggregation behind `getGameScoreboard` and the finalization: score rows are folded,
 * in table order, into one tally per player, kept in order of first appearance.
 */
module Scoreboard {
  import opened Common
  import opened Types
  import opened Ranking
  import opened GameLogic

  /** The rows of one game, in table order (`.eq("game_id", gameId)`). */
  function GameRows(scores: seq<ScoreRow>, gameId: string): seq<ScoreRow> {
    if scores == [] then []
    else
      var last := scores[|scores| - 1];
      GameRows(scores[..|scores| - 1], gameId) + (if last.gameId == gameId then [last] else [])
  }

  /** The rows of one player, in table order. */
  function PlayerRows(rows: seq<ScoreRow>, playerId: string): seq<ScoreRow> {
    if rows == [] then []
    else
      var last := rows[|rows| - 1];
      PlayerRows(rows[..|rows| - 1], playerId) + (if last.playerId == playerId then [last] else [])
  }

  /** `rows.reduce((sum, s) => sum + s.points_earned, 0)`. */
  function SumPoints(rows: seq<ScoreRow>): int {
    if rows == [] then 0 else SumPoints(rows[..|rows| - 1]) + rows[|rows| - 1].pointsEarned
  }

  /** How many rows record a correct answer. */
  function CountCorrect(rows: seq<ScoreRow>): (n: nat)
    ensures n <= |rows|
  {
    if rows == [] then 0 else CountCorrect(rows[..|rows| - 1]) + (if rows[|rows| - 1].isCorrect then 1 else 0)
  }

  /** The position of the first row of `playerId`, or `|rows|` when there is none. */
  function FirstIndex(rows: seq<ScoreRow>, playerId: string): (f: nat)
    ensures f <= |rows|
    ensures f < |rows| ==> rows[f].playerId == playerId
  {
    if rows == [] then 0
    else
      var f := FirstIndex(rows[..|rows| - 1], playerId);
      if f < |rows| - 1 then f
      else if rows[|rows| - 1].playerId == playerId then |rows| - 1
      else |rows|
  }

  /** The joined `players(username, avatar_url)` record, when the player row exists. */
  function FindPlayer(players: seq<Player>, id: string): (r: Option<Player>)
    ensures r.Some? ==> r.value in players && r.value.id == id
    ensures r.None? ==> forall p :: p in players ==> p.id != id
  {
    if players == [] then None
    else if players[0].id == id then Some(players[0])
    else FindPlayer(players[1..], id)
  }

  function UsernameOf(players: seq<Player>, id: string): Option<string> {
    match FindPlayer(players, id)
    case Some(p) => Some(p.username)
    case None => None
  }

  function AvatarOf(players: seq<Player>, id: string): Option<string> {
    match FindPlayer(players, id)
    case Some(p) => p.avatarUrl
    case None => None
  }

  /** The entry created the first time a player's row is met: all counters at zero. */
  function NewTally(r: ScoreRow, players: seq<Player>): Tally {
    Tally(r.playerId, UsernameOf(players, r.playerId), AvatarOf(players, r.playerId), 0, 0, 0)
  }

  /** One row's contribution: its points, one more answer, and one more correct one if it was. */
  function Bump(t: Tally, r: ScoreRow): Tally {
    t.(totalPoints := t.totalPoints + r.pointsEarned,
       correctAnswers := t.correctAnswers + (if r.isCorrect then 1 else 0),
       totalAnswers := t.totalAnswers + 1)
  }

  /** The index of the entry of `playerId`, or `|board|` when there is none. */
  function IndexOfPlayer(board: seq<Tally>, playerId: string): (k: nat)
    ensures k <= |board|
    ensures k < |board| ==> board[k].playerId == playerId
    ensures k == |board| ==> forall j :: 0 <= j < |board| ==> board[j].playerId != playerId
  {
    if board == [] then 0
    else if board[0].playerId == playerId then 0
    else 1 + IndexOfPlayer(board[1..], playerId)
  }

  function AddRow(board: seq<Tally>, r: ScoreRow, players: seq<Player>): seq<Tally> {
    var k := IndexOfPlayer(board, r.playerId);
    if k < |board| then board[k := Bump(board[k], r)]
    else board + [Bump(NewTally(r, players), r)]
  }

  /** The dictionary's values, in key insertion order, after folding every row. */
  function Accumulate(rows: seq<ScoreRow>, players: seq<Player>): (acc: seq<Tally>)
    ensures |acc| <= |rows|
  {
    if rows == [] then []
    else AddRow(Accumulate(rows[..|rows| - 1], players), rows[|rows| - 1], players)
  }

  /** The scoreboard of a game: tallies sorted by points, highest first, ranked 1..n. */
  function GameScoreboard(scores: seq<ScoreRow>, players: seq<Player>, gameId: string): (board: seq<Ranked<Tally>>)
    ensures |board| <= |GameRows(scores, gameId)|
    ensures forall i :: 0 <= i < |board| ==> board[i].rank == i + 1
  {
    SortDescFacts(Accumulate(GameRows(scores, gameId), players), TotalPointsKey);
    CalculateRankings(SortDesc(Accumulate(GameRows(scores, gameId), players), TotalPointsKey))
  }

  // ---------------------------------------------------------------------------
  // What the fold computes

  lemma {:induction false} NoFirstIndexNoRows(rows: seq<ScoreRow>, playerId: string)
    requires FirstIndex(rows, playerId) == |rows|
    ensures PlayerRows(rows, playerId) == []
  {
    if rows != [] {
      NoFirstIndexNoRows(rows[..|rows| - 1], playerId);
    }
  }

  /** Every entry belongs to a player that has a row. */
  ghost predicate Present(rows: seq<ScoreRow>, acc: seq<Tally>) {
    forall i :: 0 <= i < |acc| ==> FirstIndex(rows, acc[i].playerId) < |rows|
  }

  /** The entries are in the order in which their players' first rows appear. */
  ghost predicate InFirstAppearanceOrder(rows: seq<ScoreRow>, acc: seq<Tally>) {
    forall i, j :: 0 <= i < j < |acc| ==> FirstIndex(rows, acc[i].playerId) < FirstIndex(rows, acc[j].playerId)
  }

  /** Every player that has a row has an entry. */
  ghost predicate Complete(rows: seq<ScoreRow>, acc: seq<Tally>) {
    forall p :: FirstIndex(rows, p) < |rows| ==> IndexOfPlayer(acc, p) < |acc|
  }

  lemma FirstIndexOfPrefix(rows: seq<ScoreRow>, p: string)
    requires rows != []
    ensures var prefix := rows[..|rows| - 1];
      FirstIndex(rows, p) == if FirstIndex(prefix, p) < |prefix| then FirstIndex(prefix, p)
                             else if rows[|rows| - 1].playerId == p then |prefix| else |rows|
  {
  }

  lemma SameIdsSameIndex(a: seq<Tally>, b: seq<Tally>, p: string)
    requires |a| == |b| && forall i :: 0 <= i < |a| ==> a[i].playerId == b[i].playerId
    ensures IndexOfPlayer(a, p) == IndexOfPlayer(b, p)
  {
    if a != [] {
      SameIdsSameIndex(a[1..], b[1..], p);
    }
  }

  lemma {:induction false} AccumulatePresent(rows: seq<ScoreRow>, players: seq<Player>)
    ensures Present(rows, Accumulate(rows, players))
  {
    if rows != [] {
      var prefix := rows[..|rows| - 1];
      var r := rows[|rows| - 1];
      var acc0 := Accumulate(prefix, players);
      var acc := Accumulate(rows, players);
      AccumulatePresent(prefix, players);
      forall i | 0 <= i < |acc| ensures FirstIndex(rows, acc[i].playerId) < |rows| {
        FirstIndexOfPrefix(rows, acc[i].playerId);
        if i < |acc0| && acc[i].playerId == acc0[i].playerId {
          assert FirstIndex(prefix, acc0[i].playerId) < |prefix|;
        } else {
          assert acc[i].playerId == r.playerId;
        }
      }
    }
  }

  lemma {:induction false} AccumulateComplete(rows: seq<ScoreRow>, players: seq<Player>)
    ensures Complete(rows, Accumulate(rows, players))
  {
    if rows != [] {
      var prefix := rows[..|rows| - 1];
      var r := rows[|rows| - 1];
      var acc0 := Accumulate(prefix, players);
      var acc := Accumulate(rows, players);
      AccumulateComplete(prefix, players);
      var k := IndexOfPlayer(acc0, r.playerId);
      forall p | FirstIndex(rows, p) < |rows| ensures IndexOfPlayer(acc, p) < |acc| {
        FirstIndexOfPrefix(rows, p);
        if k < |acc0| {
          assert acc == acc0[k := Bump(acc0[k], r)];
          SameIdsSameIndex(acc0, acc, p);
          if FirstIndex(prefix, p) == |prefix| {
            assert acc0[k].playerId == p;
          }
        } else {
          assert acc == acc0 + [Bump(NewTally(r, players), r)];
          if p == r.playerId {
            assert acc[|acc0|].playerId == p;
          } else {
            var m := IndexOfPlayer(acc0, p);
            assert acc[m] == acc0[m];
          }
        }
      }
    }
  }

  lemma {:induction false} AccumulateOrdered(rows: seq<ScoreRow>, players: seq<Player>)
    ensures InFirstAppearanceOrder(rows, Accumulate(rows, players))
  {
    if rows != [] {
      var prefix := rows[..|rows| - 1];
      var r := rows[|rows| - 1];
      var acc0 := Accumulate(prefix, players);
      var acc := Accumulate(rows, players);
      AccumulateOrdered(prefix, players);
      AccumulatePresent(prefix, players);
      AccumulateComplete(prefix, players);
      var k := IndexOfPlayer(acc0, r.playerId);
      if k == |acc0| {
        assert FirstIndex(prefix, r.playerId) == |prefix|;
      }
      forall i, j | 0 <= i < j < |acc|
        ensures FirstIndex(rows, acc[i].playerId) < FirstIndex(rows, acc[j].playerId)
      {
        FirstIndexOfPrefix(rows, acc[i].playerId);
        FirstIndexOfPrefix(rows, acc[j].playerId);
        assert acc[i].playerId == acc0[i].playerId;
        if j < |acc0| {
          assert acc[j].playerId == acc0[j].playerId;
        } else {
          assert acc[j].playerId == r.playerId;
        }
      }
    }
  }

  /**
   * The entries are exactly the players that have rows, each once, in the order in which
   * their first rows appear.
   */
  lemma AccumulatePlayers(rows: seq<ScoreRow>, players: seq<Player>)
    ensures Present(rows, Accumulate(rows, players))
    ensures Complete(rows, Accumulate(rows, players))
    ensures InFirstAppearanceOrder(rows, Accumulate(rows, players))
    ensures DistinctBy(Accumulate(rows, players), TallyId)
  {
    AccumulatePresent(rows, players);
    AccumulateComplete(rows, players);
    AccumulateOrdered(rows, players);
  }

  /** An entry's counters are the sum, correct count and count of its player's rows. */
  ghost predicate TallyOf(rows: seq<ScoreRow>, players: seq<Player>, t: Tally) {
    var mine := PlayerRows(rows, t.playerId);
    && t.totalPoints == SumPoints(mine)
    && t.correctAnswers == CountCorrect(mine)
    && t.totalAnswers == |mine|
    && t.username == UsernameOf(players, t.playerId)
    && t.avatarUrl == AvatarOf(players, t.playerId)
  }

  lemma PlayerRowsOfPrefix(rows: seq<ScoreRow>, q: string)
    requires rows != []
    ensures var r := rows[|rows| - 1];
      PlayerRows(rows, q) == PlayerRows(rows[..|rows| - 1], q) + (if r.playerId == q then [r] else [])
  {
  }

  /** Bumping the tally of the last row's player accounts for that row. */
  lemma BumpAccountsForRow(rows: seq<ScoreRow>, players: seq<Player>, t: Tally)
    requires rows != [] && t.playerId == rows[|rows| - 1].playerId
    requires TallyOf(rows[..|rows| - 1], players, t)
    ensures TallyOf(rows, players, Bump(t, rows[|rows| - 1]))
  {
    var mine := PlayerRows(rows, t.playerId);
    PlayerRowsOfPrefix(rows, t.playerId);
    assert mine[..|mine| - 1] == PlayerRows(rows[..|rows| - 1], t.playerId);
  }

  /** Each entry's counters are the sum, correct count and count of that player's rows. */
  lemma {:induction false} AccumulateTallies(rows: seq<ScoreRow>, players: seq<Player>)
    ensures forall t :: t in Accumulate(rows, players) ==> TallyOf(rows, players, t)
  {
    if rows != [] {
      var prefix := rows[..|rows| - 1];
      var r := rows[|rows| - 1];
      var acc0 := Accumulate(prefix, players);
      var acc := Accumulate(rows, players);
      AccumulateTallies(prefix, players);
      AccumulatePlayers(prefix, players);
      var k := IndexOfPlayer(acc0, r.playerId);
      if k < |acc0| {
        assert acc == acc0[k := Bump(acc0[k], r)];
        forall i | 0 <= i < |acc| ensures TallyOf(rows, players, acc[i]) {
          if i == k {
            BumpAccountsForRow(rows, players, acc0[k]);
          } else {
            assert acc0[i].playerId != r.playerId;
            PlayerRowsOfPrefix(rows, acc0[i].playerId);
            assert PlayerRows(rows, acc0[i].playerId) == PlayerRows(prefix, acc0[i].playerId);
            assert acc0[i] in acc0;
          }
        }
      } else {
        assert acc == acc0 + [Bump(NewTally(r, players), r)];
        assert FirstIndex(prefix, r.playerId) == |prefix|;
        NoFirstIndexNoRows(prefix, r.playerId);
        forall i | 0 <= i < |acc| ensures TallyOf(rows, players, acc[i]) {
          if i == |acc0| {
            BumpAccountsForRow(rows, players, NewTally(r, players));
          } else {
            assert acc[i] == acc0[i] && acc0[i] in acc0;
            assert TallyOf(prefix, players, acc0[i]);
            assert acc0[i].playerId != r.playerId;
            PlayerRowsOfPrefix(rows, acc0[i].playerId);
            assert PlayerRows(rows, acc0[i].playerId) == PlayerRows(prefix, acc0[i].playerId);
          }
        }
      }
    }
  }

  /**
   * Nothing is lost or counted twice: the entries' points add up to the rows' points and
   * their answer counts to the number of rows.
   */
  lemma {:induction false} AccumulateSums(rows: seq<ScoreRow>, players: seq<Player>)
    ensures SumOf(Accumulate(rows, players), TotalPointsKey) == SumPoints(rows)
    ensures SumOf(Accumulate(rows, players), TotalAnswersKey) == |rows|
  {
    if rows != [] {
      var prefix := rows[..|rows| - 1];
      var r := rows[|rows| - 1];
      var acc0 := Accumulate(prefix, players);
      AccumulateSums(prefix, players);
      var k := IndexOfPlayer(acc0, r.playerId);
      if k < |acc0| {
        SumOfUpdate(acc0, k, Bump(acc0[k], r), TotalPointsKey);
        SumOfUpdate(acc0, k, Bump(acc0[k], r), TotalAnswersKey);
      } else {
        SumOfAppend(acc0, Bump(NewTally(r, players), r), TotalPointsKey);
        SumOfAppend(acc0, Bump(NewTally(r, players), r), TotalAnswersKey);
      }
    }
  }

  // ---------------------------------------------------------------------------
  // What the ranked scoreboard promises

  /** The first row of a player, and no row before it, belongs to that player. */
  lemma {:induction false} FirstIndexIsFirst(rows: seq<ScoreRow>, p: string, j: int)
    requires 0 <= j < FirstIndex(rows, p) && j < |rows|
    ensures rows[j].playerId != p
  {
    var prefix := rows[..|rows| - 1];
    if j < |prefix| {
      FirstIndexOfPrefix(rows, p);
      FirstIndexIsFirst(prefix, p, j);
    }
  }

  /** A player's first row comes no later than any row of that player. */
  lemma {:induction false} FirstIndexAtMost(rows: seq<ScoreRow>, p: string, j: int)
    requires 0 <= j < |rows| && rows[j].playerId == p
    ensures FirstIndex(rows, p) <= j
  {
    if j < |rows| - 1 {
      FirstIndexAtMost(rows[..|rows| - 1], p, j);
    }
  }

  /** A game's rows are exactly the store's rows of that game. */
  lemma {:induction false} GameRowsMembers(scores: seq<ScoreRow>, gameId: string, x: ScoreRow)
    ensures x in GameRows(scores, gameId) <==> x in scores && x.gameId == gameId
  {
    if scores != [] {
      GameRowsMembers(scores[..|scores| - 1], gameId, x);
      assert scores == scores[..|scores| - 1] + [scores[|scores| - 1]];
    }
  }

  /** A player's rows are exactly the rows of that player. */
  lemma {:induction false} PlayerRowsMembers(rows: seq<ScoreRow>, playerId: string, x: ScoreRow)
    ensures x in PlayerRows(rows, playerId) <==> x in rows && x.playerId == playerId
  {
    if rows != [] {
      PlayerRowsMembers(rows[..|rows| - 1], playerId, x);
      assert rows == rows[..|rows| - 1] + [rows[|rows| - 1]];
    }
  }

  function FirstRowOrder(rows: seq<ScoreRow>): Tally -> int {
    (t: Tally) => FirstIndex(rows, t.playerId)
  }

  /**
   * Ranks are 1..n in output order, points never increase down the board, and tied players
   * keep the order of their first rows.
   */
  lemma GameScoreboardOrder(scores: seq<ScoreRow>, players: seq<Player>, gameId: string)
    ensures var rows := GameRows(scores, gameId);
      var b := GameScoreboard(scores, players, gameId);
      && (forall i :: 0 <= i < |b| ==> b[i].rank == i + 1)
      && (forall i, j :: 0 <= i < j < |b| ==> b[i].item.totalPoints >= b[j].item.totalPoints)
      && (forall i, j :: 0 <= i < j < |b| && b[i].item.totalPoints == b[j].item.totalPoints ==>
            FirstIndex(rows, b[i].item.playerId) < FirstIndex(rows, b[j].item.playerId))
  {
    var rows := GameRows(scores, gameId);
    var acc := Accumulate(rows, players);
    var b := GameScoreboard(scores, players, gameId);
    assert Items(b) == SortDesc(acc, TotalPointsKey);
    AccumulatePlayers(rows, players);
    SortDescFacts(acc, TotalPointsKey);
    assert TiesOrderedBy(acc, TotalPointsKey, FirstRowOrder(rows));
    SortDescKeepsTieOrder(acc, TotalPointsKey, FirstRowOrder(rows));
  }

  /** No player has two entries. */
  lemma GameScoreboardDistinct(scores: seq<ScoreRow>, players: seq<Player>, gameId: string)
    ensures var b := GameScoreboard(scores, players, gameId);
      forall i, j :: 0 <= i < j < |b| ==> b[i].item.playerId != b[j].item.playerId
  {
    var rows := GameRows(scores, gameId);
    var acc := Accumulate(rows, players);
    var b := GameScoreboard(scores, players, gameId);
    assert Items(b) == SortDesc(acc, TotalPointsKey);
    AccumulatePlayers(rows, players);
    SortDescKeepsDistinct(acc, TotalPointsKey, TallyId);
  }

  /** Every entry belongs to a player with rows in the game. */
  lemma GameScoreboardPresent(scores: seq<ScoreRow>, players: seq<Player>, gameId: string)
    ensures var rows := GameRows(scores, gameId);
      var b := GameScoreboard(scores, players, gameId);
      forall i :: 0 <= i < |b| ==> FirstIndex(rows, b[i].item.playerId) < |rows|
  {
    var rows := GameRows(scores, gameId);
    var acc := Accumulate(rows, players);
    var sorted := SortDesc(acc, TotalPointsKey);
    var b := GameScoreboard(scores, players, gameId);
    assert Items(b) == sorted;
    AccumulatePresent(rows, players);
    SortDescFacts(acc, TotalPointsKey);
    forall i | 0 <= i < |b| ensures FirstIndex(rows, b[i].item.playerId) < |rows| {
      assert sorted[i] in multiset(acc);
      var k :| 0 <= k < |acc| && acc[k] == sorted[i];
    }
  }

  /** Every player with rows in the game has an entry. */
  lemma GameScoreboardComplete(scores: seq<ScoreRow>, players: seq<Player>, gameId: string, p: string)
    requires FirstIndex(GameRows(scores, gameId), p) < |GameRows(scores, gameId)|
    ensures var b := GameScoreboard(scores, players, gameId);
      exists i :: 0 <= i < |b| && b[i].item.playerId == p
  {
    var rows := GameRows(scores, gameId);
    var acc := Accumulate(rows, players);
    var sorted := SortDesc(acc, TotalPointsKey);
    var b := GameScoreboard(scores, players, gameId);
    assert Items(b) == sorted;
    AccumulateComplete(rows, players);
    SortDescFacts(acc, TotalPointsKey);
    var k := IndexOfPlayer(acc, p);
    assert acc[k] in multiset(sorted);
    var i :| 0 <= i < |sorted| && sorted[i] == acc[k];
    assert b[i].item.playerId == p;
  }

  /**
   * Each entry's counters are its player's sum of points, correct count and count of rows,
   * so correct answers never exceed answers.
   */
  lemma GameScoreboardTallies(scores: seq<ScoreRow>, players: seq<Player>, gameId: string)
    ensures var rows := GameRows(scores, gameId);
      var b := GameScoreboard(scores, players, gameId);
      && (forall i :: 0 <= i < |b| ==> TallyOf(rows, players, b[i].item))
      && (forall i :: 0 <= i < |b| ==> b[i].item.correctAnswers <= b[i].item.totalAnswers)
  {
    var rows := GameRows(scores, gameId);
    var acc := Accumulate(rows, players);
    var sorted := SortDesc(acc, TotalPointsKey);
    var b := GameScoreboard(scores, players, gameId);
    assert Items(b) == sorted;
    AccumulateTallies(rows, players);
    SortDescFacts(acc, TotalPointsKey);
    forall i | 0 <= i < |b| ensures TallyOf(rows, players, b[i].item) {
      assert sorted[i] in multiset(acc);
      assert sorted[i] in acc;
    }
  }

  /**
   * The entries' points add up to the points of all the game's rows and their answer counts
   * to the number of rows; a game without rows has an empty scoreboard.
   */
  lemma GameScoreboardSums(scores: seq<ScoreRow>, players: seq<Player>, gameId: string)
    ensures var rows := GameRows(scores, gameId);
      var b := GameScoreboard(scores, players, gameId);
      && SumOf(Items(b), TotalPointsKey) == SumPoints(rows)
      && SumOf(Items(b), TotalAnswersKey) == |rows|
      && (|b| == 0 <==> rows == [])
  {
    var rows := GameRows(scores, gameId);
    var acc := Accumulate(rows, players);
    var b := GameScoreboard(scores, players, gameId);
    assert Items(b) == SortDesc(acc, TotalPointsKey);
    AccumulateSums(rows, players);
    SortDescFacts(acc, TotalPointsKey);
    SumOfSortDesc(acc, TotalPointsKey, TotalPointsKey);
    SumOfSortDesc(acc, TotalPointsKey, TotalAnswersKey);
    if rows != [] {
      AccumulatePlayers(rows, players);
      FirstIndexAtMost(rows, rows[0].playerId, 0);
      assert IndexOfPlayer(acc, rows[0].playerId) < |acc|;
    }
  }

  // ---------------------------------------------------------------------------
  // The dictionary the source fills in place

  /**
   * A dictionary `board` with key insertion order `keys` holds the tallies `acc`: its values,
   * read in key order, are `acc`.
   */
  ghost predicate Mirrors(keys: seq<string>, board: map<string, Tally>, acc: seq<Tally>) {
    && |keys| == |acc|
    && (forall k :: 0 <= k < |keys| ==> keys[k] in board && board[keys[k]] == acc[k] && acc[k].playerId == keys[k])
    && (forall p :: p in board ==> p in keys)
    && (forall k, l :: 0 <= k < l < |keys| ==> keys[k] != keys[l])
  }

  /** A step on a key already present updates that entry in place. */
  lemma MirrorStepPresent(keys: seq<string>, board: map<string, Tally>, acc: seq<Tally>, r: ScoreRow, players: seq<Player>)
    requires Mirrors(keys, board, acc)
    requires r.playerId in board
    ensures Mirrors(keys, board[r.playerId := Bump(board[r.playerId], r)], AddRow(acc, r, players))
  {
    var p := r.playerId;
    var k := IndexOfPlayer(acc, p);
    var m :| 0 <= m < |keys| && keys[m] == p;
    assert acc[m].playerId == p;
    assert k == m;
    assert AddRow(acc, r, players) == acc[m := Bump(acc[m], r)];
  }

  /** A step on a new key appends an entry holding only that row. */
  lemma MirrorStepAbsent(keys: seq<string>, board: map<string, Tally>, acc: seq<Tally>, r: ScoreRow, players: seq<Player>)
    requires Mirrors(keys, board, acc)
    requires r.playerId !in board
    ensures Mirrors(keys + [r.playerId], board[r.playerId := Bump(NewTally(r, players), r)], AddRow(acc, r, players))
  {
    var p := r.playerId;
    var k := IndexOfPlayer(acc, p);
    assert k == |acc|;
    assert AddRow(acc, r, players) == acc + [Bump(NewTally(r, players), r)];
    var keys1 := keys + [p];
    forall a, b | 0 <= a < b < |keys1| ensures keys1[a] != keys1[b] {
      if b == |keys| {
        assert keys1[a] == keys[a] && keys[a] in board;
      }
    }
  }

  /** The values of a dictionary, in key order. */
  function ValuesInOrder(keys: seq<string>, board: map<string, Tally>): seq<Tally>
    requires forall k :: 0 <= k < |keys| ==> keys[k] in board
  {
    seq(|keys|, k requires 0 <= k < |keys| && keys[k] in board => board[keys[k]])
  }

  lemma MirrorsValues(keys: seq<string>, board: map<string, Tally>, acc: seq<Tally>)
    requires Mirrors(keys, board, acc)
    ensures ValuesInOrder(keys, board) == acc
  {
  }
}
