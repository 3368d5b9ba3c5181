# Quiz game scoring, ranking and lifecycle — a Dafny model

This project models the core of a real-time quiz game backed by a hosted database:

- how an answer is judged and scored (`utils/gameLogic.ts`, and the copies of the points rule in
  `utils/database.ts` and the `verify-answer` server function);
- how score rows are folded into a live scoreboard and ranked (`getGameScoreboard`);
- how the `finalize-game` server function totals, ranks and writes the final results, then marks
  the game finished;
- the `verify-answer` server function, from its required-field check to the player's new total;
- the two client hooks: `useGameSync`, which keeps a snapshot of a game up to date from three
  change feeds and starts a pending game once eight players have joined, and `usePlayerState`,
  which signs a player in by username, creating the player only when the name is new.

The backing store is a `Database.Store` object holding the four tables (`players`, `games`,
`scores`, `game_participants`) as sequences and a map. Every store call is one atomic step. A
store failure is a boolean input. Generated ids and clock readings are inputs too.

Modules:

| module | file | models |
|---|---|---|
| `Common` | common.dfy | `Option` and `Result` |
| `Text` | text.dfy | ASCII `trim`/`toLowerCase`, decimal rendering of numbers, `padStart(2, "0")` |
| `Types` | types.dfy | the table rows and derived records |
| `Ranking` | ranking.dfy | a stable sort by a descending integer key, the behaviour of JavaScript's `sort` with `(a, b) => b.k - a.k` |
| `GameLogic` | game_logic.dfy | `utils/gameLogic.ts`: the points rule, validation, ranks, formatting, start rules |
| `Scoreboard` | scoreboard.dfy | the fold of `getGameScoreboard` as a function, and what it computes |
| `Database` | database.dfy | the store wrappers of `utils/database.ts` |
| `AnswerRecorder` | answer_recorder.dfy | `recordPlayerAnswer` |
| `FinalizeGame` | finalize_game.dfy | `supabase/functions/finalize-game/index.ts` |
| `VerifyAnswer` | verify_answer.dfy | `supabase/functions/verify-answer/index.ts` |
| `GameSync` | game_sync.dfy | `src/hooks/useGameSync.ts` |
| `PlayerState` | player_state.dfy | `src/hooks/usePlayerState.ts` |

The points rule is written once, as `GameLogic.Points(isCorrect, responseTimeMs, thresholdMs)`,
and each call site fixes its threshold. `calculatePoints` uses 20000 ms. `recordScore` and
`verify-answer` use 10000 ms.

The two dictionaries the source fills in place are modelled by loops over a Dafny `map` plus the
key insertion order: `getGameScoreboard` in `Database.Store.GetGameScoreboard`, and
finalization's `playerScores` in `FinalizeGame.TotalScores`. Each loop is proved equal to a
recursive specification function (`Scoreboard.Accumulate`, `FinalizeGame.Totals`), and the
properties are proved about those functions.

Two behaviours of the code that a reader might not expect, both kept in the model:

- `finalize-game` with the id of a game that does not exist ends with status 200
  (supabase/functions/finalize-game/index.ts:91-105): its final update matches no row, and the
  store does not report an update that matches nothing as an error (`FinalizeGame.Finalize`).
- `updateGameStatus` writes any status without reading the current one
  (utils/database.ts:86-99), so a finished game can be set back to pending
  (`Database.StatusCanRegress`).

## Model

| member | source | states |
|---|---|---|
| `GameLogic.Points` | utils/gameLogic.ts:10-42 | an incorrect answer earns base -25 and bonus 0; a correct one base 100; the bonus is 30 exactly when the answer is correct and faster than the threshold, otherwise 0; total = base + bonus, so it is -25, 100 or 130 |
| `GameLogic.CalculatePoints` | utils/gameLogic.ts:20-42 | base 100 or -25, bonus 30 exactly for a correct answer under 20000 ms, total their sum |
| `GameLogic.ThresholdsDisagree` | utils/gameLogic.ts:10-15 | two thresholds give different totals exactly for correct answers timed between them, and the larger one pays 30 more |
| `GameLogic.ValidateAnswer` | utils/gameLogic.ts:47-49 | trimmed, lower-cased equality; in particular two answers that differ only in letter case are accepted |
| `GameLogic.ValidateAnswerExact` | utils/gameLogic.ts:47-49 | on answers already trimmed and lower-cased, an answer is accepted exactly when it equals the correct one, so a different answer is rejected |
| `GameLogic.ValidateAnswerLength` | utils/gameLogic.ts:47-49 | an accepted answer has the trimmed length of the correct one; answers of other trimmed length are rejected |
| `GameLogic.ValidateAnswerInsensitive` | utils/gameLogic.ts:47-49 | validation is symmetric and is unchanged by surrounding whitespace or letter case of either argument |
| `GameLogic.CalculateRankings` | utils/gameLogic.ts:102-107 | same length, each record kept at its position, and element i gets rank i + 1 |
| `GameLogic.RanksArePositions` | utils/gameLogic.ts:102-107 | the ranks are strictly increasing, and a rank k occurs exactly when 1 <= k <= n |
| `GameLogic.TruncRem` | utils/gameLogic.ts:114 | JavaScript `%` by a positive divisor: Dafny's remainder for a non-negative dividend; for a negative one a result in (-d, 0] that differs from the dividend by a multiple of d, which fixes it as the truncated remainder |
| `GameLogic.FormatTime` | utils/gameLogic.ts:112-116 | minutes, a colon and the seconds padded to two characters; its reading back is stated by `FormatTimeReadsBack` |
| `GameLogic.FormatTimeReadsBack` | utils/gameLogic.ts:112-116 | for seconds >= 0 the text is minutes, ':' and exactly two digits; they read back as seconds div 60 and seconds mod 60, and together as the seconds |
| `GameLogic.FormatDuration` | utils/gameLogic.ts:121-129 | "Ns" below a minute, "Mm Ss" otherwise; its reading back is stated by `FormatDurationReadsBack` |
| `GameLogic.FormatDurationReadsBack` | utils/gameLogic.ts:121-129 | the text ends in "s"; a negative count of whole seconds (floor of ms / 1000) is "-" and its digits; below a minute the text is the whole seconds followed by "s"; otherwise it is "Mm Ss" with S < 60 and M*60 + S the whole seconds |
| `GameLogic.CanStartGame` | utils/gameLogic.ts:141-143 | at least `minPlayers` participants; its properties are stated by `StartRules` |
| `GameLogic.IsAcceptingParticipants` | utils/gameLogic.ts:148-150 | the status is pending; its properties are stated by `StartRules` |
| `GameLogic.StartRules` | utils/gameLogic.ts:141-150 | by default two participants suffice; a newcomer never makes a startable game unstartable; only a pending game accepts participants |
| `AnswerRecorder.RecordPlayerAnswer` | utils/gameLogic.ts:54-80 | as written: the stored row passes through the id, game, player, question, answer text, judgement and time and carries the 10000 ms points, while the report carries `calculatePoints` (20000 ms); a store failure stores nothing |
| `AnswerRecorder.ReportedVersusStored` | utils/gameLogic.ts:61-77 | reported and stored points differ exactly for correct answers timed in [10000, 20000), by 30 |
| `AnswerRecorder.FifteenSecondsExample` | utils/database.ts:159-160 | a correct answer after 15000 ms is reported as 130 and stored as 100 |
| `AnswerRecorder.RecordPlayerAnswerConsistent` | utils/gameLogic.ts:54-80 | corrected: the same stored row, and the reported points and the whole breakdown (base, bonus, total) are those of the 10000 ms rule that scored that row |
| `Database.RecordScorePoints` | utils/database.ts:159-160 | 130 for a correct answer under 10000 ms, 100 for a slower correct one, -25 for an incorrect one |
| `Database.Store.RecordScore` | utils/database.ts:151-177 | appends exactly one row carrying the answer and the 10000 ms points and returns it; on a store failure nothing is appended |
| `Database.Store.GetPlayerScore` | utils/database.ts:179-190 | returns the player's rows in the game and their sum of points, which equals that player's scoreboard total and answer count |
| `Database.Store.GetGameScoreboard` | utils/database.ts:192-220 | the dictionary-filling loop yields exactly `Scoreboard.GameScoreboard`; a store failure gives an error |
| `Scoreboard.MirrorStepPresent` | utils/database.ts:201-215 | updating an existing dictionary entry is one fold step on the entries |
| `Scoreboard.MirrorStepAbsent` | utils/database.ts:201-215 | creating an entry and adding the row is one fold step that appends an entry |
| `Scoreboard.Accumulate` | utils/database.ts:200-215 | the dictionary's values after folding every row, at most one entry per row; its properties are the `Accumulate*` lemmas |
| `Scoreboard.GameScoreboard` | utils/database.ts:192-219 | the fold sorted by points and ranked: at most one entry per row and entry i ranked i + 1 |
| `Scoreboard.AccumulatePlayers` | utils/database.ts:200-215 | the entries are exactly the players with rows, each once, in order of their first rows |
| `Scoreboard.AccumulateTallies` | utils/database.ts:200-215 | each entry holds its player's sum of points, correct count and row count, and the joined username and avatar |
| `Scoreboard.AccumulateSums` | utils/database.ts:200-215 | the entries' points add up to the rows' points and their answer counts to the number of rows |
| `Scoreboard.GameScoreboardOrder` | utils/database.ts:217-219 | ranks are 1..n in output order, points never increase, and tied players keep the order of their first rows |
| `Scoreboard.GameScoreboardDistinct` | utils/database.ts:200-219 | no player has two entries |
| `Scoreboard.GameScoreboardPresent` | utils/database.ts:192-219 | every entry belongs to a player with rows in the game |
| `Scoreboard.GameScoreboardComplete` | utils/database.ts:192-219 | every player with rows in the game has an entry |
| `Scoreboard.GameScoreboardTallies` | utils/database.ts:200-215 | each entry's counters are its player's sum of points, correct count and row count, so correct answers never exceed answers |
| `Scoreboard.GameScoreboardSums` | utils/database.ts:200-219 | totals add up to all the game's points and answers add up to its rows; the scoreboard is empty exactly when the game has no rows |
| `Ranking.SortDescFacts` | utils/database.ts:218 | the sort keeps length and contents (a permutation), orders keys non-increasingly, and keeps the relative order of equal keys |
| `Ranking.SortDescKeepsTieOrder` | utils/database.ts:218 | elements with equal keys stay in their input order |
| `Ranking.SortDescKeepsDistinct` | utils/database.ts:218 | sorting never introduces two elements with the same id |
| `Database.WithStatus` | utils/database.ts:86-99 | the status is replaced; becoming active sets the start stamp to now and becoming finished sets the end stamp to now; no other status touches a stamp; id and title are kept |
| `Database.LifecycleStamps` | utils/database.ts:86-99 | starting then finishing a pending game leaves both stamps |
| `Database.StatusCanRegress` | utils/database.ts:86-95 | a finished game can be written back to pending and keeps its end stamp |
| `Database.WithStatusIdempotent` | utils/database.ts:86-99 | writing the same status at the same instant twice is writing it once |
| `Database.Store.UpdateGameStatus` | utils/database.ts:86-99 | the matching game becomes `WithStatus` of itself and nothing else changes; no match returns nothing; a store failure changes nothing |
| `Database.Store.constructor` | utils/database.ts:1 | a store over the given tables, with unique usernames and ids and games keyed by id |
| `Database.Store.GetPlayerByUsername` | utils/database.ts:26-35 | the player with that name, or nothing when no row matches; any other store error is passed on |
| `Database.Store.CreatePlayer` | utils/database.ts:5-13 | appends one row with the new id and returns it; a taken username or a store failure appends nothing |
| `Database.Store.UpdatePlayer` | utils/database.ts:37-46 | with no store failure: no row with that id returns nothing and changes nothing; otherwise the patch succeeds exactly when no other player holds the patched name, and then that row, and only that row, becomes the patched player, which is returned |
| `Database.Store.GetGame` | utils/database.ts:66-75 | succeeds exactly when the store does not fail and the game exists, and then returns that game |
| `Database.Store.GetGameParticipants` | utils/database.ts:234-243 | a permutation of the game's participant rows, in final-score order with nulls last |
| `Database.ScoreOrder` | utils/database.ts:234-243 | scored rows sorted by final score, then unscored rows; the result has exactly the rows of the input |
| `Database.ScoreOrderNullsLast` | utils/database.ts:239 | scored rows come first by non-increasing final score, unscored rows last |
| `Database.Store.UpdateParticipantFinalScore` | utils/database.ts:245-260 | writes score and rank to exactly the rows of that (game, player) pair and returns the first of them |
| `FinalizeGame.TotalScores` | supabase/functions/finalize-game/index.ts:43-49 | the in-place dictionary loop, including its reset of a zero total, yields exactly `Totals` |
| `FinalizeGame.AddScore` | supabase/functions/finalize-game/index.ts:44-49 | one step of the dictionary loop, including the reset of a zero total, keeps the dictionary equal to the fold of the rows seen so far |
| `FinalizeGame.Totals` | supabase/functions/finalize-game/index.ts:43-56 | the dictionary's entries in insertion order, at most one per row; its properties are stated by `TotalsFacts` |
| `FinalizeGame.FinalRankings` | supabase/functions/finalize-game/index.ts:52-61 | one ranked entry per total, entry i ranked i + 1 |
| `FinalizeGame.TotalsFacts` | supabase/functions/finalize-game/index.ts:43-49 | one total per player with rows, each the sum of that player's points, no player twice, in first-row order |
| `FinalizeGame.FinalRankingsOrder` | supabase/functions/finalize-game/index.ts:52-61 | ranks are 1..n in output order, so they are distinct even for equal scores; scores never increase; ties keep first-row order |
| `FinalizeGame.FinalRankingsTotals` | supabase/functions/finalize-game/index.ts:43-61 | no player is ranked twice, every ranked player has rows, and each score is that player's sum of points |
| `FinalizeGame.FinalRankingsComplete` | supabase/functions/finalize-game/index.ts:43-61 | every player with rows in the game is ranked |
| `FinalizeGame.TiedScoresExample` | supabase/functions/finalize-game/index.ts:52-61 | totals 130, 130 and 50 get ranks 1, 2 and 3, the tie in row order |
| `FinalizeGame.ApplyFinalsKeeps` | supabase/functions/finalize-game/index.ts:64-73 | rows of other games, or of players nobody ranked, are not written |
| `FinalizeGame.ApplyFinalsWrites` | supabase/functions/finalize-game/index.ts:64-73 | the row of a ranked player ends with that player's score and rank, unless that player's update failed |
| `FinalizeGame.UnscoredParticipantsUntouched` | supabase/functions/finalize-game/index.ts:64-73 | participants without rows in the game keep their row |
| `FinalizeGame.RankedParticipantWritten` | supabase/functions/finalize-game/index.ts:64-73 | the participant ranked j gets its sum of points and rank j + 1 |
| `FinalizeGame.FirstFailing` | supabase/functions/finalize-game/index.ts:78 | the first ranked player whose update failed: every earlier one succeeded |
| `FinalizeGame.WriteFinals` | supabase/functions/finalize-game/index.ts:64-88 | every update is issued; successful ones are written whatever the others do; the first failure in ranking order is reported |
| `FinalizeGame.Finalize` | supabase/functions/finalize-game/index.ts:16-120 | a missing id gives 400 and a failed score fetch 500, both with no write; a failed update gives 500 naming the first failing player, with the game untouched; otherwise the game is marked finished with an end stamp, and the response carries exactly the rankings |
| `FinalizeGame.StatusCode` | supabase/functions/finalize-game/index.ts:16-120 | 400 exactly for a missing id, 200 exactly for a finalized game, 500 otherwise |
| `VerifyAnswer.ScoreAnswer` | supabase/functions/verify-answer/index.ts:36-47 | correctness is trimmed, case-insensitive equality; base 100 or -25; bonus 30 exactly for a correct answer under 10000 ms; points = base + bonus |
| `VerifyAnswer.NewRowCounted` | supabase/functions/verify-answer/index.ts:72-89 | after the insert, the player's total in the game is the earlier total plus the new row's points |
| `VerifyAnswer.OtherRowNotCounted` | supabase/functions/verify-answer/index.ts:72-89 | a row of another game or player leaves the player's total unchanged |
| `VerifyAnswer.Handle` | supabase/functions/verify-answer/index.ts:13-109 | a missing field gives 400 and no insert; an insert failure gives 500 and no row; otherwise exactly one row is stored with the returned points, and the response carries the breakdown and the player's total including that row |
| `VerifyAnswer.StatusCode` | supabase/functions/verify-answer/index.ts:23-109 | 400 exactly for missing fields, 200 exactly for a verified answer |
| `VerifyAnswer.HasRequiredFields` | supabase/functions/verify-answer/index.ts:23 | every required field is present and non-empty; `Handle` answers 400 exactly when it fails |
| `GameSync.AutoStart` | src/hooks/useGameSync.ts:93-98 | starts exactly when the count is 8 and the game is pending, and then the game also accepts participants |
| `GameSync.AfterParticipantsEvent` | src/hooks/useGameSync.ts:92-104 | at 8 participants a pending game becomes active with its start stamp set to now, keeping id, title and end stamp; otherwise the game is unchanged |
| `GameSync.AutoStartIdempotent` | src/hooks/useGameSync.ts:93-104 | applying the rule again, at any later instant, changes nothing |
| `GameSync.AutoStartOnlyForward` | src/hooks/useGameSync.ts:93-104 | active and finished games are never moved; a pending game can only become active |
| `GameSync.AutoStartWithinStartRules` | src/hooks/useGameSync.ts:94 | a game the rule starts also passes `canStartGame` and `isAcceptingParticipants`; seven players pass `canStartGame` but do not trigger the rule |
| `GameSync.Synchronizer.constructor` | src/hooks/useGameSync.ts:16-23 | no game, no participants, an empty scoreboard, loading, no error, no subscriptions |
| `GameSync.Synchronizer.InitializeGame` | src/hooks/useGameSync.ts:28-54 | with no id or an empty one nothing changes; otherwise loading ends; success sets game, participants and scoreboard and clears the error; any failure sets only the error |
| `GameSync.Synchronizer.Mount` | src/hooks/useGameSync.ts:57-114 | with no id or an empty one nothing is fetched or subscribed; otherwise the game is loaded and the three feeds are subscribed |
| `GameSync.Synchronizer.OnGameChange` | src/hooks/useGameSync.ts:63-68 | replaces only the game |
| `GameSync.Synchronizer.OnScoreInserted` | src/hooks/useGameSync.ts:71-81 | replaces only the scoreboard with the store's current one; a failed reload changes nothing |
| `GameSync.Synchronizer.OnParticipantsChanged` | src/hooks/useGameSync.ts:84-108 | replaces only the participants; the stored game moves to active exactly when the rule fires and every call succeeds; a failed reload changes nothing |
| `GameSync.Synchronizer.Cleanup` | src/hooks/useGameSync.ts:117-122 | every subscription is released once, in order, and the list is emptied |
| `PlayerState.Session.constructor` | src/hooks/usePlayerState.ts:6-17 | a stored non-empty id becomes an id-only player; not loading, no error |
| `PlayerState.Session.JoinGame` | src/hooks/usePlayerState.ts:20-44 | an existing name returns that player and creates nothing; a new name creates exactly one player; success signs the player in and stores its id; failure records the error and leaves the player and stored id; loading ends either way |
| `PlayerState.JoinTwice` | src/hooks/usePlayerState.ts:20-44 | joining twice with one name gives the same player and adds at most one row |
| `PlayerState.Session.UpdatePlayerProfile` | src/hooks/usePlayerState.ts:47-65 | with nobody signed in it fails with "No player logged in" and touches nothing; otherwise the signed-in player's row, and only that row, becomes the patched player, which is returned and signed in; with no store failure it succeeds exactly when no other player holds the patched name; a failure records the error and keeps the player |
| `PlayerState.Session.Logout` | src/hooks/usePlayerState.ts:68-71 | signs out and forgets the stored id |

## Left out

- Text: `trim` and `toLowerCase` are modelled on ASCII only. Unicode whitespace and case mapping are not modelled.
- `getFormattedScore` (utils/gameLogic.ts:85-97) is not modelled. Its accuracy is a floating-point percentage rounded by `Math.round`. Its totals are those of `Database.Store.GetPlayerScore`.
- `getQuestionProgress` (utils/gameLogic.ts:134-136) is not modelled. It is display text only.
- These store wrappers are not part of this model: `getPlayer`, `createGame`, `getAllGames`, the question wrappers, `addGameParticipant` and the `subscribe*` / `unsubscribeFromChannel` channel functions. The model starts from given tables, and the change feeds are the `GameSync.Synchronizer.On*` methods.
- The query at utils/database.ts:195 selects only `player_id` and the joined player. Its rows therefore carry no `points_earned` or `is_correct`, so the code as written adds `undefined` and yields `NaN` totals. This is a known defect and is not modelled: the model folds full score rows, as the fold at lines 200-215 intends.
- `countGameParticipants` (src/hooks/useGameSync.ts:11, 93) is not exported by utils/database.ts. The participant count is an input of `OnParticipantsChanged`.
- `OPTIONS` pre-flight requests, CORS headers, JSON body parsing and the catch-all 500 responses of both server functions are not modelled. A missing `gameId` is the empty string. A missing `responseTimeMs` in `verify-answer` is not modelled: the time is an integer.
- All store errors carry one message, `Common.StoreFailure`. Error texts from the store and "Failed to load game" are not distinguished.
- Concurrency is not modelled. `Promise.all` in `initializeGame` and in finalization is sequential here. `initializeGame` is not awaited before subscribing; in the model it completes first. The check-then-act race of the auto-start is one atomic handler. Every handler is one step.
- JavaScript orders integer-like object keys numerically before other keys. The model keeps insertion order, which is the order for the UUID player ids the store generates.
- Store ids are fresh: `CreatePlayer` and `JoinGame` take a store-generated id that no player has.
- The store returns rows in insertion order. Ties in `order("final_score")` are kept in table order, although the database promises no particular order.
- `getGameParticipants` joins each row with its player's `username` and `avatar_url` (utils/database.ts:237). The model's participant rows carry no player fields; only the filter and the order are modelled.
- `useGameSync` treats an empty `gameId` like a missing one (src/hooks/useGameSync.ts:29, 58). The model does the same through `GameSync.NoGame`; the change-feed handlers exist only once a non-empty id has subscribed.
- `formatTime` and `formatDuration` take JavaScript numbers, which may be fractional, infinite or NaN. The model takes integers: `formatTime` of whole seconds and `formatDuration` of whole milliseconds.
- A change of `gameId` re-running the `useGameSync` effect (src/hooks/useGameSync.ts:57-114) is not modelled: a `GameSync.Synchronizer` is bound to one id for its life. So the model does not capture the previous game's snapshot staying visible while the new one loads, nor a failed load leaving the previous game's data next to the error.
- `currentQuestion` in the `useGameSync` snapshot is never assigned by the hook and is not modelled.
- `updatePlayer` with a field explicitly set to `null` is not modelled: a `ProfilePatch` field is either absent or a new value.
- `GameSync.Synchronizer.Mount`: its contract states the subscriptions and the end of loading only. What the load itself does is stated by `InitializeGame`, which it calls.
- `Database.Store.GetPlayerByUsername`: the store's unique username column means at most one row matches. So the "several rows" case of `.single()`, which also yields nothing, cannot arise in the model.

## Findings

| source | as written | input that shows it | evidently intended | confidence | as-written member | corrected member |
|---|---|---|---|---|---|---|
| utils/gameLogic.ts:62-77 | `recordPlayerAnswer` reports `calculatePoints` (bonus below 20000 ms) but stores the row `recordScore` scores (bonus below 10000 ms) | a correct answer with `responseTimeMs = 15000`: reported 130, stored 100 | the points reported to the player are the points stored for the answer (the header comment at utils/gameLogic.ts:7 also says 10 seconds) | not executed; follows from the two constants | `AnswerRecorder.ReportedVersusStored` | `AnswerRecorder.RecordPlayerAnswerConsistent` |
