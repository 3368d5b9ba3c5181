/**
 * The `useGameSync` hook: a snapshot of one game kept up to date by three change feeds, with
 * the rule that starts a pending game once eight players have joined.
 */
module GameSync {
  import opened Common
  import opened Types
  import opened GameLogic
  import opened Scoreboard
  import opened Database

  /** The participant count at which a pending game starts by itself. */
  const AutoStartCount: int := 8

  /** The three change feeds the hook subscribes to. */
  datatype Channel = GameChannel | ScoresChannel | ParticipantsChannel

  /** The hook's state record. */
  datatype Snapshot = Snapshot(
    game: Option<Game>, participants: seq<Participant>, scoreboard: seq<Ranked<Tally>>,
    isLoading: bool, error: Option<string>)

  /** The auto-start rule: exactly eight participants and a game still pending. */
  function AutoStart(participantCount: int, status: Status): (start: bool)
    ensures start ==> IsAcceptingParticipants(status)
    ensures start <==> participantCount == AutoStartCount && status == Pending
  {
    participantCount == AutoStartCount && status == Pending
  }

  /** The game after a participants event has applied the auto-start rule. */
  function AfterParticipantsEvent(participantCount: int, g: Game, now: Timestamp): (h: Game)
    ensures h.id == g.id && h.title == g.title
    ensures participantCount == AutoStartCount && g.status == Pending ==>
      h.status == Active && h.startedAt == Some(now) && h.endedAt == g.endedAt
    ensures participantCount != AutoStartCount || g.status != Pending ==> h == g
  {
    if AutoStart(participantCount, g.status) then WithStatus(g, Active, now) else g
  }

  /**
   * Repeated triggers are no-ops: once the rule has fired (or declined), firing it again at
   * any later instant changes nothing.
   */
  lemma AutoStartIdempotent(participantCount: int, g: Game, now: Timestamp, later: Timestamp)
    ensures var h := AfterParticipantsEvent(participantCount, g, now);
      AfterParticipantsEvent(participantCount, h, later) == h
  {
  }

  /** Active and finished games are never moved; a pending one only ever becomes active. */
  lemma AutoStartOnlyForward(participantCount: int, g: Game, now: Timestamp)
    ensures g.status != Pending ==> AfterParticipantsEvent(participantCount, g, now) == g
    ensures AfterParticipantsEvent(participantCount, g, now).status in {g.status, Active}
  {
  }

  /**
   * A game the rule starts also satisfies `canStartGame` with the default minimum and
   * `isAcceptingParticipants`; the converse fails, as seven participants show.
   */
  lemma AutoStartWithinStartRules<T>(participants: seq<T>, status: Status)
    ensures AutoStart(|participants|, status) ==>
      CanStartGame(participants, DefaultMinPlayers) && IsAcceptingParticipants(status)
    ensures |participants| == 7 && status == Pending ==>
      CanStartGame(participants, DefaultMinPlayers) && !AutoStart(|participants|, status)
  {
  }

  /** `!gameId`: no id, or the empty string. */
  predicate NoGame(gameId: Option<string>) {
    gameId.None? || gameId.value == ""
  }

  /** The state of one mounted `useGameSync(gameId)`. */
  class Synchronizer {
    const gameId: Option<string>
    var game: Option<Game>
    var participants: seq<Participant>
    var scoreboard: seq<Ranked<Tally>>
    var isLoading: bool
    var error: Option<string>
    /** `subscriptionsRef.current`. */
    var subscriptions: seq<Channel>
    /** Every channel handed to `unsubscribeFromChannel`, in call order. */
    var released: seq<Channel>

    function State(): Snapshot
      reads this
    {
      Snapshot(game, participants, scoreboard, isLoading, error)
    }

    /** The first render: nothing loaded yet, loading, no error, no subscriptions. */
    constructor (id: Option<string>)
      ensures gameId == id
      ensures State() == Snapshot(None, [], [], true, None)
      ensures subscriptions == [] && released == []
    {
      gameId := id;
      game := None;
      participants := [];
      scoreboard := [];
      isLoading := true;
      error := None;
      subscriptions := [];
      released := [];
    }

    /**
     * `initializeGame`: fetches the game, its participants and its scoreboard; all three land
     * together, or, when any fetch fails (a missing game is a failure of `getGame`), only the
     * error does. Loading ends either way. With no game id, or an empty one, nothing happens.
     */
    method InitializeGame(store: Store, gameFails: bool, participantsFail: bool, scoreboardFails: bool)
      requires store.Valid()
      modifies this
      ensures subscriptions == old(subscriptions) && released == old(released)
      ensures NoGame(gameId) ==> State() == old(State())
      ensures !NoGame(gameId) ==> !isLoading
      ensures !NoGame(gameId) && !gameFails && gameId.value in store.games && !participantsFail && !scoreboardFails ==>
        State() == Snapshot(Some(store.games[gameId.value]),
                            ScoreOrder(ParticipantsOf(store.participants, gameId.value)),
                            GameScoreboard(store.scores, store.players, gameId.value), false, None)
      ensures !NoGame(gameId) && (gameFails || gameId.value !in store.games || participantsFail || scoreboardFails) ==>
        State() == old(State()).(isLoading := false, error := Some(StoreFailure))
    {
      if NoGame(gameId) {
        return;
      }
      var id := gameId.value;
      isLoading, error := true, None;
      var g := store.GetGame(id, gameFails);
      var ps := store.GetGameParticipants(id, participantsFail);
      var board := store.GetGameScoreboard(id, scoreboardFails);
      if g.Err? || ps.Err? || board.Err? {
        error := Some(StoreFailure);
        isLoading := false;
        return;
      }
      game, participants, scoreboard := Some(g.value), ps.value, board.value;
      isLoading := false;
    }

    /**
     * The effect of `useGameSync`: loads the game and subscribes to its three feeds; with no
     * game id (or an empty one) it does neither and the snapshot stays loading.
     */
    method Mount(store: Store, gameFails: bool, participantsFail: bool, scoreboardFails: bool)
      requires store.Valid()
      modifies this
      ensures released == old(released)
      ensures NoGame(gameId) ==> State() == old(State()) && subscriptions == old(subscriptions)
      ensures !NoGame(gameId) ==> subscriptions == [GameChannel, ScoresChannel, ParticipantsChannel] && !isLoading
    {
      if NoGame(gameId) {
        return;
      }
      InitializeGame(store, gameFails, participantsFail, scoreboardFails);
      subscriptions := [GameChannel, ScoresChannel, ParticipantsChannel];
    }

    /** A change on the game row replaces the snapshot's game and nothing else. */
    method OnGameChange(newRow: Game)
      modifies this
      ensures State() == old(State()).(game := Some(newRow))
      ensures subscriptions == old(subscriptions) && released == old(released)
    {
      game := Some(newRow);
    }

    /** A new score row reloads the scoreboard; a failed reload leaves the snapshot as it was. */
    method OnScoreInserted(store: Store, fails: bool)
      requires gameId.Some?
      modifies this
      ensures subscriptions == old(subscriptions) && released == old(released)
      ensures fails ==> State() == old(State())
      ensures !fails ==> State() == old(State()).(scoreboard := GameScoreboard(store.scores, store.players, gameId.value))
    {
      var board := store.GetGameScoreboard(gameId.value, fails);
      if board.Ok? {
        scoreboard := board.value;
      }
    }

    /**
     * A participants change reloads the participant list, then applies the auto-start rule to
     * the game as the store holds it. `participantCount` is the count the hook reads; a failed
     * reload stops the handler, and a failed game read or status write is only logged.
     */
    method OnParticipantsChanged(store: Store, participantsFail: bool, participantCount: int,
                                 gameFails: bool, statusFails: bool, now: Timestamp)
      requires gameId.Some? && store.Valid()
      modifies this, store
      ensures store.Valid()
      ensures subscriptions == old(subscriptions) && released == old(released)
      ensures store.players == old(store.players) && store.scores == old(store.scores)
      ensures store.participants == old(store.participants)
      ensures participantsFail ==> State() == old(State()) && store.games == old(store.games)
      ensures !participantsFail ==>
        State() == old(State()).(participants := ScoreOrder(ParticipantsOf(store.participants, gameId.value)))
      ensures var id := gameId.value;
        store.games == if !participantsFail && !gameFails && !statusFails && id in old(store.games)
                       then old(store.games)[id := AfterParticipantsEvent(participantCount, old(store.games)[id], now)]
                       else old(store.games)
    {
      var id := gameId.value;
      var ps := store.GetGameParticipants(id, participantsFail);
      if ps.Err? {
        return;
      }
      participants := ps.value;
      if participantCount == AutoStartCount {
        var current := store.GetGame(id, gameFails);
        if current.Ok? && current.value.status == Pending {
          var _ := store.UpdateGameStatus(id, Active, now, statusFails);
        }
      }
    }

    /** The effect's cleanup: every subscription is released once and the list is emptied. */
    method Cleanup()
      modifies this
      ensures State() == old(State())
      ensures released == old(released) + old(subscriptions)
      ensures subscriptions == []
    {
      var i := 0;
      while i < |subscriptions|
        invariant 0 <= i <= |subscriptions|
        invariant released == old(released) + subscriptions[..i]
        invariant subscriptions == old(subscriptions)
        invariant State() == old(State())
      {
        released := released + [subscriptions[i]];
        i := i + 1;
      }
      subscriptions := [];
    }
  }
}
