/**
 * The `usePlayerState` hook: the signed-in player, a loading flag, the last error and the
 * player id remembered by the browser (`localStorage["playerId"]`).
 */
module PlayerState {
  import opened Common
  import opened Types
  import opened Database

  /** Thrown by `updatePlayerProfile` when nobody is signed in. */
  const NoPlayerLoggedIn: string := "No player logged in"

  /**
   * The hook's `player`: a full record, or, right after a reload, only the remembered id.
   */
  datatype SessionPlayer = Loaded(record: Player) | IdOnly(id: string)

  function SessionId(p: SessionPlayer): string {
    match p
    case Loaded(record) => record.id
    case IdOnly(id) => id
  }

  class Session {
    var player: Option<SessionPlayer>
    var isLoading: bool
    var error: Option<string>
    /** The browser's stored `playerId`. */
    var storedPlayerId: Option<string>

    /**
     * The first render and its mount effect: a non-empty stored id becomes an id-only player.
     */
    constructor (stored: Option<string>)
      ensures storedPlayerId == stored
      ensures player == if stored.Some? && stored.value != "" then Some(IdOnly(stored.value)) else None
      ensures !isLoading && error == None
    {
      storedPlayerId := stored;
      isLoading := false;
      error := None;
      if stored.Some? && stored.value != "" {
        player := Some(IdOnly(stored.value));
      } else {
        player := None;
      }
    }

    /**
     * `joinGame`: the player named `username`, created (with the store-generated id `newId`)
     * only when no player has that name. On success the player is signed in and remembered;
     * on failure the error is recorded and passed on. Loading ends either way.
     */
    method JoinGame(store: Store, username: string, newId: string, lookupFails: bool, createFails: bool)
      returns (r: Result<Player>)
      requires store.Valid() && IndexOfId(store.players, newId) == |store.players|
      modifies this, store
      ensures store.Valid()
      ensures store.games == old(store.games) && store.scores == old(store.scores)
      ensures store.participants == old(store.participants)
      ensures !isLoading
      ensures var k := IndexOfName(old(store.players), username);
        !lookupFails && k < |old(store.players)| ==> r == Ok(old(store.players)[k]) && store.players == old(store.players)
      ensures var k := IndexOfName(old(store.players), username);
        !lookupFails && k == |old(store.players)| && !createFails ==>
          r == Ok(Player(newId, username, None, None)) && store.players == old(store.players) + [r.value]
      ensures lookupFails || (IndexOfName(old(store.players), username) == |old(store.players)| && createFails) ==>
        r.Err? && store.players == old(store.players)
      ensures r.Ok? ==> r.value.username == username && r.value in store.players
      ensures r.Ok? ==> player == Some(Loaded(r.value)) && storedPlayerId == Some(r.value.id) && error == None
      ensures r.Err? ==> player == old(player) && storedPlayerId == old(storedPlayerId) && error == Some(r.message)
    {
      isLoading := true;
      error := None;
      var existing := store.GetPlayerByUsername(username, lookupFails);
      if existing.Err? {
        error := Some(existing.message);
        isLoading := false;
        return Err(existing.message);
      }
      var found := existing.value;
      if found.None? {
        var created := store.CreatePlayer(username, None, None, newId, createFails);
        if created.Err? {
          error := Some(created.message);
          isLoading := false;
          return Err(created.message);
        }
        found := Some(created.value);
      }
      player := Some(Loaded(found.value));
      storedPlayerId := Some(found.value.id);
      isLoading := false;
      r := Ok(found.value);
    }

    /**
     * `updatePlayerProfile`: refuses, without touching anything, when nobody is signed in;
     * otherwise writes the patch to the signed-in player's row and signs in the row it gets
     * back (none, when the row has gone).
     */
    method UpdatePlayerProfile(store: Store, patch: ProfilePatch, fails: bool) returns (r: Result<Option<Player>>)
      requires store.Valid()
      modifies this, store
      ensures store.Valid()
      ensures store.games == old(store.games) && store.scores == old(store.scores)
      ensures store.participants == old(store.participants)
      ensures storedPlayerId == old(storedPlayerId)
      ensures old(player).None? || SessionId(old(player).value) == "" ==>
        r == Err(NoPlayerLoggedIn) && unchanged(this) && store.players == old(store.players)
      ensures old(player).Some? && SessionId(old(player).value) != "" ==>
        !isLoading
        && (fails ==> r.Err?)
        && (r.Ok? ==> error == old(error) && player == (if r.value.Some? then Some(Loaded(r.value.value)) else None))
        && (r.Ok? && r.value.Some? ==> r.value.value.id == SessionId(old(player).value))
        && (r.Err? ==> player == old(player) && error == Some(r.message) && store.players == old(store.players))
      ensures old(player).Some? && SessionId(old(player).value) != "" ==>
        var k := IndexOfId(old(store.players), SessionId(old(player).value));
        && (r.Ok? && r.value.Some? ==>
              k < |old(store.players)| && r.value.value == Patched(old(store.players)[k], patch)
              && store.players == old(store.players)[k := r.value.value])
        && (r.Ok? && r.value.None? ==> k == |old(store.players)| && store.players == old(store.players))
        && (!fails && PatchAllowed(old(store.players), SessionId(old(player).value), patch) ==> r.Ok?)
    {
      if player.None? || SessionId(player.value) == "" {
        return Err(NoPlayerLoggedIn);
      }
      isLoading := true;
      var updated := store.UpdatePlayer(SessionId(player.value), patch, fails);
      if updated.Err? {
        error := Some(updated.message);
        isLoading := false;
        return Err(updated.message);
      }
      player := if updated.value.Some? then Some(Loaded(updated.value.value)) else None;
      isLoading := false;
      r := updated;
    }

    /** `logout`: signs the player out and forgets the stored id. */
    method Logout()
      modifies this
      ensures player == None && storedPlayerId == None
      ensures isLoading == old(isLoading) && error == old(error)
    {
      player := None;
      storedPlayerId := None;
    }
  }

  /**
   * Joining twice with the same name, with no store failure, gives the same player and adds at
   * most one row.
   */
  method JoinTwice(session: Session, store: Store, username: string, id1: string, id2: string)
    returns (first: Result<Player>, second: Result<Player>)
    requires store.Valid()
    requires IndexOfId(store.players, id1) == |store.players| && IndexOfId(store.players, id2) == |store.players|
    requires id1 != id2
    modifies session, store
    ensures first.Ok? && second.Ok? && first.value == second.value
    ensures |store.players| <= |old(store.players)| + 1
    ensures session.player == Some(Loaded(first.value))
  {
    first := session.JoinGame(store, username, id1, false, false);
    assert IndexOfName(store.players, username) < |store.players|;
    second := session.JoinGame(store, username, id2, false, false);
    assert UniqueNames(store.players);
  }
}
