/** Starting and joining a game from the dashboard. Both flows first make
    sure the signed-in user has a profile row, then insert rows step by
    step and stop at the first error, showing a message. The store hands
    out the new game's id and short code, which are parameters here. */
module DashboardActions {
  import opened Common
  import opened Schema
  import Server

  /** The signed-in user. The metadata fields are `None` when absent or not strings. */
  datatype AuthUser = AuthUser(id: UserId, email: Option<string>,
                               metadataDisplayName: Option<string>, metadataFullName: Option<string>)

  /** A thrown store error: its message, and whether it is an `Error` instance
      (the start flow shows the message only then). */
  datatype StoreFailure = StoreFailure(message: string, isErrorInstance: bool)

  /** What the dashboard does at the end of a flow. */
  datatype FlowResult = NavigateToGame(game: GameId) | ShowError(message: string)

  /** `email.split("@")[0]`: the part of the address before its first `@`. */
  function LocalPart(email: string): (r: string)
    ensures r <= email
    ensures '@' !in r
    ensures |r| < |email| ==> email[|r|] == '@'
  {
    if email == [] || email[0] == '@' then [] else [email[0]] + LocalPart(email[1..])
  }

  /** The display name a new profile gets: metadata `display_name`, else `full_name`,
      else the e-mail's local part, else null. Empty strings count as absent, except
      the local part, which is used even when empty. */
  function ProfileName(u: AuthUser): (r: Option<string>)
    ensures Truthy(u.metadataDisplayName) ==> r == u.metadataDisplayName
    ensures !Truthy(u.metadataDisplayName) && Truthy(u.metadataFullName) ==> r == u.metadataFullName
    ensures !Truthy(u.metadataDisplayName) && !Truthy(u.metadataFullName) ==>
              r == if Truthy(u.email) then Some(LocalPart(u.email.value)) else None
  {
    var fallback := if Truthy(u.email) then Some(LocalPart(u.email.value)) else None;
    OrElse(u.metadataDisplayName, OrElse(u.metadataFullName, fallback))
  }

  /** The entered game code, trimmed and lower-cased. */
  function NormalizeCode(raw: string): (code: string)
    ensures code == [] <==> forall i :: 0 <= i < |raw| ==> IsSpace(raw[i])
    ensures forall i :: 0 <= i < |code| ==> !('A' <= code[i] <= 'Z')
  {
    TrimEmpty(raw);
    ToLower(Trim(raw))
  }

  /** A trimmed string begins and ends with a non-space character. */
  lemma TrimEnds(s: string)
    ensures var t := Trim(s); t == [] || (!IsSpace(t[0]) && !IsSpace(t[|t| - 1]))
  {
    var t0 := TrimStart(s);
    var t := TrimEnd(t0);
    if t != [] {
      assert t[0] == t0[0];
    }
  }

  /** Lower-casing neither creates nor removes white space, and is idempotent. */
  lemma ToLowerFacts(s: string)
    ensures s == [] || (IsSpace(ToLower(s)[0]) <==> IsSpace(s[0]))
    ensures s == [] || (IsSpace(ToLower(s)[|s| - 1]) <==> IsSpace(s[|s| - 1]))
    ensures ToLower(ToLower(s)) == ToLower(s)
  {
  }

  /** Normalising a normalised code changes nothing, so a code can be entered in any case
      and with surrounding white space and still match the same game. */
  lemma NormalizeCodeIdempotent(raw: string)
    ensures NormalizeCode(NormalizeCode(raw)) == NormalizeCode(raw)
  {
    var t := Trim(raw);
    var code := ToLower(t);
    TrimEnds(raw);
    ToLowerFacts(t);
    assert Trim(code) == code by {
      assert TrimStart(code) == code;
    }
  }

  /** The games `select id from games where short_code = code and status = 'active'` finds. */
  function ActiveGamesWithCode(games: map<GameId, Game>, code: string): (ids: set<GameId>)
    ensures forall id :: id in ids <==> id in games && games[id].shortCode == code && games[id].status == Active
  {
    set id | id in games && games[id].shortCode == code && games[id].status == Active
  }

  /** The profiles after `ensureProfile`'s upsert with duplicates ignored: on success the user
      has a profile, an existing profile (the user's included) is never overwritten, and no
      other profile appears; on an error nothing changes. */
  function ProfilesAfter(profiles: map<UserId, ProfileRow>, u: AuthUser, upsertError: Option<StoreFailure>)
    : (r: map<UserId, ProfileRow>)
    ensures r.Keys == if upsertError.None? then profiles.Keys + {u.id} else profiles.Keys
    ensures forall id :: id in profiles ==> r[id] == profiles[id]
    ensures upsertError.None? && u.id !in profiles ==> r[u.id] == ProfileRow(u.email, ProfileName(u))
  {
    if upsertError.Some? || u.id in profiles then profiles
    else profiles[u.id := ProfileRow(u.email, ProfileName(u))]
  }

  /** `ensureProfile`: insert a profile for the user unless one exists (an existing one is left
      as it is); a store error is passed on. */
  method EnsureProfile(store: Server.Store, u: AuthUser, upsertError: Option<StoreFailure>)
    returns (err: Option<StoreFailure>)
    modifies store
    ensures err == upsertError
    ensures store.games == old(store.games) && store.players == old(store.players)
    ensures store.calls == old(store.calls)
    ensures store.profiles == ProfilesAfter(old(store.profiles), u, upsertError)
  {
    if upsertError.Some? {
      return upsertError;
    }
    if u.id !in store.profiles {
      store.profiles := store.profiles[u.id := ProfileRow(u.email, ProfileName(u))];
    }
    return None;
  }

  /** The message the start flow shows for a thrown store error: the error's own message when
      it is an `Error`, otherwise a fixed text. */
  function StartErrorMessage(f: StoreFailure): (msg: string)
    ensures f.isErrorInstance ==> msg == f.message
    ensures !f.isErrorInstance ==> msg == "Unable to start game"
  {
    if f.isErrorInstance then f.message else "Unable to start game"
  }

  /** The error the model reports when an insert would repeat an existing key. The store
      generates fresh game ids, so the code never meets a clashing game id, and its
      unique-key error would arrive as the insert's own failure. This constant only marks
      a case the model keeps so that its inserts never overwrite a row. */
  const DuplicateKey := StoreFailure("duplicate key value violates unique constraint", true)

  /** `handleStartGame`: a game hosted by the caller, then the caller's approved player row.
      The game row is inserted with the store's default status, active, and stays even
      if the player row cannot be inserted. */
  method StartGame(store: Server.Store, caller: Option<AuthUser>, upsertError: Option<StoreFailure>,
                   newGame: GameId, newCode: string,
                   gameInsertError: Option<StoreFailure>, playerInsertError: Option<StoreFailure>)
    returns (r: FlowResult)
    modifies store
    ensures caller.None? ==> r == ShowError("Not logged in") && unchanged(store)
    ensures store.calls == old(store.calls)
    ensures caller.Some? ==> store.profiles == ProfilesAfter(old(store.profiles), caller.value, upsertError)
    ensures caller.Some? && upsertError.Some? ==> r == ShowError(StartErrorMessage(upsertError.value))
    ensures caller.Some? && upsertError.None? && gameInsertError.Some? ==>
              r == ShowError(StartErrorMessage(gameInsertError.value))
    ensures caller.Some? && upsertError.None? && gameInsertError.None? && newGame in old(store.games) ==>
              r == ShowError(StartErrorMessage(DuplicateKey))
    ensures caller.Some? && upsertError.None? && gameInsertError.None? && newGame !in old(store.games) ==>
              && (playerInsertError.Some? ==> r == ShowError(StartErrorMessage(playerInsertError.value)))
              && (playerInsertError.None? && Key(newGame, caller.value.id) in old(store.players) ==>
                    r == ShowError(StartErrorMessage(DuplicateKey)))
              && (playerInsertError.None? && Key(newGame, caller.value.id) !in old(store.players) ==>
                    r == NavigateToGame(newGame))
    ensures r.NavigateToGame? ==>
              && caller.Some? && r.game == newGame && newGame !in old(store.games)
              && store.games == old(store.games)[newGame := Game(caller.value.id, Active, newCode, None)]
              && Key(newGame, caller.value.id) !in old(store.players)
              && store.players == old(store.players)[Key(newGame, caller.value.id) := PlayerRow(Approved, None, None, None, None)]
    ensures r.ShowError? ==> store.players == old(store.players)
    ensures r.ShowError? && caller.Some? && upsertError.None? && gameInsertError.None? && newGame !in old(store.games) ==>
              store.games == old(store.games)[newGame := Game(caller.value.id, Active, newCode, None)]
    ensures r.ShowError? && (upsertError.Some? || gameInsertError.Some? || newGame in old(store.games)) ==>
              store.games == old(store.games)
  {
    if caller.None? {
      return ShowError("Not logged in");
    }
    var u := caller.value;
    var err := EnsureProfile(store, u, upsertError);
    if err.Some? {
      return ShowError(StartErrorMessage(err.value));
    }
    if gameInsertError.Some? {
      return ShowError(StartErrorMessage(gameInsertError.value));
    }
    if newGame in store.games {
      return ShowError(StartErrorMessage(DuplicateKey));
    }
    store.games := store.games[newGame := Game(u.id, Active, newCode, None)];
    if playerInsertError.Some? {
      return ShowError(StartErrorMessage(playerInsertError.value));
    }
    var k := Key(newGame, u.id);
    if k in store.players {
      return ShowError(StartErrorMessage(DuplicateKey));
    }
    store.players := store.players[k := PlayerRow(Approved, None, None, None, None)];
    return NavigateToGame(newGame);
  }

  /** `handleJoinGame`: normalise the code, find the one active game with it, and insert a
      pending row for the caller; a second row for the same (game, user) is refused by the
      store's unique key (error 23505). */
  method JoinGame(store: Server.Store, joinCode: string, caller: Option<AuthUser>,
                  upsertError: Option<StoreFailure>, insertError: Option<string>)
    returns (r: FlowResult)
    modifies store
    ensures NormalizeCode(joinCode) == [] ==> r == ShowError("Enter a game ID") && unchanged(store)
    ensures NormalizeCode(joinCode) != [] && caller.None? ==> r == ShowError("Not logged in") && unchanged(store)
    ensures store.games == old(store.games) && store.calls == old(store.calls)
    ensures NormalizeCode(joinCode) != [] && caller.Some? ==>
              store.profiles == ProfilesAfter(old(store.profiles), caller.value, upsertError)
    ensures NormalizeCode(joinCode) != [] && caller.Some? && upsertError.Some? ==>
              r == ShowError("Something went wrong")
    ensures NormalizeCode(joinCode) != [] && caller.Some? && upsertError.None?
            && |ActiveGamesWithCode(old(store.games), NormalizeCode(joinCode))| != 1 ==>
              r == ShowError("Game not found or not active")
    ensures NormalizeCode(joinCode) != [] && caller.Some? && upsertError.None?
            && |ActiveGamesWithCode(old(store.games), NormalizeCode(joinCode))| == 1 ==>
              forall g :: g in ActiveGamesWithCode(old(store.games), NormalizeCode(joinCode)) ==>
              && (Key(g, caller.value.id) in old(store.players) ==> r == ShowError("You already joined this game"))
              && (Key(g, caller.value.id) !in old(store.players) && insertError.Some? ==> r == ShowError(insertError.value))
              && (Key(g, caller.value.id) !in old(store.players) && insertError.None? ==> r == NavigateToGame(g))
    ensures |ActiveGamesWithCode(old(store.games), NormalizeCode(joinCode))| != 1 ==>
              r.ShowError? && store.players == old(store.players)
    ensures r.NavigateToGame? ==>
              && caller.Some?
              && ActiveGamesWithCode(old(store.games), NormalizeCode(joinCode)) == {r.game}
              && Key(r.game, caller.value.id) !in old(store.players)
              && store.players == old(store.players)[Key(r.game, caller.value.id) := PlayerRow(Pending, None, None, None, None)]
    ensures r == ShowError("You already joined this game") ==> store.players == old(store.players)
    ensures r.ShowError? ==> store.players == old(store.players)
    ensures NormalizeCode(joinCode) != [] && caller.Some? && upsertError.None? && insertError.None?
            && |ActiveGamesWithCode(old(store.games), NormalizeCode(joinCode))| == 1 ==>
              (r.NavigateToGame? <==> forall id :: id in ActiveGamesWithCode(old(store.games), NormalizeCode(joinCode)) ==>
                                          Key(id, caller.value.id) !in old(store.players))
  {
    var code := NormalizeCode(joinCode);
    if code == [] {
      return ShowError("Enter a game ID");
    }
    if caller.None? {
      return ShowError("Not logged in");
    }
    var u := caller.value;
    var err := EnsureProfile(store, u, upsertError);
    if err.Some? {
      return ShowError("Something went wrong");
    }
    var found := ActiveGamesWithCode(store.games, code);
    if |found| != 1 {
      return ShowError("Game not found or not active");
    }
    var g :| g in found;
    assert found == {g} by {
      forall h | h in found ensures h == g {
        assert |found - {g}| == 0;
      }
    }
    var k := Key(g, u.id);
    if k in store.players {
      return ShowError("You already joined this game");
    }
    if insertError.Some? {
      return ShowError(insertError.value);
    }
    store.players := store.players[k := PlayerRow(Pending, None, None, None, None)];
    return NavigateToGame(g);
  }
}
