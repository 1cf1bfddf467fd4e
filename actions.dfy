/** The server actions on a game: end it, toggle its session status, kick
    a player, request to rejoin, update one's requested amounts, and hand
    the host role to another player. Each action is a function from the
    store before the call to its outcome and the store after it; the
    class `Server.Store` performs the same steps in place.

    What the environment decides is passed in: the authenticated caller
    (`None` when there is none), and whether each write or procedure call
    fails (`Some(message)` when it does). */
module Actions {
  import opened Common
  import opened Schema

  datatype ActionError =
    | NotAuthenticated
    | GameNotFound
    | NotHost
    | CannotKickSelf
    | NotAPlayer
    | AlreadyHost
    | NewHostNotApproved
    | StoreError(message: string)

  datatype Outcome = Done | Failed(error: ActionError)

  /** The check every host-only action runs first: a caller, an existing game, and the caller is its host. */
  function HostCheck(s: Db, caller: Option<UserId>, g: GameId): (r: Option<ActionError>)
    ensures r.None? <==> caller.Some? && g in s.games && s.games[g].hostId == caller.value
    ensures r == Some(NotAuthenticated) <==> caller.None?
    ensures r == Some(GameNotFound) <==> caller.Some? && g !in s.games
    ensures r == Some(NotHost) <==> caller.Some? && g in s.games && s.games[g].hostId != caller.value
  {
    if caller.None? then Some(NotAuthenticated)
    else if g !in s.games then Some(GameNotFound)
    else if s.games[g].hostId != caller.value then Some(NotHost)
    else None
  }

  /** `update games set status = st where id = g`: no row changes when g does not exist. */
  function WithStatus(games: map<GameId, Game>, g: GameId, st: GameStatus): (r: map<GameId, Game>)
    ensures r.Keys == games.Keys
    ensures g in games ==> r[g] == games[g].(status := st)
    ensures forall h :: h in games && h != g ==> r[h] == games[h]
  {
    if g in games then games[g := games[g].(status := st)] else games
  }

  /** The status `close_session` leaves the game in: the one it is given, or closed by default. */
  function FinalStatus(requested: Option<GameStatus>): GameStatus
  {
    if requested.Some? then requested.value else Closed
  }

  /** The `close_session` procedure. Its body is not part of this model: the call is
      logged, and on success the game's status becomes the final status, as the
      callers' comments say; the snapshot and profit tables it writes are not modelled. */
  function CloseSessionProcedure(s: Db, g: GameId, finalStatus: Option<GameStatus>, failure: Option<string>): (r: Db)
    ensures r.calls == s.calls + [CloseSession(g, finalStatus)]
    ensures r.players == s.players && r.profiles == s.profiles
    ensures failure.Some? ==> r.games == s.games
    ensures failure.None? ==> r.games == WithStatus(s.games, g, FinalStatus(finalStatus))
  {
    var logged := s.(calls := s.calls + [CloseSession(g, finalStatus)]);
    if failure.Some? then logged
    else logged.(games := WithStatus(s.games, g, FinalStatus(finalStatus)))
  }

  /** A player row with its four cash columns set to null. */
  function ClearedRow(row: PlayerRow): PlayerRow
  {
    row.(cashIn := None, cashOut := None, requestedCashIn := None, requestedCashOut := None)
  }

  /** `update game_players set cash_in = null, cash_out = null, requested_cash_in = null,
      requested_cash_out = null where game_id = g` */
  function ClearCash(players: map<Key, PlayerRow>, g: GameId): (r: map<Key, PlayerRow>)
    ensures r.Keys == players.Keys
    ensures forall k :: k in players && k.game == g ==>
              r[k].status == players[k].status && r[k].cashIn.None? && r[k].cashOut.None?
              && r[k].requestedCashIn.None? && r[k].requestedCashOut.None?
    ensures forall k :: k in players && k.game != g ==> r[k] == players[k]
  {
    map k | k in players :: if k.game == g then ClearedRow(players[k]) else players[k]
  }

  /** `closeGame`: no host check. It calls `close_session` with final status ended; if that
      fails it sets the status to ended directly; a failure of that write is only logged,
      so the action never reports an error. */
  function CloseGame(s: Db, g: GameId, procedureError: Option<string>, fallbackError: bool): (r: Db)
    ensures r.players == s.players && r.profiles == s.profiles
    ensures r.calls == s.calls + [CloseSession(g, Some(Ended))]
    ensures r.games.Keys == s.games.Keys
    ensures forall h :: h in s.games && h != g ==> r.games[h] == s.games[h]
    ensures procedureError.Some? && fallbackError ==> r.games == s.games
    ensures g in s.games && (procedureError.None? || !fallbackError) ==>
              r.games[g] == s.games[g].(status := Ended)
  {
    var afterCall := CloseSessionProcedure(s, g, Some(Ended), procedureError);
    if procedureError.Some? && !fallbackError then
      afterCall.(games := WithStatus(afterCall.games, g, Ended))
    else
      afterCall
  }

  /** `setGameStatus(g, status)` for status active or closed. Closing makes no direct write:
      it delegates to `close_session` and reports its error. Reopening sets the status and
      then nulls every amount of the game's rows; an error of that second write is ignored. */
  function SetGameStatus(s: Db, caller: Option<UserId>, g: GameId, status: GameStatus,
                         procedureError: Option<string>, updateError: Option<string>,
                         clearError: bool): (r: (Outcome, Db))
    requires status != Ended
    ensures HostCheck(s, caller, g).Some? ==> r == (Failed(HostCheck(s, caller, g).value), s)
    ensures r.1.profiles == s.profiles
    ensures status == Closed ==>
              && r.1.players == s.players
              && (r.0 == Done <==> HostCheck(s, caller, g).None? && procedureError.None?)
              && (HostCheck(s, caller, g).None? ==> r.1.calls == s.calls + [CloseSession(g, None)])
              && (r.0 == Done ==> r.1.games == s.games[g := s.games[g].(status := Closed)])
              && (r.0.Failed? ==> r.1.games == s.games)
              && (HostCheck(s, caller, g).None? && procedureError.Some? ==>
                    r.0 == Failed(StoreError(procedureError.value)))
    ensures status == Active ==>
              && r.1.calls == s.calls
              && (r.0 == Done <==> HostCheck(s, caller, g).None? && updateError.None?)
              && (r.0.Failed? ==> r.1 == s)
              && (HostCheck(s, caller, g).None? && updateError.Some? ==> r.0 == Failed(StoreError(updateError.value)))
              && (r.0 == Done ==>
                    && r.1.games == s.games[g := s.games[g].(status := Active)]
                    && r.1.players == if clearError then s.players else ClearCash(s.players, g))
  {
    var guard := HostCheck(s, caller, g);
    if guard.Some? then (Failed(guard.value), s)
    else if status == Closed then
      var after := CloseSessionProcedure(s, g, None, procedureError);
      (if procedureError.Some? then Failed(StoreError(procedureError.value)) else Done, after)
    else if updateError.Some? then (Failed(StoreError(updateError.value)), s)
    else
      var reopened := s.(games := WithStatus(s.games, g, status));
      (Done, if clearError then reopened else reopened.(players := ClearCash(s.players, g)))
  }

  /** `kickPlayer(g, target)`: host only, never oneself; sets the target's row to denied.
      The target row need not exist (the update then matches nothing). */
  function KickPlayer(s: Db, caller: Option<UserId>, g: GameId, target: UserId,
                      updateError: Option<string>): (r: (Outcome, Db))
    ensures r.0 == Done <==> HostCheck(s, caller, g).None? && target != caller.value && updateError.None?
    ensures HostCheck(s, caller, g).Some? ==> r.0 == Failed(HostCheck(s, caller, g).value)
    ensures HostCheck(s, caller, g).None? && target == caller.value ==> r.0 == Failed(CannotKickSelf)
    ensures HostCheck(s, caller, g).None? && target != caller.value && updateError.Some? ==>
              r.0 == Failed(StoreError(updateError.value))
    ensures r.0.Failed? ==> r.1 == s
    ensures r.1.games == s.games && r.1.profiles == s.profiles && r.1.calls == s.calls
    ensures r.1.players.Keys == s.players.Keys
    ensures forall k :: k in s.players && k != Key(g, target) ==> r.1.players[k] == s.players[k]
    ensures r.0 == Done && Key(g, target) in s.players ==>
              r.1.players[Key(g, target)] == s.players[Key(g, target)].(status := Denied)
  {
    var guard := HostCheck(s, caller, g);
    if guard.Some? then (Failed(guard.value), s)
    else if target == caller.value then (Failed(CannotKickSelf), s)
    else if updateError.Some? then (Failed(StoreError(updateError.value)), s)
    else if Key(g, target) !in s.players then (Done, s)
    else
      var k := Key(g, target);
      (Done, s.(players := s.players[k := s.players[k].(status := Denied)]))
  }

  /** `requestRejoin(g)`: the caller's own row goes from denied to pending; with any other
      status, or no row, nothing changes and no error is raised. */
  function RequestRejoin(s: Db, caller: Option<UserId>, g: GameId, updateError: Option<string>): (r: (Outcome, Db))
    ensures caller.None? ==> r.0 == Failed(NotAuthenticated)
    ensures r.0 == Done <==> caller.Some? && updateError.None?
    ensures caller.Some? && updateError.Some? ==> r.0 == Failed(StoreError(updateError.value))
    ensures r.0.Failed? ==> r.1 == s
    ensures r.1.games == s.games && r.1.profiles == s.profiles && r.1.calls == s.calls
    ensures r.0 == Done && !HasStatus(s, g, caller.value, Denied) ==> r.1 == s
    ensures r.0 == Done && HasStatus(s, g, caller.value, Denied) ==>
              r.1.players == s.players[Key(g, caller.value) := s.players[Key(g, caller.value)].(status := Pending)]
  {
    if caller.None? then (Failed(NotAuthenticated), s)
    else if updateError.Some? then (Failed(StoreError(updateError.value)), s)
    else
      var k := Key(g, caller.value);
      if HasStatus(s, g, caller.value, Denied) then
        (Done, s.(players := s.players[k := s.players[k].(status := Pending)]))
      else (Done, s)
  }

  /** `updateRequestedAmounts(g, in, out)`: only a pending or approved player, on their own row,
      and only the two requested columns. The game's status is not checked. */
  function UpdateRequestedAmounts(s: Db, caller: Option<UserId>, g: GameId, cashIn: real, cashOut: real,
                                  updateError: Option<string>): (r: (Outcome, Db))
    ensures caller.None? ==> r.0 == Failed(NotAuthenticated)
    ensures r.0 == Failed(NotAPlayer) <==>
              caller.Some? && !HasStatus(s, g, caller.value, Pending) && !HasStatus(s, g, caller.value, Approved)
    ensures r.0 == Done <==>
              caller.Some? && (HasStatus(s, g, caller.value, Pending) || HasStatus(s, g, caller.value, Approved))
              && updateError.None?
    ensures caller.Some? && (HasStatus(s, g, caller.value, Pending) || HasStatus(s, g, caller.value, Approved))
            && updateError.Some?
            ==> r.0 == Failed(StoreError(updateError.value))
    ensures r.0.Failed? ==> r.1 == s
    ensures r.1.games == s.games && r.1.profiles == s.profiles && r.1.calls == s.calls
    ensures r.0 == Done ==>
              var k := Key(g, caller.value);
              r.1.players == s.players[k := s.players[k].(requestedCashIn := Some(cashIn), requestedCashOut := Some(cashOut))]
  {
    if caller.None? then (Failed(NotAuthenticated), s)
    else
      var k := Key(g, caller.value);
      if !(HasStatus(s, g, caller.value, Pending) || HasStatus(s, g, caller.value, Approved)) then
        (Failed(NotAPlayer), s)
      else if updateError.Some? then (Failed(StoreError(updateError.value)), s)
      else
        (Done, s.(players := s.players[k := s.players[k].(requestedCashIn := Some(cashIn), requestedCashOut := Some(cashOut))]))
  }

  /** `transferHost(g, newHost)`: host only, not to oneself, and only to an approved player
      of the game; on success only the game's host changes. */
  function TransferHost(s: Db, caller: Option<UserId>, g: GameId, newHost: UserId,
                        updateError: Option<string>): (r: (Outcome, Db))
    ensures HostCheck(s, caller, g).Some? ==> r.0 == Failed(HostCheck(s, caller, g).value)
    ensures HostCheck(s, caller, g).None? && newHost == caller.value ==> r.0 == Failed(AlreadyHost)
    ensures HostCheck(s, caller, g).None? && newHost != caller.value && !HasStatus(s, g, newHost, Approved) ==>
              r.0 == Failed(NewHostNotApproved)
    ensures r.0 == Done <==>
              HostCheck(s, caller, g).None? && newHost != caller.value && HasStatus(s, g, newHost, Approved)
              && updateError.None?
    ensures HostCheck(s, caller, g).None? && newHost != caller.value && HasStatus(s, g, newHost, Approved)
            && updateError.Some?
            ==> r.0 == Failed(StoreError(updateError.value))
    ensures r.0.Failed? ==> r.1 == s
    ensures r.0 == Done ==> r.1 == s.(games := s.games[g := s.games[g].(hostId := newHost)])
  {
    var guard := HostCheck(s, caller, g);
    if guard.Some? then (Failed(guard.value), s)
    else if newHost == caller.value then (Failed(AlreadyHost), s)
    else if !HasStatus(s, g, newHost, Approved) then (Failed(NewHostNotApproved), s)
    else if updateError.Some? then (Failed(StoreError(updateError.value)), s)
    else (Done, s.(games := s.games[g := s.games[g].(hostId := newHost)]))
  }

  /** The three host-only actions refuse an unauthenticated caller, a missing game and a
      caller who is not the host, and leave the store exactly as it was. */
  lemma HostOnlyActionsGuarded(s: Db, caller: Option<UserId>, g: GameId, status: GameStatus,
                               target: UserId, procedureError: Option<string>,
                               updateError: Option<string>, clearError: bool)
    requires status != Ended
    requires caller.None? || g !in s.games || s.games[g].hostId != caller.value
    ensures SetGameStatus(s, caller, g, status, procedureError, updateError, clearError).1 == s
    ensures KickPlayer(s, caller, g, target, updateError).1 == s
    ensures TransferHost(s, caller, g, target, updateError).1 == s
    ensures SetGameStatus(s, caller, g, status, procedureError, updateError, clearError).0.Failed?
    ensures KickPlayer(s, caller, g, target, updateError).0.Failed?
    ensures TransferHost(s, caller, g, target, updateError).0.Failed?
  {
  }

  /** Every action keeps the invariant that each game's host is an approved player of it.
      Ending a game writes only its status. */
  lemma CloseGameKeepsHostsApproved(s: Db, g: GameId, procedureError: Option<string>, fallbackError: bool)
    requires HostsApproved(s)
    ensures HostsApproved(CloseGame(s, g, procedureError, fallbackError))
  {
    var r := CloseGame(s, g, procedureError, fallbackError);
    forall h | h in r.games ensures HasStatus(r, h, r.games[h].hostId, Approved) {
      assert r.games[h].hostId == s.games[h].hostId;
    }
  }

  /** Toggling the session writes the game's status and the amounts, never a player's status. */
  lemma SetGameStatusKeepsHostsApproved(s: Db, caller: Option<UserId>, g: GameId, status: GameStatus,
                                        procedureError: Option<string>, updateError: Option<string>,
                                        clearError: bool)
    requires status != Ended
    requires HostsApproved(s)
    ensures HostsApproved(SetGameStatus(s, caller, g, status, procedureError, updateError, clearError).1)
  {
    var r := SetGameStatus(s, caller, g, status, procedureError, updateError, clearError).1;
    forall h | h in r.games ensures HasStatus(r, h, r.games[h].hostId, Approved) {
      assert r.games[h].hostId == s.games[h].hostId;
      assert HasStatus(s, h, s.games[h].hostId, Approved);
    }
  }

  /** The host cannot kick themself, so the host's row stays approved. */
  lemma KickKeepsHostsApproved(s: Db, caller: Option<UserId>, g: GameId, target: UserId, updateError: Option<string>)
    requires HostsApproved(s)
    ensures HostsApproved(KickPlayer(s, caller, g, target, updateError).1)
  {
    var (o, r) := KickPlayer(s, caller, g, target, updateError);
    forall h | h in r.games ensures HasStatus(r, h, r.games[h].hostId, Approved) {
      assert HasStatus(s, h, s.games[h].hostId, Approved);
      if o == Done && h == g {
        assert target != s.games[g].hostId;
      }
    }
  }

  /** Rejoining only moves a denied row, and no host's row is denied. */
  lemma RequestRejoinKeepsHostsApproved(s: Db, caller: Option<UserId>, g: GameId, updateError: Option<string>)
    requires HostsApproved(s)
    ensures HostsApproved(RequestRejoin(s, caller, g, updateError).1)
  {
    var r := RequestRejoin(s, caller, g, updateError).1;
    forall h | h in r.games ensures HasStatus(r, h, r.games[h].hostId, Approved) {
      assert HasStatus(s, h, s.games[h].hostId, Approved);
    }
  }

  /** Requested amounts are not a status. */
  lemma UpdateRequestedKeepsHostsApproved(s: Db, caller: Option<UserId>, g: GameId, cashIn: real, cashOut: real,
                                          updateError: Option<string>)
    requires HostsApproved(s)
    ensures HostsApproved(UpdateRequestedAmounts(s, caller, g, cashIn, cashOut, updateError).1)
  {
    var r := UpdateRequestedAmounts(s, caller, g, cashIn, cashOut, updateError).1;
    forall h | h in r.games ensures HasStatus(r, h, r.games[h].hostId, Approved) {
      assert HasStatus(s, h, s.games[h].hostId, Approved);
    }
  }

  /** The host role goes only to an approved player. */
  lemma TransferHostKeepsHostsApproved(s: Db, caller: Option<UserId>, g: GameId, newHost: UserId,
                                       updateError: Option<string>)
    requires HostsApproved(s)
    ensures HostsApproved(TransferHost(s, caller, g, newHost, updateError).1)
  {
    var r := TransferHost(s, caller, g, newHost, updateError).1;
    forall h | h in r.games ensures HasStatus(r, h, r.games[h].hostId, Approved) {
      assert HasStatus(s, h, s.games[h].hostId, Approved);
    }
  }

  /** A player the host kicked can ask to rejoin: their row becomes pending with the amounts
      it had, and no other row changes. */
  lemma KickThenRejoin(s: Db, host: UserId, g: GameId, target: UserId)
    requires HostCheck(s, Some(host), g).None? && target != host
    requires Key(g, target) in s.players
    ensures var (o1, kicked) := KickPlayer(s, Some(host), g, target, None);
            var (o2, rejoined) := RequestRejoin(kicked, Some(target), g, None);
            && o1 == Done && o2 == Done
            && rejoined.players == s.players[Key(g, target) := s.players[Key(g, target)].(status := Pending)]
  {
    var (o1, kicked) := KickPlayer(s, Some(host), g, target, None);
    assert HasStatus(kicked, g, target, Denied);
  }

  /** Reopening a game (status active) clears the amounts of that game's players, keeps their
      statuses, and leaves every other game's rows as they were. */
  lemma ReopenClearsOnlyThatGame(s: Db, host: UserId, g: GameId, h: GameId, u: UserId)
    requires HostCheck(s, Some(host), g).None?
    requires Key(h, u) in s.players
    ensures var (o, after) := SetGameStatus(s, Some(host), g, Active, None, None, false);
            && o == Done && after.games[g].status == Active
            && Key(h, u) in after.players
            && after.players[Key(h, u)].status == s.players[Key(h, u)].status
            && (h == g ==> after.players[Key(h, u)] == ClearedRow(s.players[Key(h, u)]))
            && (h != g ==> after.players[Key(h, u)] == s.players[Key(h, u)])
  {
  }
}
