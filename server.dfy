/** The data store as an object whose tables the server actions update in
    place. Each method runs the action's guards in order and returns at the
    first that fails, as the action does, and is proved to agree with the
    corresponding function of `Actions`. */
module Server {
  import opened Common
  import opened Schema
  import Actions

  class Store {
    var games: map<GameId, Game>
    var players: map<Key, PlayerRow>
    var profiles: map<UserId, ProfileRow>
    var calls: seq<ProcedureCall>

    /** The store's tables as a value. */
    function State(): Db
      reads this
    {
      Db(games, players, profiles, calls)
    }

    constructor (initial: Db)
      ensures State() == initial
    {
      games, players, profiles, calls := initial.games, initial.players, initial.profiles, initial.calls;
    }

    /** Reads the host of g, as the host-only actions do before anything else. */
    method CheckHost(caller: Option<UserId>, g: GameId) returns (err: Option<Actions.ActionError>)
      ensures err == Actions.HostCheck(State(), caller, g)
    {
      if caller.None? {
        return Some(Actions.NotAuthenticated);
      }
      if g !in games {
        return Some(Actions.GameNotFound);
      }
      if games[g].hostId != caller.value {
        return Some(Actions.NotHost);
      }
      return None;
    }

    /** Invokes `close_session`: logged, and on success the game's status becomes the final status. */
    method InvokeCloseSession(g: GameId, finalStatus: Option<GameStatus>, failure: Option<string>)
      modifies this
      ensures State() == Actions.CloseSessionProcedure(old(State()), g, finalStatus, failure)
    {
      calls := calls + [CloseSession(g, finalStatus)];
      if failure.None? && g in games {
        games := games[g := games[g].(status := Actions.FinalStatus(finalStatus))];
      }
    }

    method CloseGame(g: GameId, procedureError: Option<string>, fallbackError: bool)
      modifies this
      ensures State() == Actions.CloseGame(old(State()), g, procedureError, fallbackError)
    {
      InvokeCloseSession(g, Some(Ended), procedureError);
      if procedureError.Some? {
        // fall back to a direct update; its own failure is only logged
        if !fallbackError && g in games {
          games := games[g := games[g].(status := Ended)];
        }
      }
    }

    method SetGameStatus(caller: Option<UserId>, g: GameId, status: GameStatus,
                         procedureError: Option<string>, updateError: Option<string>, clearError: bool)
      returns (r: Actions.Outcome)
      requires status != Ended
      modifies this
      ensures (r, State()) == Actions.SetGameStatus(old(State()), caller, g, status, procedureError, updateError, clearError)
    {
      var guard := CheckHost(caller, g);
      if guard.Some? {
        return Actions.Failed(guard.value);
      }
      if status == Closed {
        InvokeCloseSession(g, None, procedureError);
        if procedureError.Some? {
          return Actions.Failed(Actions.StoreError(procedureError.value));
        }
        return Actions.Done;
      }
      if updateError.Some? {
        return Actions.Failed(Actions.StoreError(updateError.value));
      }
      games := games[g := games[g].(status := status)];
      if !clearError {
        players := Actions.ClearCash(players, g);
      }
      return Actions.Done;
    }

    method KickPlayer(caller: Option<UserId>, g: GameId, target: UserId, updateError: Option<string>)
      returns (r: Actions.Outcome)
      modifies this
      ensures (r, State()) == Actions.KickPlayer(old(State()), caller, g, target, updateError)
    {
      var guard := CheckHost(caller, g);
      if guard.Some? {
        return Actions.Failed(guard.value);
      }
      if target == caller.value {
        return Actions.Failed(Actions.CannotKickSelf);
      }
      if updateError.Some? {
        return Actions.Failed(Actions.StoreError(updateError.value));
      }
      var k := Key(g, target);
      if k in players {
        players := players[k := players[k].(status := Denied)];
      }
      return Actions.Done;
    }

    method RequestRejoin(caller: Option<UserId>, g: GameId, updateError: Option<string>)
      returns (r: Actions.Outcome)
      modifies this
      ensures (r, State()) == Actions.RequestRejoin(old(State()), caller, g, updateError)
    {
      if caller.None? {
        return Actions.Failed(Actions.NotAuthenticated);
      }
      if updateError.Some? {
        return Actions.Failed(Actions.StoreError(updateError.value));
      }
      var k := Key(g, caller.value);
      if k in players && players[k].status == Denied {
        players := players[k := players[k].(status := Pending)];
      }
      return Actions.Done;
    }

    method UpdateRequestedAmounts(caller: Option<UserId>, g: GameId, cashIn: real, cashOut: real,
                                  updateError: Option<string>)
      returns (r: Actions.Outcome)
      modifies this
      ensures (r, State()) == Actions.UpdateRequestedAmounts(old(State()), caller, g, cashIn, cashOut, updateError)
    {
      if caller.None? {
        return Actions.Failed(Actions.NotAuthenticated);
      }
      var k := Key(g, caller.value);
      if k !in players || players[k].status == Denied {
        return Actions.Failed(Actions.NotAPlayer);
      }
      if updateError.Some? {
        return Actions.Failed(Actions.StoreError(updateError.value));
      }
      players := players[k := players[k].(requestedCashIn := Some(cashIn), requestedCashOut := Some(cashOut))];
      return Actions.Done;
    }

    method TransferHost(caller: Option<UserId>, g: GameId, newHost: UserId, updateError: Option<string>)
      returns (r: Actions.Outcome)
      modifies this
      ensures (r, State()) == Actions.TransferHost(old(State()), caller, g, newHost, updateError)
    {
      var guard := CheckHost(caller, g);
      if guard.Some? {
        return Actions.Failed(guard.value);
      }
      if newHost == caller.value {
        return Actions.Failed(Actions.AlreadyHost);
      }
      var k := Key(g, newHost);
      if k !in players || players[k].status != Approved {
        return Actions.Failed(Actions.NewHostNotApproved);
      }
      if updateError.Some? {
        return Actions.Failed(Actions.StoreError(updateError.value));
      }
      games := games[g := games[g].(hostId := newHost)];
      return Actions.Done;
    }
  }
}
