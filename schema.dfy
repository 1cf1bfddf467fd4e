/** The rows of the data store the core reads and writes: games, the
    player rows keyed by (game, user), profiles, and a log of the
    server-side procedures invoked. A game's status has three values:
    the status type of the database schema lists only active and ended,
    but the server actions also write and read "closed". */
module Schema {
  import opened Common

  type UserId = string
  type GameId = string

  datatype GameStatus = Active | Closed | Ended

  datatype PlayerStatus = Pending | Approved | Denied

  datatype Game = Game(hostId: UserId, status: GameStatus, shortCode: string, description: Option<string>)

  /** A `game_players` row; every cash column is nullable. */
  datatype PlayerRow = PlayerRow(
    status: PlayerStatus,
    cashIn: Option<real>,
    cashOut: Option<real>,
    requestedCashIn: Option<real>,
    requestedCashOut: Option<real>)

  datatype Key = Key(game: GameId, user: UserId)

  datatype ProfileRow = ProfileRow(email: Option<string>, displayName: Option<string>)

  datatype ProfitDelta = ProfitDelta(user: UserId, delta: real)

  /** The server-side procedures, whose bodies are not part of this model. */
  datatype ProcedureCall =
    | CloseSession(game: GameId, finalStatus: Option<GameStatus>)
    | EndGame(game: GameId, deltas: seq<ProfitDelta>)

  datatype Db = Db(
    games: map<GameId, Game>,
    players: map<Key, PlayerRow>,
    profiles: map<UserId, ProfileRow>,
    calls: seq<ProcedureCall>)

  /** The row (g, u) exists and has the given status. */
  predicate HasStatus(s: Db, g: GameId, u: UserId, st: PlayerStatus)
  {
    Key(g, u) in s.players && s.players[Key(g, u)].status == st
  }

  /** Every game's host holds an approved player row in that game. */
  predicate HostsApproved(s: Db)
  {
    forall g :: g in s.games ==> HasStatus(s, g, s.games[g].hostId, Approved)
  }
}
