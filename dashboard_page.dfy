/** The dashboard's list of the user's tables. The store returns the user's
    memberships joined with their games, restricted to memberships that are
    not pending and to games that are active or closed; the page filters out
    ended games once more and shows each remaining membership with a role
    label, a removal hint and, for the host, an "End Game" control. */
module DashboardPage {
  import opened Common
  import opened Schema

  datatype GameRef = GameRef(id: GameId, shortCode: string, description: Option<string>,
                             status: GameStatus, hostId: UserId)

  /** A membership of the signed-in user with its game, if the join found one. */
  datatype Membership = Membership(status: PlayerStatus, game: Option<GameRef>)

  /** `.neq("status", "pending").in("games.status", ["active", "closed"])` with an inner join. */
  function QueryKeeps(m: Membership): (keep: bool)
    ensures keep ==> m.status != Pending && NotEnded(m)
    ensures m.game.None? ==> !keep
  {
    m.status != Pending && m.game.Some? && (m.game.value.status == Active || m.game.value.status == Closed)
  }

  /** The page's own filter: a game is present and not ended. */
  function NotEnded(m: Membership): (keep: bool)
    ensures keep <==> m.game.Some? && (m.game.value.status == Active || m.game.value.status == Closed)
  {
    m.game.Some? && m.game.value.status != Ended
  }

  /** The memberships the dashboard lists. */
  function Listed(memberships: seq<Membership>): (r: seq<Membership>)
    ensures forall i :: 0 <= i < |r| ==>
              r[i] in memberships && r[i].status != Pending && r[i].game.Some?
              && (r[i].game.value.status == Active || r[i].game.value.status == Closed)
    ensures forall i :: 0 <= i < |memberships| && QueryKeeps(memberships[i]) ==> memberships[i] in r
  {
    Filter(Filter(memberships, QueryKeeps), NotEnded)
  }

  /** The page's second filter removes nothing: the query has already excluded ended games. */
  lemma SecondFilterRedundant(memberships: seq<Membership>)
    ensures Listed(memberships) == Filter(memberships, QueryKeeps)
  {
    var q := Filter(memberships, QueryKeeps);
    FilterKeepsAll(q, NotEnded);
  }

  /** The label shown next to a table. */
  function RoleLabel(isHost: bool, status: PlayerStatus): (role: string)
    ensures isHost ==> role == "Host"
    ensures !isHost ==> (role == "Player" <==> status == Approved)
    ensures !isHost ==> (role == "Removed" <==> status == Denied)
    ensures !isHost ==> (role == "Pending" <==> status == Pending)
  {
    assert "Removed"[0] != "Pending"[0];
    if isHost then "Host"
    else match status
      case Approved => "Player"
      case Denied => "Removed"
      case Pending => "Pending"
  }

  datatype Card = Card(game: GameId, title: string, role: string, rejoinHint: bool, endGameControl: bool)

  /** How one listed membership is shown to `user`. */
  function CardFor(m: Membership, user: UserId): (c: Card)
    requires m.game.Some?
    ensures c.game == m.game.value.id
    ensures c.title == if Truthy(m.game.value.description) then m.game.value.description.value else "Game"
    ensures c.role == RoleLabel(m.game.value.hostId == user, m.status)
    ensures c.rejoinHint <==> m.status == Denied
    ensures c.endGameControl <==> m.game.value.hostId == user
  {
    var g := m.game.value;
    Card(g.id, if Truthy(g.description) then g.description.value else "Game",
         RoleLabel(g.hostId == user, m.status), m.status == Denied, g.hostId == user)
  }

  /** The cards of the dashboard, one per listed membership, in order. */
  function Cards(memberships: seq<Membership>, user: UserId): (cards: seq<Card>)
    ensures |cards| == |Listed(memberships)|
    ensures forall i :: 0 <= i < |cards| ==> cards[i] == CardFor(Listed(memberships)[i], user)
  {
    var listed := Listed(memberships);
    seq(|listed|, i requires 0 <= i < |listed| => CardFor(listed[i], user))
  }

  /** No card says "Pending": pending memberships are never listed, and a host's is "Host".
      Only the host sees "End Game", and only a removed player sees the rejoin hint. */
  lemma CardsShowRoles(memberships: seq<Membership>, user: UserId)
    ensures forall c :: c in Cards(memberships, user) ==> c.role != "Pending"
    ensures forall c :: c in Cards(memberships, user) ==> (c.endGameControl <==> c.role == "Host")
    ensures forall c :: c in Cards(memberships, user) ==> (c.rejoinHint ==> c.role in {"Host", "Removed"})
  {
    var cards := Cards(memberships, user);
    var listed := Listed(memberships);
    forall c | c in cards
      ensures c.role != "Pending"
      ensures c.endGameControl <==> c.role == "Host"
      ensures c.rejoinHint ==> c.role in {"Host", "Removed"}
    {
      var i :| 0 <= i < |cards| && cards[i] == c;
      assert listed[i].status != Pending;
      assert "Player" != "Host" && "Removed" != "Host" && "Pending" != "Host";
    }
  }
}
