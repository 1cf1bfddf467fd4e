/** The live game page. It keeps a list of player rows, normalised from the
    store; it gives the approved players unique names for the settlement;
    on "End game" it maps the settlement's results back to user ids and
    calls the `end_game` procedure only when every result maps; and the
    host's and the player's edits patch one row of the list and of the
    store. The settlement itself (`calcPayouts`) is not part of this
    model: it is a parameter. */
module GameSession {
  import opened Common
  import opened Schema
  import Server

  // ---------------------------------------------------------------------
  // Rows

  datatype ProfileJoin = ProfileJoin(displayName: Option<string>, venmoHandle: Option<string>)

  /** A row as the store returns it: nullable amounts and an optional profile. */
  datatype FetchedRow = FetchedRow(
    userId: UserId, status: PlayerStatus,
    cashIn: Option<real>, cashOut: Option<real>,
    requestedCashIn: Option<real>, requestedCashOut: Option<real>,
    profile: Option<ProfileJoin>)

  /** A row of the page's player list: every amount is a number. */
  datatype Player = Player(
    userId: UserId, status: PlayerStatus,
    cashIn: real, cashOut: real,
    requestedCashIn: real, requestedCashOut: real,
    displayName: Option<string>, venmoHandle: Option<string>)

  /** `x ?? fallback` on a nullable amount. */
  function OrElseAmount(x: Option<real>, fallback: real): (r: real)
    ensures x.Some? ==> r == x.value
    ensures x.None? ==> r == fallback
  {
    if x.Some? then x.value else fallback
  }

  /** The normalisation `syncPlayers` applies to each fetched row: a null amount becomes 0,
      and a null requested amount falls back to the confirmed amount, then to 0. */
  function Normalize(row: FetchedRow): (p: Player)
    ensures p.userId == row.userId && p.status == row.status
    ensures p.cashIn == if row.cashIn.Some? then row.cashIn.value else 0.0
    ensures p.cashOut == if row.cashOut.Some? then row.cashOut.value else 0.0
    ensures row.requestedCashIn.Some? ==> p.requestedCashIn == row.requestedCashIn.value
    ensures row.requestedCashIn.None? ==> p.requestedCashIn == p.cashIn
    ensures row.requestedCashOut.Some? ==> p.requestedCashOut == row.requestedCashOut.value
    ensures row.requestedCashOut.None? ==> p.requestedCashOut == p.cashOut
    ensures row.profile.None? ==> p.displayName.None? && p.venmoHandle.None?
    ensures row.profile.Some? ==>
              p.displayName == row.profile.value.displayName && p.venmoHandle == row.profile.value.venmoHandle
  {
    var cashIn := OrElseAmount(row.cashIn, 0.0);
    var cashOut := OrElseAmount(row.cashOut, 0.0);
    Player(row.userId, row.status, cashIn, cashOut,
           OrElseAmount(row.requestedCashIn, cashIn), OrElseAmount(row.requestedCashOut, cashOut),
           if row.profile.Some? then row.profile.value.displayName else None,
           if row.profile.Some? then row.profile.value.venmoHandle else None)
  }

  /** The amounts a player asked for that the host has not yet taken over. */
  predicate HasPendingDiff(p: Player)
  {
    p.requestedCashIn != p.cashIn || p.requestedCashOut != p.cashOut
  }

  /** A row whose requested amounts are null (just reopened, or never requested) shows no request. */
  lemma NoRequestNoDiff(row: FetchedRow)
    requires row.requestedCashIn.None? && row.requestedCashOut.None?
    ensures !HasPendingDiff(Normalize(row))
  {
  }

  function IsApproved(p: Player): bool { p.status == Approved }
  function IsPending(p: Player): bool { p.status == Pending }

  /** `players.filter(p => p.status === "approved")` */
  function ApprovedPlayers(players: seq<Player>): (r: seq<Player>)
    ensures forall i :: 0 <= i < |r| ==> r[i].status == Approved && r[i] in players
    ensures forall i :: 0 <= i < |players| && players[i].status == Approved ==> players[i] in r
  {
    Filter(players, IsApproved)
  }

  /** `players.filter(p => p.status === "pending")` */
  function PendingPlayers(players: seq<Player>): (r: seq<Player>)
    ensures forall i :: 0 <= i < |r| ==> r[i].status == Pending && r[i] in players
    ensures forall i :: 0 <= i < |players| && players[i].status == Pending ==> players[i] in r
  {
    Filter(players, IsPending)
  }

  // ---------------------------------------------------------------------
  // Names for the settlement

  function DigitChar(d: nat): char
    requires d < 10
  {
    ('0' as int + d) as char
  }

  function DigitValue(c: char): nat
  {
    if '0' <= c <= '9' then c as int - '0' as int else 0
  }

  /** A number as JavaScript writes a non-negative integer: its decimal digits. */
  function DecimalString(n: nat): (s: string)
    ensures |s| >= 1
  {
    if n < 10 then [DigitChar(n)] else DecimalString(n / 10) + [DigitChar(n % 10)]
  }

  /** Reads a string of decimal digits back as a number. */
  function ParseDecimal(s: string): nat
  {
    if s == [] then 0 else 10 * ParseDecimal(s[..|s| - 1]) + DigitValue(s[|s| - 1])
  }

  lemma {:induction false} DecimalRoundTrip(n: nat)
    ensures ParseDecimal(DecimalString(n)) == n
  {
    var s := DecimalString(n);
    if n >= 10 {
      DecimalRoundTrip(n / 10);
      assert s[..|s| - 1] == DecimalString(n / 10);
    }
  }

  /** The n-th name `makeName` tries for a base: the base itself, then `base_1`, `base_2`, ... */
  function Candidate(base: string, n: nat): (name: string)
    ensures base <= name
  {
    if n == 0 then base else base + "_" + DecimalString(n)
  }

  /** Different counters give different names, so the loop in `makeName` never retries a name. */
  lemma CandidateInjective(base: string, j: nat, k: nat)
    requires Candidate(base, j) == Candidate(base, k)
    ensures j == k
  {
    if j != 0 && k != 0 {
      var c := Candidate(base, j);
      assert c[|base| + 1..] == DecimalString(j);
      assert Candidate(base, k)[|base| + 1..] == DecimalString(k);
      DecimalRoundTrip(j);
      DecimalRoundTrip(k);
    }
  }

  /** The name a player is settled under before de-duplication: `@` and the Venmo handle if
      there is one, else the display name, else `Player_` and the first 8 characters of the id. */
  function BaseName(p: Player): (base: string)
    ensures base != []
    ensures Truthy(p.venmoHandle) ==> base == "@" + p.venmoHandle.value
    ensures !Truthy(p.venmoHandle) && Truthy(p.displayName) ==> base == p.displayName.value
    ensures !Truthy(p.venmoHandle) && !Truthy(p.displayName) ==> base == "Player_" + Take(p.userId, 8)
  {
    if Truthy(p.venmoHandle) then "@" + p.venmoHandle.value
    else if Truthy(p.displayName) then p.displayName.value
    else "Player_" + Take(p.userId, 8)
  }

  /** `makeName`: the first of base, base_1, base_2, ... not issued yet; it is then issued. */
  method MakeName(base: string, issued: set<string>) returns (name: string, issued': set<string>, n: nat)
    ensures name !in issued
    ensures issued' == issued + {name}
    ensures name == Candidate(base, n)
    ensures forall k :: 0 <= k < n ==> Candidate(base, k) in issued
  {
    name, n := base, 0;
    ghost var tried: set<string> := {};
    while name in issued
      invariant name == Candidate(base, n)
      invariant tried <= issued
      invariant forall k :: 0 <= k < n ==> Candidate(base, k) in issued
      invariant forall t, m :: t in tried && m >= n ==> t != Candidate(base, m)
      decreases issued - tried
    {
      forall m | m >= n + 1
        ensures Candidate(base, n) != Candidate(base, m)
      {
        if Candidate(base, n) == Candidate(base, m) {
          CandidateInjective(base, n, m);
        }
      }
      assert name !in tried;
      tried := tried + {name};
      n := n + 1;
      name := base + "_" + DecimalString(n);
    }
    issued' := issued + {name};
  }

  datatype PayoutEntry = PayoutEntry(name: string, cashIn: real, cashOut: real)

  /** The game handed to the settlement. */
  datatype PayoutGame = PayoutGame(description: Option<string>, players: seq<PayoutEntry>)

  predicate DistinctNames(entries: seq<PayoutEntry>)
  {
    forall i, j :: 0 <= i < j < |entries| ==> entries[i].name != entries[j].name
  }

  /** `approved.map(p => ({ name: makeName(p), ... }))`: one entry per player, in order, with
      that player's amounts and a name no other entry has. */
  method PayoutEntries(approved: seq<Player>) returns (entries: seq<PayoutEntry>)
    ensures |entries| == |approved|
    ensures DistinctNames(entries)
    ensures forall i :: 0 <= i < |approved| ==>
              && entries[i].cashIn == approved[i].cashIn
              && entries[i].cashOut == approved[i].cashOut
              && BaseName(approved[i]) <= entries[i].name
  {
    var names: set<string> := {};
    entries := [];
    for i := 0 to |approved|
      invariant |entries| == i
      invariant forall j :: 0 <= j < i ==> entries[j].name in names
      invariant DistinctNames(entries)
      invariant forall j :: 0 <= j < i ==>
                  && entries[j].cashIn == approved[j].cashIn
                  && entries[j].cashOut == approved[j].cashOut
                  && BaseName(approved[j]) <= entries[j].name
    {
      var name, issued, n := MakeName(BaseName(approved[i]), names);
      var next := entries + [PayoutEntry(name, approved[i].cashIn, approved[i].cashOut)];
      assert DistinctNames(next) by {
        forall j, k | 0 <= j < k < |next| ensures next[j].name != next[k].name {
          if k < i {
            assert next[j] == entries[j] && next[k] == entries[k];
          } else {
            assert next[j].name in names;
          }
        }
      }
      entries, names := next, issued;
    }
  }

  /** `gameForPayout`: nothing with fewer than two approved players; otherwise the game's
      description, if not empty, and the entries of the approved players. */
  method GameForPayout(players: seq<Player>, description: Option<string>) returns (r: Option<PayoutGame>)
    ensures r.None? <==> |ApprovedPlayers(players)| < 2
    ensures r.Some? ==>
              var approved := ApprovedPlayers(players);
              && r.value.description == (if Truthy(description) then description else None)
              && |r.value.players| == |approved|
              && DistinctNames(r.value.players)
              && forall i :: 0 <= i < |approved| ==>
                   && r.value.players[i].cashIn == approved[i].cashIn
                   && r.value.players[i].cashOut == approved[i].cashOut
                   && BaseName(approved[i]) <= r.value.players[i].name
  {
    var approved := ApprovedPlayers(players);
    if |approved| < 2 {
      return None;
    }
    var entries := PayoutEntries(approved);
    return Some(PayoutGame(if Truthy(description) then description else None, entries));
  }

  // ---------------------------------------------------------------------
  // Ending the game

  /** One result row of the settlement: the name it was given and the player's net. */
  datatype Settled = Settled(name: string, net: real)

  function UserIds(players: seq<Player>): (ids: seq<UserId>)
    ensures |ids| == |players|
    ensures forall i :: 0 <= i < |players| ==> ids[i] == players[i].userId
  {
    seq(|players|, i requires 0 <= i < |players| => players[i].userId)
  }

  /** The user the name-to-user map holds for a name: that of the LAST entry with the name,
      since each entry overwrites the map. */
  function UserFor(entries: seq<PayoutEntry>, users: seq<UserId>, name: string): (r: Option<UserId>)
    requires |entries| == |users|
    ensures r.None? <==> forall i :: 0 <= i < |entries| ==> entries[i].name != name
    ensures r.Some? ==> r.value in users
  {
    if entries == [] then None
    else if entries[|entries| - 1].name == name then Some(users[|users| - 1])
    else UserFor(entries[..|entries| - 1], users[..|users| - 1], name)
  }

  /** The user found for a name is that of the last entry carrying the name. */
  lemma {:induction false} UserForIsLastEntry(entries: seq<PayoutEntry>, users: seq<UserId>, name: string)
    requires |entries| == |users|
    ensures UserFor(entries, users, name).Some? ==>
              exists i :: 0 <= i < |entries| && entries[i].name == name && UserFor(entries, users, name).value == users[i]
                          && forall j :: i < j < |entries| ==> entries[j].name != name
  {
    if entries != [] && entries[|entries| - 1].name != name {
      var last := |entries| - 1;
      UserForIsLastEntry(entries[..last], users[..last], name);
      assert forall j :: 0 <= j < last ==> entries[..last][j] == entries[j] && users[..last][j] == users[j];
    }
  }

  /** With distinct names, each entry's name maps to its own player. */
  lemma {:induction false} UserForDistinct(entries: seq<PayoutEntry>, users: seq<UserId>, i: nat)
    requires |entries| == |users| && i < |entries|
    requires DistinctNames(entries)
    ensures UserFor(entries, users, entries[i].name) == Some(users[i])
  {
    var last := |entries| - 1;
    if i < last {
      assert entries[last].name != entries[i].name;
      var e', u' := entries[..last], users[..last];
      assert DistinctNames(e');
      UserForDistinct(e', u', i);
    }
  }

  /** `nameToUserId`, filled by a loop over the settlement's entries. */
  method NameToUserId(entries: seq<PayoutEntry>, approved: seq<Player>) returns (m: map<string, UserId>)
    requires |entries| == |approved|
    ensures forall name :: name in m <==> UserFor(entries, UserIds(approved), name).Some?
    ensures forall name :: name in m ==> m[name] == UserFor(entries, UserIds(approved), name).value
  {
    var users := UserIds(approved);
    m := map[];
    for i := 0 to |entries|
      invariant forall name :: name in m <==> UserFor(entries[..i], users[..i], name).Some?
      invariant forall name :: name in m ==> m[name] == UserFor(entries[..i], users[..i], name).value
    {
      assert entries[..i + 1][..i] == entries[..i];
      assert users[..i + 1][..i] == users[..i];
      m := m[entries[i].name := approved[i].userId];
    }
    assert entries[..|entries|] == entries;
    assert users[..|entries|] == users;
  }

  /** A profit delta before the check: the user may be missing. */
  datatype DraftDelta = DraftDelta(user: Option<UserId>, delta: real)

  function HasUser(d: DraftDelta): bool { Truthy(d.user) }

  /** The profit deltas `handleEndGame` sends, or `None` when some settled name has no
      (non-empty) user, in which case it aborts. */
  function ProfitDeltas(entries: seq<PayoutEntry>, users: seq<UserId>, settled: seq<Settled>): (r: Option<seq<ProfitDelta>>)
    requires |entries| == |users|
    ensures r.Some? <==> forall i :: 0 <= i < |settled| ==> Truthy(UserFor(entries, users, settled[i].name))
    ensures r.Some? ==> |r.value| == |settled|
    ensures r.Some? ==> forall i :: 0 <= i < |settled| ==>
              r.value[i] == ProfitDelta(UserFor(entries, users, settled[i].name).value, settled[i].net)
  {
    var drafts := seq(|settled|, i requires 0 <= i < |settled| => DraftDelta(UserFor(entries, users, settled[i].name), settled[i].net));
    var valid := Filter(drafts, HasUser);
    FilterKeepsAll(drafts, HasUser);
    assert forall i :: 0 <= i < |settled| ==> (HasUser(drafts[i]) <==> Truthy(UserFor(entries, users, settled[i].name)));
    if |valid| != |settled| then None
    else Some(seq(|valid|, i requires 0 <= i < |valid| => ProfitDelta(valid[i].user.value, valid[i].delta)))
  }

  /** When the settlement reports each player under a name it was given, every result maps
      back to the approved player of that name, so ending the game never aborts on mapping. */
  lemma SettlementMapsBack(entries: seq<PayoutEntry>, approved: seq<Player>, settled: seq<Settled>)
    requires |entries| == |approved| && DistinctNames(entries)
    requires forall i :: 0 <= i < |approved| ==> approved[i].userId != ""
    requires forall i :: 0 <= i < |settled| ==> exists j :: 0 <= j < |entries| && entries[j].name == settled[i].name
    ensures ProfitDeltas(entries, UserIds(approved), settled).Some?
    ensures forall i, j :: 0 <= i < |settled| && 0 <= j < |entries| && entries[j].name == settled[i].name ==>
              ProfitDeltas(entries, UserIds(approved), settled).value[i] == ProfitDelta(approved[j].userId, settled[i].net)
  {
    var users := UserIds(approved);
    forall i | 0 <= i < |settled|
      ensures Truthy(UserFor(entries, users, settled[i].name))
    {
      var j :| 0 <= j < |entries| && entries[j].name == settled[i].name;
      UserForDistinct(entries, users, j);
    }
    forall i, j | 0 <= i < |settled| && 0 <= j < |entries| && entries[j].name == settled[i].name
      ensures UserFor(entries, users, settled[i].name) == Some(approved[j].userId)
    {
      UserForDistinct(entries, users, j);
    }
  }

  datatype EndResult = NotReady | MappingFailed | ProcedureFailed(message: string) | Ended

  // ---------------------------------------------------------------------
  // Row updates

  /** The fields an update sets; `None` leaves a field as it is. */
  datatype Patch = Patch(
    cashIn: Option<real>, cashOut: Option<real>,
    requestedCashIn: Option<real>, requestedCashOut: Option<real>,
    status: Option<PlayerStatus>)

  /** `{ ...p, ...patch }` */
  function Merge(p: Player, patch: Patch): (r: Player)
    ensures r.userId == p.userId && r.displayName == p.displayName && r.venmoHandle == p.venmoHandle
    ensures r.cashIn == OrElseAmount(patch.cashIn, p.cashIn)
    ensures r.cashOut == OrElseAmount(patch.cashOut, p.cashOut)
    ensures r.requestedCashIn == OrElseAmount(patch.requestedCashIn, p.requestedCashIn)
    ensures r.requestedCashOut == OrElseAmount(patch.requestedCashOut, p.requestedCashOut)
    ensures r.status == if patch.status.Some? then patch.status.value else p.status
  {
    p.(cashIn := OrElseAmount(patch.cashIn, p.cashIn),
       cashOut := OrElseAmount(patch.cashOut, p.cashOut),
       requestedCashIn := OrElseAmount(patch.requestedCashIn, p.requestedCashIn),
       requestedCashOut := OrElseAmount(patch.requestedCashOut, p.requestedCashOut),
       status := if patch.status.Some? then patch.status.value else p.status)
  }

  /** The same update applied to the store's row. */
  function MergeRow(row: PlayerRow, patch: Patch): PlayerRow
  {
    row.(cashIn := if patch.cashIn.Some? then patch.cashIn else row.cashIn,
         cashOut := if patch.cashOut.Some? then patch.cashOut else row.cashOut,
         requestedCashIn := if patch.requestedCashIn.Some? then patch.requestedCashIn else row.requestedCashIn,
         requestedCashOut := if patch.requestedCashOut.Some? then patch.requestedCashOut else row.requestedCashOut,
         status := if patch.status.Some? then patch.status.value else row.status)
  }

  /** `updateCash`: the host sets both confirmed amounts, and the requested ones with them. */
  function CashPatch(cashIn: real, cashOut: real): (patch: Patch)
    ensures forall p :: Merge(p, patch) ==
              p.(cashIn := cashIn, cashOut := cashOut, requestedCashIn := cashIn, requestedCashOut := cashOut)
  {
    Patch(Some(cashIn), Some(cashOut), Some(cashIn), Some(cashOut), None)
  }

  /** `updateRequestedCash`: only the two requested amounts. */
  function RequestedPatch(requestedCashIn: real, requestedCashOut: real): (patch: Patch)
    ensures forall p :: Merge(p, patch) ==
              p.(requestedCashIn := requestedCashIn, requestedCashOut := requestedCashOut)
  {
    Patch(None, None, Some(requestedCashIn), Some(requestedCashOut), None)
  }

  /** `setStatus` */
  function StatusPatch(status: PlayerStatus): (patch: Patch)
    ensures forall p :: Merge(p, patch) == p.(status := status)
  {
    Patch(None, None, None, None, Some(status))
  }

  /** Approving a pending player: approved, with the requested amounts as confirmed amounts. */
  function ApproveJoinPatch(p: Player): (patch: Patch)
    ensures Merge(p, patch) == p.(status := Approved, cashIn := p.requestedCashIn, cashOut := p.requestedCashOut)
  {
    Patch(Some(p.requestedCashIn), Some(p.requestedCashOut), Some(p.requestedCashIn), Some(p.requestedCashOut), Some(Approved))
  }

  /** Approving a requested cash-in: it becomes the confirmed cash-in. */
  function ApproveCashInPatch(p: Player): (patch: Patch)
    ensures Merge(p, patch) == p.(cashIn := p.requestedCashIn)
  {
    Patch(Some(p.requestedCashIn), None, Some(p.requestedCashIn), None, None)
  }

  /** Denying a requested cash-in: the request is reset to the confirmed cash-in. */
  function DenyCashInPatch(p: Player): (patch: Patch)
    ensures Merge(p, patch) == p.(requestedCashIn := p.cashIn)
  {
    Patch(None, None, Some(p.cashIn), None, None)
  }

  /** Approving a requested cash-out: it becomes the confirmed cash-out. */
  function ApproveCashOutPatch(p: Player): (patch: Patch)
    ensures Merge(p, patch) == p.(cashOut := p.requestedCashOut)
  {
    Patch(None, Some(p.requestedCashOut), None, Some(p.requestedCashOut), None)
  }

  /** Denying a requested cash-out: the request is reset to the confirmed cash-out. */
  function DenyCashOutPatch(p: Player): (patch: Patch)
    ensures Merge(p, patch) == p.(requestedCashOut := p.cashOut)
  {
    Patch(None, None, None, Some(p.cashOut), None)
  }

  /** After `updateCash` the row shows no pending request. */
  lemma UpdateCashClearsDiff(p: Player, cashIn: real, cashOut: real)
    ensures var q := Merge(p, CashPatch(cashIn, cashOut));
            && q.cashIn == q.requestedCashIn == cashIn && q.cashOut == q.requestedCashOut == cashOut
            && q.status == p.status && !HasPendingDiff(q)
  {
  }

  /** A player's own request changes neither the confirmed amounts nor the status. */
  lemma RequestKeepsConfirmed(p: Player, requestedCashIn: real, requestedCashOut: real)
    ensures var q := Merge(p, RequestedPatch(requestedCashIn, requestedCashOut));
            && q.cashIn == p.cashIn && q.cashOut == p.cashOut && q.status == p.status
            && q.requestedCashIn == requestedCashIn && q.requestedCashOut == requestedCashOut
  {
  }

  /** Approving a join request admits the player with the amounts they asked for. */
  lemma ApproveJoinCopiesRequest(p: Player)
    ensures var q := Merge(p, ApproveJoinPatch(p));
            && q.status == Approved && q.cashIn == p.requestedCashIn && q.cashOut == p.requestedCashOut
            && q.requestedCashIn == p.requestedCashIn && q.requestedCashOut == p.requestedCashOut
            && !HasPendingDiff(q)
  {
  }

  /** Approving or denying one requested amount settles that amount's difference and leaves the
      other amount, and the status, as they were. */
  lemma FieldDecisionsSettleOneField(p: Player)
    ensures var q := Merge(p, ApproveCashInPatch(p));
            q.cashIn == q.requestedCashIn == p.requestedCashIn
            && q.cashOut == p.cashOut && q.requestedCashOut == p.requestedCashOut && q.status == p.status
    ensures var q := Merge(p, DenyCashInPatch(p));
            q.cashIn == q.requestedCashIn == p.cashIn
            && q.cashOut == p.cashOut && q.requestedCashOut == p.requestedCashOut && q.status == p.status
    ensures var q := Merge(p, ApproveCashOutPatch(p));
            q.cashOut == q.requestedCashOut == p.requestedCashOut
            && q.cashIn == p.cashIn && q.requestedCashIn == p.requestedCashIn && q.status == p.status
    ensures var q := Merge(p, DenyCashOutPatch(p));
            q.cashOut == q.requestedCashOut == p.cashOut
            && q.cashIn == p.cashIn && q.requestedCashIn == p.requestedCashIn && q.status == p.status
  {
  }

  /** The row list after an update: the rows of that user merged with the patch, the others kept. */
  function Patched(players: seq<Player>, userId: UserId, patch: Patch): (r: seq<Player>)
    ensures |r| == |players|
    ensures forall i :: 0 <= i < |players| ==>
              r[i] == if players[i].userId == userId then Merge(players[i], patch) else players[i]
  {
    seq(|players|, i requires 0 <= i < |players| =>
      if players[i].userId == userId then Merge(players[i], patch) else players[i])
  }

  // ---------------------------------------------------------------------
  // The page's state

  class Session {
    const gameId: GameId
    const description: Option<string>
    const store: Server.Store
    var players: seq<Player>

    constructor (gameId: GameId, description: Option<string>, store: Server.Store, initialPlayers: seq<Player>)
      ensures this.gameId == gameId && this.description == description && this.store == store
      ensures players == initialPlayers
    {
      this.gameId, this.description, this.store := gameId, description, store;
      players := initialPlayers;
    }

    /** `syncPlayers`: after a successful fetch the list becomes the normalised rows; a failed
        fetch (`None`) leaves it as it is. */
    method Sync(fetched: Option<seq<FetchedRow>>)
      modifies this
      ensures fetched.None? ==> players == old(players)
      ensures fetched.Some? ==> |players| == |fetched.value|
      ensures fetched.Some? ==> forall i :: 0 <= i < |fetched.value| ==> players[i] == Normalize(fetched.value[i])
    {
      if fetched.None? {
        return;
      }
      var rows := fetched.value;
      players := seq(|rows|, i requires 0 <= i < |rows| => Normalize(rows[i]));
    }

    /** `updatePlayerFields`: writes the patch to the store's row (the write's error is not
        checked, so `writeFails` leaves the store as it was), then merges it into the list's
        rows of that user. */
    method UpdatePlayerFields(userId: UserId, patch: Patch, writeFails: bool)
      modifies this, store
      ensures players == Patched(old(players), userId, patch)
      ensures store.games == old(store.games) && store.profiles == old(store.profiles)
      ensures store.calls == old(store.calls)
      ensures var k := Key(gameId, userId);
              store.players == if writeFails || k !in old(store.players) then old(store.players)
                               else old(store.players)[k := MergeRow(old(store.players)[k], patch)]
    {
      var k := Key(gameId, userId);
      if !writeFails && k in store.players {
        store.players := store.players[k := MergeRow(store.players[k], patch)];
      }
      var updated: seq<Player> := [];
      for i := 0 to |players|
        invariant |updated| == i
        invariant forall j :: 0 <= j < i ==>
                    updated[j] == if players[j].userId == userId then Merge(players[j], patch) else players[j]
      {
        var p := players[i];
        updated := updated + [if p.userId == userId then Merge(p, patch) else p];
      }
      players := updated;
    }

    /** `handleEndGame`, given what the page computed when it was drawn: the approved players,
        the game handed to the settlement and the settlement's results. The procedure is
        called only when every result maps to a user. */
    method EndGame(approved: seq<Player>, forPayout: Option<PayoutGame>, payout: Option<seq<Settled>>,
                   procedureError: Option<string>)
      returns (r: EndResult)
      requires forPayout.Some? ==> |forPayout.value.players| == |approved|
      modifies store
      ensures store.games == old(store.games) && store.players == old(store.players)
      ensures store.profiles == old(store.profiles)
      ensures payout.None? || forPayout.None? || |approved| < 2 ==> r == NotReady && store.calls == old(store.calls)
      ensures r == MappingFailed ==> store.calls == old(store.calls)
      ensures payout.Some? && forPayout.Some? && |approved| >= 2 ==>
                var deltas := ProfitDeltas(forPayout.value.players, UserIds(approved), payout.value);
                && (r == MappingFailed <==> deltas.None?)
                && (deltas.Some? ==> store.calls == old(store.calls) + [ProcedureCall.EndGame(gameId, deltas.value)])
                && (deltas.Some? ==> r == if procedureError.Some? then ProcedureFailed(procedureError.value) else EndResult.Ended)
    {
      if payout.None? || forPayout.None? || |approved| < 2 {
        return NotReady;
      }
      var entries := forPayout.value.players;
      var settled := payout.value;
      var nameToUser := NameToUserId(entries, approved);
      ghost var users := UserIds(approved);
      var drafts: seq<DraftDelta> := [];
      for i := 0 to |settled|
        invariant |drafts| == i
        invariant forall j :: 0 <= j < i ==> drafts[j] == DraftDelta(UserFor(entries, users, settled[j].name), settled[j].net)
      {
        var user := if settled[i].name in nameToUser then Some(nameToUser[settled[i].name]) else None;
        drafts := drafts + [DraftDelta(user, settled[i].net)];
      }
      var valid := Filter(drafts, HasUser);
      assert drafts == seq(|settled|, i requires 0 <= i < |settled| => DraftDelta(UserFor(entries, users, settled[i].name), settled[i].net));
      if |valid| != |settled| {
        return MappingFailed;
      }
      var deltas := seq(|valid|, i requires 0 <= i < |valid| => ProfitDelta(valid[i].user.value, valid[i].delta));
      store.calls := store.calls + [ProcedureCall.EndGame(gameId, deltas)];
      if procedureError.Some? {
        return ProcedureFailed(procedureError.value);
      }
      return EndResult.Ended;
    }
  }
}
