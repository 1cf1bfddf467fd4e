/** The pure computations of the table's metrics page: the vertical range
    of a chart, the search over past sessions, a session's pot, the name a
    player is shown under, the all-time standings order and the sign of a
    net amount. The settlement (`calcPayouts`) is a parameter. */
module Metrics {
  import opened Common
  import GameSession

  // ---------------------------------------------------------------------
  // Chart range

  datatype Domain = Domain(lo: int, hi: int)

  /** `Math.max(...vals, 0)` */
  function MaxWithZero(vals: seq<real>): (m: real)
    ensures m >= 0.0
    ensures forall i :: 0 <= i < |vals| ==> vals[i] <= m
    ensures m == 0.0 || exists i :: 0 <= i < |vals| && vals[i] == m
  {
    if vals == [] then 0.0
    else
      var rest := MaxWithZero(vals[1..]);
      assert forall i :: 1 <= i < |vals| ==> vals[i] == vals[1..][i - 1];
      if vals[0] > rest then vals[0] else rest
  }

  /** `Math.min(...vals, 0)` */
  function MinWithZero(vals: seq<real>): (m: real)
    ensures m <= 0.0
    ensures forall i :: 0 <= i < |vals| ==> m <= vals[i]
    ensures m == 0.0 || exists i :: 0 <= i < |vals| && vals[i] == m
  {
    if vals == [] then 0.0
    else
      var rest := MinWithZero(vals[1..]);
      assert forall i :: 1 <= i < |vals| ==> vals[i] == vals[1..][i - 1];
      if vals[0] < rest then vals[0] else rest
  }

  /** `Math.ceil` */
  function Ceil(x: real): (c: int)
    ensures x <= c as real < x + 1.0
  {
    -((-x).Floor)
  }

  /** `yDomain`: [-10, 10] for no data; otherwise the range of the values and 0, widened by a
      fifth of its width on each side (a width of 0 counting as 1) and rounded outwards. */
  function YDomain(vals: seq<real>): (d: Domain)
    ensures vals == [] ==> d == Domain(-10, 10)
    ensures vals != [] ==> d.lo < 0 < d.hi
    ensures forall i :: 0 <= i < |vals| ==> d.lo as real < vals[i] < d.hi as real
  {
    if vals == [] then Domain(-10, 10)
    else
      var max := MaxWithZero(vals);
      var min := MinWithZero(vals);
      var range := if max - min == 0.0 then 1.0 else max - min;
      var pad := range * 0.2;
      Domain((min - pad).Floor, Ceil(max + pad))
  }

  // ---------------------------------------------------------------------
  // Session history

  datatype HistoryPlayer = HistoryPlayer(name: string, cashIn: real, cashOut: real)

  datatype Session = Session(snapshottedAt: string, sessionLabel: string, players: seq<HistoryPlayer>)

  /** `players.some(p => p.name.toLowerCase().includes(q))` */
  function SomePlayerMatches(players: seq<HistoryPlayer>, q: string): (r: bool)
    ensures r <==> exists i :: 0 <= i < |players| && Contains(ToLower(players[i].name), q)
  {
    if players == [] then false
    else Contains(ToLower(players[0].name), q) || SomePlayerMatches(players[1..], q)
  }

  /** A session matches a lower-cased query when its label or a player's name contains it,
      ignoring case. */
  predicate SessionMatches(s: Session, q: string)
  {
    Contains(ToLower(s.sessionLabel), q) || SomePlayerMatches(s.players, q)
  }

  /** `sessions.filter(s => matches(s, q))` */
  function MatchingSessions(sessions: seq<Session>, q: string): (r: seq<Session>)
    ensures |r| <= |sessions|
    ensures forall i :: 0 <= i < |r| ==> r[i] in sessions && SessionMatches(r[i], q)
    ensures forall i :: 0 <= i < |sessions| && SessionMatches(sessions[i], q) ==> sessions[i] in r
  {
    if sessions == [] then []
    else
      var rest := MatchingSessions(sessions[1..], q);
      assert forall i :: 1 <= i < |sessions| ==> sessions[i] == sessions[1..][i - 1];
      if SessionMatches(sessions[0], q) then [sessions[0]] + rest else rest
  }

  /** The sessions the history search shows: all of them for a blank search; otherwise, in
      their order, those matching the lower-cased search text, which is not trimmed. */
  function SearchSessions(sessions: seq<Session>, search: string): (r: seq<Session>)
    ensures Trim(search) == [] ==> r == sessions
    ensures Trim(search) != [] ==>
              && (forall i :: 0 <= i < |r| ==> r[i] in sessions && SessionMatches(r[i], ToLower(search)))
              && (forall i :: 0 <= i < |sessions| && SessionMatches(sessions[i], ToLower(search)) ==> sessions[i] in r)
  {
    if Trim(search) == [] then sessions else MatchingSessions(sessions, ToLower(search))
  }

  /** Filtering keeps the sessions' order: the matches of a concatenation are the matches of
      the first part followed by those of the second. */
  lemma {:induction false} MatchingSessionsConcat(a: seq<Session>, b: seq<Session>, q: string)
    ensures MatchingSessions(a + b, q) == MatchingSessions(a, q) + MatchingSessions(b, q)
  {
    if a == [] {
      assert a + b == b;
    } else {
      assert (a + b)[1..] == a[1..] + b;
      MatchingSessionsConcat(a[1..], b, q);
    }
  }

  /** A non-blank search keeps the sessions' order in the same sense, and a single session is
      shown exactly when it matches. */
  lemma SearchSessionsInOrder(a: seq<Session>, b: seq<Session>, search: string)
    ensures SearchSessions(a + b, search) == SearchSessions(a, search) + SearchSessions(b, search)
    ensures forall s :: SearchSessions([s], search) ==
              if Trim(search) == [] || SessionMatches(s, ToLower(search)) then [s] else []
  {
    if Trim(search) != [] {
      MatchingSessionsConcat(a, b, ToLower(search));
    }
  }

  /** Lower-casing neither blanks a search nor un-blanks it. */
  lemma LowerKeepsBlank(search: string)
    ensures Trim(ToLower(search)) == [] <==> Trim(search) == []
  {
    var low := ToLower(search);
    TrimEmpty(search);
    TrimEmpty(low);
    forall i | 0 <= i < |search|
      ensures IsSpace(low[i]) <==> IsSpace(search[i])
    {
      LowerCharKeepsSpace(search[i]);
    }
  }

  lemma LowerCharKeepsSpace(c: char)
    ensures IsSpace(LowerChar(c)) <==> IsSpace(c)
  {
    if 'A' <= c <= 'Z' {
      assert 'a' <= LowerChar(c) <= 'z';
    }
  }

  /** Upper-case letters in the search make no difference. */
  lemma SearchIgnoresCase(sessions: seq<Session>, search: string)
    ensures SearchSessions(sessions, ToLower(search)) == SearchSessions(sessions, search)
  {
    LowerKeepsBlank(search);
    assert ToLower(ToLower(search)) == ToLower(search);
  }

  function EntryFor(p: HistoryPlayer): GameSession.PayoutEntry
  {
    GameSession.PayoutEntry(p.name, p.cashIn, p.cashOut)
  }

  /** The settlement shown for the selected session: none unless a session with at least two
      players is selected; otherwise the settlement of its players, without a description. */
  function SelectedPayout(selected: Option<Session>, settle: GameSession.PayoutGame -> seq<GameSession.Settled>)
    : (r: Option<seq<GameSession.Settled>>)
    ensures r.Some? <==> selected.Some? && |selected.value.players| >= 2
    ensures r.Some? ==>
              var ps := selected.value.players;
              r.value == settle(GameSession.PayoutGame(None, seq(|ps|, i requires 0 <= i < |ps| => EntryFor(ps[i]))))
  {
    if selected.None? || |selected.value.players| < 2 then None
    else
      var ps := selected.value.players;
      Some(settle(GameSession.PayoutGame(None, seq(|ps|, i requires 0 <= i < |ps| => EntryFor(ps[i])))))
  }

  function CashIn(p: HistoryPlayer): real { p.cashIn }
  function CashOut(p: HistoryPlayer): real { p.cashOut }

  /** A session's pot: everything paid in plus everything paid out. It is 0 when nobody
      paid anything. */
  function Pot(s: Session): (pot: real)
    ensures (forall i :: 0 <= i < |s.players| ==> s.players[i].cashIn == 0.0 && s.players[i].cashOut == 0.0) ==>
              pot == 0.0
  {
    SumZero(s.players, CashIn);
    SumZero(s.players, CashOut);
    Sum(s.players, CashIn) + Sum(s.players, CashOut)
  }

  /** The pot is shown when it is positive, which takes someone who paid in or out. */
  predicate ShowsPot(s: Session)
    ensures ShowsPot(s) ==> exists i :: 0 <= i < |s.players| && (s.players[i].cashIn != 0.0 || s.players[i].cashOut != 0.0)
  {
    Pot(s) > 0.0
  }

  /** With no negative amounts, the pot is shown exactly when someone paid in or out. */
  lemma PotShownIffMoneyMoved(s: Session)
    requires forall i :: 0 <= i < |s.players| ==> s.players[i].cashIn >= 0.0 && s.players[i].cashOut >= 0.0
    ensures ShowsPot(s) <==> exists i :: 0 <= i < |s.players| && (s.players[i].cashIn > 0.0 || s.players[i].cashOut > 0.0)
  {
    SumPositive(s.players, CashIn);
    SumPositive(s.players, CashOut);
  }

  // ---------------------------------------------------------------------
  // Players

  /** The name a player is shown under: display name, else Venmo handle, else the first
      8 characters of the user id. Empty strings count as absent. */
  function ShownName(displayName: Option<string>, venmoHandle: Option<string>, userId: string): (name: string)
    ensures Truthy(displayName) ==> name == displayName.value
    ensures !Truthy(displayName) && Truthy(venmoHandle) ==> name == venmoHandle.value
    ensures !Truthy(displayName) && !Truthy(venmoHandle) ==> name == Take(userId, 8)
  {
    OrElse(displayName, OrElse(venmoHandle, Some(Take(userId, 8)))).value
  }

  datatype Standing = Standing(userId: string, displayName: Option<string>, venmoHandle: Option<string>,
                               gameNet: real, isMe: bool, wasKicked: bool)

  predicate SortedByNetDescending(s: seq<Standing>)
  {
    forall i, j :: 0 <= i < j < |s| ==> s[i].gameNet >= s[j].gameNet
  }

  /** Places x before the first entry whose net is not greater, keeping equal entries in order. */
  function Insert(x: Standing, sorted: seq<Standing>): (r: seq<Standing>)
    requires SortedByNetDescending(sorted)
    ensures SortedByNetDescending(r)
    ensures multiset(r) == multiset(sorted) + multiset{x}
    ensures |r| == |sorted| + 1
    ensures r[0] == x || (sorted != [] && r[0] == sorted[0])
  {
    if sorted == [] || sorted[0].gameNet <= x.gameNet then
      [x] + sorted
    else
      var rest := Insert(x, sorted[1..]);
      assert sorted == [sorted[0]] + sorted[1..];
      assert rest[0].gameNet <= sorted[0].gameNet;
      assert forall k :: 0 <= k < |rest| ==> rest[k].gameNet <= rest[0].gameNet;
      [sorted[0]] + rest
  }

  /** `[...standings].sort((a, b) => b.game_net - a.game_net)`: a reordered copy, highest net
      first. */
  function Standings(players: seq<Standing>): (r: seq<Standing>)
    ensures SortedByNetDescending(r)
    ensures multiset(r) == multiset(players)
    ensures |r| == |players|
  {
    if players == [] then []
    else
      assert players == [players[0]] + players[1..];
      Insert(players[0], Standings(players[1..]))
  }

  datatype Badge = Gain | Loss | Even

  /** `NetBadge`: gains and losses within a cent of zero are shown as $0. */
  function Classify(value: real): (b: Badge)
    ensures b == Gain <==> value > 0.01
    ensures b == Loss <==> value < -0.01
    ensures b == Even <==> -0.01 <= value <= 0.01
  {
    if value > 0.01 then Gain else if value < -0.01 then Loss else Even
  }
}
