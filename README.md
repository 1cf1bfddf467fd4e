# chipCount game ledger in Dafny

chipCount tracks home poker games. A host starts a game and other users join it
with a short code. The host admits or denies them and records how much each player
cashed in and out. Players may ask for changes to their own amounts. The host may
close the session and reopen it, hand the host role to another player, and end the
game. Ending the game settles it and records each player's profit.

This project models the rules behind all of that:

- `Schema` (`schema.dfy`): the store's rows. These are games, player rows keyed by
  (game, user) whose four cash columns may be null, profiles, and a log of the
  database procedures invoked.
- `Actions` (`actions.dfy`): the server actions. Each one is a function from the store
  before the call to an outcome and the store after it.
- `Server` (`server.dfy`): a `Store` class holding the tables as fields. Its methods
  run the same guards step by step and update the tables in place. Each method is
  proved equal to its `Actions` function.
- `DashboardActions` (`dashboard_actions.dfy`): starting and joining a game. This
  covers profile creation, code normalisation, the active-game lookup and the
  duplicate-join rejection.
- `GameSession` (`game_session.dfy`): the live game page. It normalises fetched rows,
  gives every approved player a unique settlement name (the `makeName` loop) and
  maps the settlement back to user ids before ending the game. It also holds the
  row patches for the host's and the player's edits, and a `Session` class whose
  player list those edits update.
- `ProfileCache` (`profile_cache.dfy`): the five-minute profile cache, as a class over a map.
- `Middleware` (`middleware.dfy`): the protected-path test and the redirect decision.
- `DashboardPage` (`dashboard_page.dfy`): which memberships the dashboard lists and
  the role label of each.
- `Metrics` (`metrics.dfy`): chart range, history search, pot, shown names, standings
  order and the net badge.
- `NetProfitGraph` (`net_profit_graph.dfy`): the running-total points of the profit graph.
- `Common` (`common.dfy`): the JavaScript behaviour the code relies on. This covers
  truthiness, `||`, `trim`, `toLowerCase` on ASCII, `includes`, `slice`, `filter`
  and summing.

The environment is passed in as parameters rather than modelled:

- the signed-in user (`None` when there is none);
- whether each store write or procedure call fails, and with which message;
- the ids and codes the store generates;
- the current time;
- the settlement function `calcPayouts`.

Money is `real`.

The host of a game should be an approved player of it. The database does not enforce
this. The model proves that each of the six server actions in `lib/actions.ts` keeps it
(the `...KeepsHostsApproved` lemmas). Two other writes can break it:

- `DashboardActions.StartGame` keeps the new game row when inserting the host's player row fails.
- The game page's unchecked row edits (`GameSession.Session.UpdatePlayerFields`) may write any status, the host's included.

## Model

| member | source | states |
|---|---|---|
| Actions.HostCheck | lib/actions.ts:39-51 | a host-only action may go on exactly when there is a caller, the game exists and the caller is its host; otherwise it fails with not authenticated, game not found or not the host, in that order |
| Actions.WithStatus | lib/actions.ts:64-67 | a status update changes only the named game's status, and nothing when the game does not exist |
| Actions.ClearCash | lib/actions.ts:72-82 | reopening nulls all four cash columns of every row of that game, keeps their statuses, and leaves other games' rows unchanged |
| Actions.CloseSessionProcedure | lib/actions.ts:11-14 | a `close_session` call is logged with its final status; on success the game takes that status (closed when none is given), on failure no table changes; player rows and profiles are never touched |
| Actions.CloseGame | lib/actions.ts:6-30 | ending a game has no host check and never reports an error; it logs the `close_session` call with final status ended; unless both the procedure and the fallback write fail, the game's status becomes ended and the rest of its row is kept; if both fail, no game changes; players and profiles are untouched |
| Actions.SetGameStatus | lib/actions.ts:32-86 | after the host check, closing makes no direct write, delegates to `close_session` and fails with that procedure's own error message; reopening sets the status, then clears the game's amounts unless that write fails; a failed status update fails with the store's message and changes nothing |
| Actions.KickPlayer | lib/actions.ts:87-114 | host only, never oneself; a failed write fails with the store's message; on success only the target's row changes, to denied; a failure changes nothing |
| Actions.RequestRejoin | lib/actions.ts:116-135 | the caller's own row goes from denied to pending; with any other status, or no row, nothing changes and no error is raised; a failed write fails with the store's message |
| Actions.UpdateRequestedAmounts | lib/actions.ts:137-172 | given a successful read of the caller's row, fails with "Not a player" exactly when the caller has no pending or approved row; otherwise writes only the two requested columns of the caller's own row, and a failed write fails with the store's message |
| Actions.TransferHost | lib/actions.ts:174-213 | host only; refuses a transfer to oneself and to anyone without an approved row; a failed write fails with the store's message; on success only the game's host changes |
| Actions.HostOnlyActionsGuarded | lib/actions.ts:90-103 | with no caller, a missing game or a caller who is not the host, reopening/closing, kicking and transferring all fail and leave the store exactly as it was |
| Actions.CloseGameKeepsHostsApproved | lib/actions.ts:6-30 | ending a game keeps every host an approved player of their game |
| Actions.SetGameStatusKeepsHostsApproved | lib/actions.ts:32-86 | closing or reopening keeps every host approved |
| Actions.KickKeepsHostsApproved | lib/actions.ts:104-112 | because the host cannot kick themself, kicking keeps every host approved |
| Actions.RequestRejoinKeepsHostsApproved | lib/actions.ts:125-132 | rejoining moves only denied rows, so every host stays approved |
| Actions.UpdateRequestedKeepsHostsApproved | lib/actions.ts:161-170 | requesting amounts keeps every host approved |
| Actions.TransferHostKeepsHostsApproved | lib/actions.ts:191-210 | the host role moves only to an approved player, so every host stays approved |
| Actions.KickThenRejoin | lib/actions.ts:104-132 | a kicked player who asks to rejoin ends up pending with their old amounts, and no other row changes |
| Actions.ReopenClearsOnlyThatGame | lib/actions.ts:64-82 | a successful reopen clears the amounts of that game's rows only and keeps every row's status |
| Server.Store.CheckHost | lib/actions.ts:39-51 | the imperative guard returns exactly the error of `Actions.HostCheck` |
| Server.Store.InvokeCloseSession | lib/actions.ts:55-57 | the procedure call is logged and, on success, sets the game's final status |
| Server.Store.CloseGame | lib/actions.ts:6-30 | the in-place update equals `Actions.CloseGame` |
| Server.Store.SetGameStatus | lib/actions.ts:32-86 | the in-place update and its outcome equal `Actions.SetGameStatus` |
| Server.Store.KickPlayer | lib/actions.ts:87-114 | the in-place update and its outcome equal `Actions.KickPlayer` |
| Server.Store.RequestRejoin | lib/actions.ts:116-135 | the in-place update and its outcome equal `Actions.RequestRejoin` |
| Server.Store.UpdateRequestedAmounts | lib/actions.ts:137-172 | the in-place update and its outcome equal `Actions.UpdateRequestedAmounts` |
| Server.Store.TransferHost | lib/actions.ts:174-213 | the in-place update and its outcome equal `Actions.TransferHost` |
| DashboardActions.LocalPart | components/dashboard-actions.tsx:22 | `split("@")[0]` is the prefix of the address before its first `@` |
| DashboardActions.ProfileName | components/dashboard-actions.tsx:21-26 | a new profile's name is the metadata display name, else full name, else the e-mail's local part, else null, with empty strings skipped |
| DashboardActions.NormalizeCode | components/dashboard-actions.tsx:80-84 | the code is trimmed and lower-cased; it is empty exactly when the input is all white space, and it holds no upper-case letter |
| DashboardActions.NormalizeCodeIdempotent | components/dashboard-actions.tsx:80 | normalising a normalised code changes nothing |
| DashboardActions.ActiveGamesWithCode | components/dashboard-actions.tsx:97-102 | the lookup finds exactly the games with that short code whose status is active |
| DashboardActions.ProfilesAfter | components/dashboard-actions.tsx:28-39 | the upsert with duplicates ignored: on success the user has a profile, no existing profile is overwritten and no other profile appears; on an error the profiles are unchanged |
| DashboardActions.EnsureProfile | components/dashboard-actions.tsx:21-40 | the profiles become `ProfilesAfter`; the store error is passed on; no other table changes |
| DashboardActions.StartErrorMessage | components/dashboard-actions.tsx:72 | an `Error`'s own message, otherwise "Unable to start game" |
| DashboardActions.StartGame | components/dashboard-actions.tsx:42-75 | no user: "Not logged in" and no change; otherwise the profiles become `ProfilesAfter`; the first failure among the profile upsert, the game insert and the player insert is shown through `StartErrorMessage`; with none, the flow goes to the new active game, hosted by the caller, who holds an approved row in it; the game row stays if the player insert fails |
| DashboardActions.JoinGame | components/dashboard-actions.tsx:77-129 | an empty code gives "Enter a game ID" with no store access; no user gives "Not logged in"; otherwise the profiles become `ProfilesAfter`; a profile failure gives "Something went wrong"; unless exactly one active game has the code, "Game not found or not active"; an existing row gives "You already joined this game"; another insert error shows its message; otherwise exactly one pending row for (game, user) is inserted and the flow goes to that game |
| GameSession.Normalize | components/game-session.tsx:72-81 | a non-null amount is kept and a null one becomes 0; a null requested amount takes the confirmed amount; the profile's names are copied, and are null without a profile |
| GameSession.NoRequestNoDiff | components/game-session.tsx:77-78 | a row whose requested amounts are null shows no pending request |
| GameSession.ApprovedPlayers | components/game-session.tsx:56 | exactly the approved rows |
| GameSession.PendingPlayers | components/game-session.tsx:57 | exactly the pending rows |
| GameSession.DecimalRoundTrip | components/game-session.tsx:118 | reading back the decimal string of a counter gives the counter |
| GameSession.CandidateInjective | components/game-session.tsx:115-118 | different counters give different candidate names |
| GameSession.BaseName | components/game-session.tsx:114 | `@` plus the Venmo handle, else the display name, else `Player_` plus the first 8 characters of the id; never empty |
| GameSession.MakeName | components/game-session.tsx:113-122 | the loop ends, and returns the first of base, base_1, base_2, ... not yet issued; that name is then issued |
| GameSession.PayoutEntries | components/game-session.tsx:125-129 | one entry per approved player, in order, with that player's amounts and a name starting with their base name; all names differ |
| GameSession.GameForPayout | components/game-session.tsx:110-131 | nothing with fewer than two approved players; otherwise the non-empty description and those entries |
| GameSession.UserFor | components/game-session.tsx:186-189 | the name map holds a user for a name exactly when some entry has the name, and that user is one of the players |
| GameSession.UserForIsLastEntry | components/game-session.tsx:186-189 | the user found for a name is that of the last entry with the name, since later entries overwrite earlier ones |
| GameSession.UserForDistinct | components/game-session.tsx:186-189 | with distinct names, each entry's name maps to its own player |
| GameSession.NameToUserId | components/game-session.tsx:185-189 | the loop builds exactly that name map |
| GameSession.ProfitDeltas | components/game-session.tsx:190-199 | the deltas exist exactly when every settled name maps to a non-empty user id; there is then one per settled row, with that user and that net |
| GameSession.SettlementMapsBack | components/game-session.tsx:183-199 | if the settlement reports players under the names they were given, every result maps back to the approved player of that name, so ending never aborts on mapping |
| GameSession.Session.EndGame | components/game-session.tsx:183-213 | nothing happens with fewer than two approved players; the `end_game` procedure is called, with those deltas, exactly when every result maps; otherwise nothing is written |
| GameSession.Merge | components/game-session.tsx:152-154 | `{...p, ...patch}`: each field the patch sets is replaced, the rest are kept |
| GameSession.Patched | components/game-session.tsx:152-154 | only the rows of the given user are merged; every other row is unchanged |
| GameSession.Session.UpdatePlayerFields | components/game-session.tsx:135-156 | the store row gets the patch unless the (unchecked) write fails, and the list is patched in any case |
| GameSession.Session.Sync | components/game-session.tsx:62-81 | a failed fetch keeps the list; otherwise the list becomes the normalised rows |
| GameSession.CashPatch | components/game-session.tsx:158-165 | `updateCash` sets both confirmed amounts and both requested amounts to the given values and nothing else |
| GameSession.RequestedPatch | components/game-session.tsx:167-177 | `updateRequestedCash` sets only the two requested amounts |
| GameSession.StatusPatch | components/game-session.tsx:179-181 | `setStatus` sets only the status |
| GameSession.ApproveJoinPatch | components/game-session.tsx:277-283 | approving a join sets approved and copies the requested amounts into the confirmed ones, and nothing else |
| GameSession.ApproveCashInPatch | components/game-session.tsx:383-386 | approving a cash-in request makes the requested cash-in the confirmed one, and nothing else |
| GameSession.DenyCashInPatch | components/game-session.tsx:397-399 | denying a cash-in request resets it to the confirmed cash-in, and nothing else |
| GameSession.ApproveCashOutPatch | components/game-session.tsx:419-422 | approving a cash-out request makes the requested cash-out the confirmed one, and nothing else |
| GameSession.DenyCashOutPatch | components/game-session.tsx:433-435 | denying a cash-out request resets it to the confirmed cash-out, and nothing else |
| GameSession.UpdateCashClearsDiff | components/game-session.tsx:158-165 | after `updateCash` the requested amounts equal the confirmed ones, so no request is pending |
| GameSession.RequestKeepsConfirmed | components/game-session.tsx:167-177 | a player's request changes neither the confirmed amounts nor the status |
| GameSession.ApproveJoinCopiesRequest | components/game-session.tsx:274-283 | approving a pending player sets approved and copies the requested amounts into the confirmed ones |
| GameSession.FieldDecisionsSettleOneField | components/game-session.tsx:383-435 | approving one requested amount copies it into confirmed, and denying copies confirmed back into requested; either way that field's difference is gone and the other field and the status are untouched |
| ProfileCache.Fresh | lib/profile-cache.ts:15-25 | a lookup misses for an absent key and for an entry older than five minutes; an entry exactly five minutes old is still served |
| ProfileCache.SetThenGet | lib/profile-cache.ts:27-32 | a profile stored at time t is served up to t plus five minutes, and not after |
| ProfileCache.SetKeepsOthers | lib/profile-cache.ts:27-32 | storing one user's profile changes no other user's lookup |
| ProfileCache.ExpiryInvisible | lib/profile-cache.ts:19-22 | deleting an expired entry changes no lookup |
| ProfileCache.Cache.Get | lib/profile-cache.ts:15-25 | returns that lookup; an expired entry, and only that key, is deleted |
| ProfileCache.Cache.Set | lib/profile-cache.ts:27-32 | replaces the user's entry with the profile and the current time, other keys unchanged |
| ProfileCache.Cache.Clear | lib/profile-cache.ts:34-36 | afterwards every lookup misses |
| Middleware.AnyUnder | middleware.ts:7-9 | `some`: true exactly when the path is one of the sections or inside one |
| Middleware.IsProtectedPath | middleware.ts:4-10 | protected exactly when the path is `/dashboard`, `/profile` or `/game`, or starts with one of them followed by `/` |
| Middleware.SectionNeedsSlash | middleware.ts:6-10 | `/gamex` and `/profiles` are not protected; `/game/abc` and `/dashboard` are |
| Middleware.Decide | middleware.ts:37-50 | signed out on a protected path: to `/login` with `next` set to the path; signed in on `/` or `/login`: to `/dashboard`; otherwise pass through |
| Middleware.RedirectsDisjoint | middleware.ts:37-48 | `/` and `/login` are not protected, so they are never sent to the login page |
| Middleware.SignedInNeverToLogin | middleware.ts:37-42 | a signed-in user is never sent to the login page |
| DashboardPage.QueryKeeps | app/dashboard/page.tsx:21-26 | the query keeps only non-pending memberships whose game is present and not ended |
| DashboardPage.NotEnded | app/dashboard/page.tsx:28-31 | the page keeps a membership exactly when its game is present and active or closed |
| DashboardPage.Listed | app/dashboard/page.tsx:21-31 | listed memberships are never pending and their game is active or closed; every such membership is listed |
| DashboardPage.SecondFilterRedundant | app/dashboard/page.tsx:26-31 | the page's ended-game filter removes nothing the query kept |
| DashboardPage.RoleLabel | app/dashboard/page.tsx:59-67 | `Host` for the host whatever their status; otherwise `Player`, `Removed` or `Pending` exactly for approved, denied or pending |
| DashboardPage.CardFor | app/dashboard/page.tsx:56-102 | the End Game control appears exactly for the host, and the rejoin hint exactly for a denied membership |
| DashboardPage.Cards | app/dashboard/page.tsx:56-106 | one card per listed membership, in order |
| DashboardPage.CardsShowRoles | app/dashboard/page.tsx:59-102 | no listed card says `Pending`; End Game appears exactly on `Host` cards; the rejoin hint appears only on `Removed` cards or on the host's own |
| Metrics.MaxWithZero | components/game-metrics-client.tsx:72 | the largest of the values and 0 |
| Metrics.MinWithZero | components/game-metrics-client.tsx:73 | the smallest of the values and 0 |
| Metrics.Ceil | components/game-metrics-client.tsx:76 | the least integer not below x |
| Metrics.YDomain | components/game-metrics-client.tsx:69-77 | [-10, 10] for no data; otherwise lower < 0 < upper, and every value lies strictly inside |
| Metrics.SomePlayerMatches | components/game-metrics-client.tsx:177 | true exactly when some player's lower-cased name contains the query |
| Metrics.MatchingSessions | components/game-metrics-client.tsx:175-178 | keeps exactly the sessions whose label or a player name contains the query |
| Metrics.MatchingSessionsConcat | components/game-metrics-client.tsx:175-178 | the filter keeps the sessions' order: the matches of a concatenation are the matches of each part, in turn |
| Metrics.SearchSessions | components/game-metrics-client.tsx:172-179 | a blank search returns the list unchanged; otherwise exactly the sessions matching the lower-cased, untrimmed search |
| Metrics.SearchSessionsInOrder | components/game-metrics-client.tsx:172-179 | the search result keeps the sessions' order, and a single session is shown exactly when the search is blank or it matches |
| Metrics.LowerKeepsBlank | components/game-metrics-client.tsx:173-174 | lower-casing a search makes it neither blank nor non-blank |
| Metrics.SearchIgnoresCase | components/game-metrics-client.tsx:174-177 | searching for the lower-cased text gives the same sessions |
| Metrics.SelectedPayout | components/game-metrics-client.tsx:181-191 | the settlement is computed only for a selected session with at least two players, from its players' names and amounts |
| Metrics.Pot | components/game-metrics-client.tsx:269-271 | the pot is 0 when nobody paid in or out |
| Metrics.ShowsPot | components/game-metrics-client.tsx:283 | the pot is shown only if someone paid in or out |
| Metrics.PotShownIffMoneyMoved | components/game-metrics-client.tsx:269-283 | with non-negative amounts, the pot (total in plus total out) is shown exactly when someone paid in or out |
| Metrics.ShownName | components/game-metrics-client.tsx:345 | display name, else Venmo handle, else the first 8 characters of the user id |
| Metrics.Insert | components/game-metrics-client.tsx:548 | inserting into a list sorted by net, highest first, keeps it sorted and adds exactly that entry |
| Metrics.Standings | components/game-metrics-client.tsx:546-548 | the standings are a permutation of the players, sorted by net, highest first |
| Metrics.Classify | components/game-metrics-client.tsx:79-99 | gain exactly above 0.01, loss exactly below -0.01, otherwise shown as $0 |
| NetProfitGraph.BuildPoints | components/net-profit-graph.tsx:13-36 | no rows give the "no history" view; otherwise one point per row, in row order, whose value is the total of the deltas up to that row; the last point is the overall total; the first point is the first delta, and each later point adds its row's delta to the one before |

## Left out

- `calcPayouts`, `formatDollar`: the settlement algorithm is not part of this model. It is a parameter: an input to `GameSession.Session.EndGame` and a function argument to `Metrics.SelectedPayout`.
- `close_session`, `end_game`: the database procedures are not part of this model. Calls are logged. `close_session` is taken to set the final status, as the callers' comments say. The snapshot and profit tables they write are not modelled.
- Row-level security: the policies are not part of this model. Which writes the store refuses is the failure parameter of each write.
- Actions.HostCheck: an error while reading the game is not told apart from a missing game; the code reports "Game not found" for both.
- Actions.UpdateRequestedAmounts: a failed read of the caller's row is not modelled. The code then throws "Not a player in this game" even when the row exists; the model reads the row without failure.
- Actions.TransferHost: a failed read of the new host's row is not modelled. The code then throws "New host must be an approved player" even when that player is approved; the model reads the row without failure.
- DashboardActions.JoinGame: a failed game lookup is not modelled. The code then shows "Game not found or not active" even when the game exists; the model's lookup does not fail.
- DashboardActions.StartGame: the game row's default status (active) and empty description are assumed, since the table's defaults are not part of this model.
- DashboardActions.JoinGame: the inserted row's cash columns are null, as the code leaves them; the database defaults are not modelled.
- GameSession.Session.EndGame: the page computes the approved players, the payout game and the settlement when it renders; the method takes them as arguments with the relation the render establishes (one entry per approved player).
- GameSession.Session.UpdatePlayerFields: the `updating` flag, a UI spinner state, is not modelled.
- The editing inputs' `parseFloat(...) || 0`: text parsing and NaN are not modelled. Amounts arrive as numbers.
- The realtime subscription that re-runs `syncPlayers`: this is I/O and concurrency. Only its normalisation and the list replacement are modelled.
- Routing, toasts, `revalidatePath`, the clipboard and the middleware's cookie plumbing: side effects with no state in the model.
- Floating point: money is `real`, so rounding and IEEE behaviour (including `|| 1` on NaN in `yDomain`) are not modelled.
- Common.ToLower: only ASCII letters are lower-cased. Unicode case mapping is not modelled.
- Metrics.Standings: stated as sorted and a permutation. That the sort is stable (equal nets keep their order) is not stated.
- The history list is displayed newest first (`reverse`): rendering order only.
- NetProfitGraph.BuildPoints: the date label of each point is not modelled (locale formatting); the point keeps the row's time.
- Rendering-only components (charts, leaderboard, forms, pages, config) are not part of this model.

## Guards the code does not have

The model follows the code, including these gaps:

- Reopening is not restricted to a closed game.
- `updateRequestedAmounts` does not check the game's status.
- Ending from the dashboard (`closeGame`) has no host check and no two-player minimum.
- A joining player's requested amounts are left null, not 0. The game page shows them as the confirmed amounts, which are 0.
- There are no guest players: every player row belongs to a signed-in user.
- The game page's approve, deny and amount edits write the row directly, with no role check of their own.
- The database's status type lists only active and ended. The actions also write and read closed, so `Schema.GameStatus` has all three.
