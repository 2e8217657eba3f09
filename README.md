# Relay: a verified model of the live-commentary core

Relay tracks live sports matches and pushes commentary to viewers over WebSockets. This
project is a Dafny model of the parts of Relay that keep state or compute timing and
ordering. Each part below is proved against its own specification.

- **WebSocket server** (`ws_server.dfy`, class `WsServer.Server`). This covers:
  - the subscription registry, which maps each match id to its set of sockets, and each
    socket's own set of match ids;
  - the message handler: `subscribe` and `unsubscribe` requests, and the reply to
    invalid JSON;
  - the welcome frame, the pong handler, and close/error cleanup;
  - broadcasting to one match or to every client;
  - the 30 s mark-and-sweep heartbeat.

  The server keeps an invariant on every event: the registry and the per-socket sets
  describe the same memberships, and no entry is empty.
- **Older server variant** (`legacy_ws_server.dfy`). It has the same welcome, pong and
  heartbeat logic, but no subscriptions.
- **Shared transport and heartbeat logic** (`transport.dfy`, `liveness.dfy`). This covers:
  - "send to every OPEN socket";
  - the per-socket decision of one heartbeat tick: skip, terminate or ping;
  - the step-by-step account of a whole tick.
- **Replay engine** (`replay.dfy`). Every 2 s it selects the commentary rows that became
  due since the last checkpoint. It spreads their delivery over the next 2 s and moves the
  checkpoint forward only when the query succeeds. Over any run of ticks that do not
  overlap, each row is selected exactly once. The engine records its ticks in a ghost
  history, and its checkpoint is always the one that history leaves behind.
- **Match status** (`match_status.dfy`): the status derived from the clock, and the sync
  that writes it.
- **Seed script** (`seed_text.dfy`, `seed_data.dfy`, `seed_cricket.dfy`, `seed_random.dfy`,
  `seed_times.dfy`). This covers:
  - the innings rank read from a period label;
  - the renaming of a team named in a trailing "(Team)" group;
  - cloning a template match's feed for matches that have none;
  - the cricket reordering;
  - the randomized interleaving of all feeds, where the same match is never drawn twice
    in a row while another match still has entries;
  - the match times and the random delay between created matches;
  - the rows of the direct database seeding, inserted in batches of 500.
- **Browser client** (`api_cache.dfy`, `client_socket.dfy`):
  - the cache updaters that merge a pushed commentary entry or match into the cached
    lists;
  - the socket hook, with exponential reconnect backoff (1, 2, 4, 8, 16 s, and at most five
    reconnects in a row of closes with no successful open in between);
  - subscribe frames, which are sent only on an OPEN socket.
- **Commentary input validation** (`commentary_validation.dfy`): the list-query `limit`
  and the body of a new commentary entry, each modelled as a parser.

### How the model is built

1. **Sockets** are identified by a number. Socket handlers and timers are methods that the
   environment calls, and each method runs to completion. The socket handlers and the
   heartbeat are synchronous callbacks, so the event loop runs each of them to completion.
   The replay tick is an `async` callback that awaits its query. The model treats the whole
   tick as one step (see "## Left out").
2. **Effects on the transport** are appended to a log. These are sends, pings and
   terminations.
3. **JavaScript Sets** are duplicate-free sequences, kept in insertion order.
4. **Seed-file properties** that may be missing are `Field<T>` values (`Undefined`, `Null`
   or a value). This keeps JavaScript's `undefined === undefined` behaviour where the code
   depends on it.
5. **Outside inputs are parameters.** `Math.random()` is a parameter `random: nat -> real`
   holding the draws in order. Date-string parsing is a parameter, and so is the clock
   reading `now`.
6. **Loops become methods.** Each loop of the source is a loop with invariants proved equal to a
   specification function. The source's properties are then proved as lemmas about that
   function.

Three behaviours of the code that the model follows on purpose:

- Within a match, the replay delivers rows in creation-time order (`orderBy(createdAt)`),
  not in `sequence` order.
- A socket's own subscription set is not emptied on close. Only the registry entries are
  removed.
- A socket terminated by the heartbeat leaves the registry through the same `close`
  cleanup as any other socket.

One behaviour of the code deserves mention, and the model proves it as the code is
written. When no entry of a cricket innings names either team, `primaryTeam` is
`undefined`. Entries without a team are then both "neutral" and "equal to the primary
team", so they appear twice in the output. `SeedCricket.LayoutDuplicatesTeamless` and
`SeedCricket.NormalizedDuplicatesTeamless` prove this. `SeedCricket.NormalizedPermutes`
proves that the output is a permutation of the input when this cannot happen.

## Model

| member | source | states |
|---|---|---|
| WsServer.AddSubscriber | backend/src/ws/server.ts:10-18 | The entry of the match is created when absent and gains the socket. Every other entry is unchanged, and membership becomes old membership plus (match, socket). No-empty-entry and set-ness are preserved. |
| WsServer.RemoveSubscriber | backend/src/ws/server.ts:20-27 | An absent entry leaves the registry unchanged. Otherwise the socket leaves the entry, and the entry is deleted exactly when it becomes empty. Membership loses exactly (match, socket), and the invariants are preserved. |
| WsServer.SubscribeIdempotent | backend/src/ws/server.ts:10-18 | Subscribing the same socket twice equals subscribing once. |
| WsServer.SubscribeUnsubscribeRoundTrip | backend/src/ws/server.ts:10-27 | Unsubscribing a socket right after subscribing it, when it was not subscribed before, restores the registry exactly. |
| WsServer.RemoveFromAllMembership | backend/src/ws/server.ts:29-35 | Cleanup removes the socket from exactly the listed matches and keeps every other membership. |
| WsServer.CleanupForgetsSocket | backend/src/ws/server.ts:29-35 | When the list covers every match the socket is in, no entry holds the socket afterwards. |
| WsServer.InvConnect | backend/src/ws/server.ts:107-110 | A fresh socket with an empty set keeps the two-way registry invariant. |
| WsServer.InvSubscribe | backend/src/ws/server.ts:75-85 | A subscribe request keeps the invariant. |
| WsServer.InvUnsubscribe | backend/src/ws/server.ts:87-95 | An unsubscribe request keeps the invariant, whether or not the socket was subscribed. |
| WsServer.InvClose | backend/src/ws/server.ts:125-127 | Closing and cleaning up keeps the invariant. Afterwards the socket is in no entry and all other memberships are kept. |
| WsServer.InvMark | backend/src/ws/server.ts:111-113 | Changing a liveness mark or moving a socket to CLOSING keeps the invariant. |
| WsServer.ProgressStep | backend/src/ws/server.ts:133-143 | Visiting the socket under the cursor advances the heartbeat's progress predicate by one socket. |
| WsServer.Server.constructor | backend/src/ws/server.ts:7-8 | The server starts with no clients, no marks, no subscriptions and no effects. |
| WsServer.Server.Subscribe | backend/src/ws/server.ts:10-18 | The registry becomes `AddSubscriber` of the old registry. |
| WsServer.Server.Unsubscribe | backend/src/ws/server.ts:20-27 | The registry becomes `RemoveSubscriber` of the old registry. |
| WsServer.Server.CleanupSubscriptions | backend/src/ws/server.ts:29-35 | Without a set the registry is unchanged. Otherwise the socket is unsubscribed from every match of its own set. |
| WsServer.Server.SendJson | backend/src/ws/server.ts:49-52 | Exactly one send to an OPEN socket, and nothing otherwise. |
| WsServer.Server.BroadcastToMatch | backend/src/ws/server.ts:37-47 | Without subscribers nothing is sent. Otherwise the payload goes to each OPEN subscriber in set order, once each. |
| WsServer.Server.BroadcastToAll | backend/src/ws/server.ts:54-62 | The payload goes to every OPEN client in client order, subscribed or not. |
| WsServer.Server.BroadcastMatchCreated | backend/src/ws/server.ts:150-152 | A `match_created` frame goes to every OPEN client. |
| WsServer.Server.BroadcastCommentary | backend/src/ws/server.ts:154-156 | A `commentary` frame goes to the OPEN subscribers of the match. |
| WsServer.Server.Connect | backend/src/ws/server.ts:107-115 | The new socket is OPEN, appended to the clients, marked alive, given an empty set and sent the welcome frame. The registry is untouched. |
| WsServer.Server.Pong | backend/src/ws/server.ts:111-113 | The socket is marked alive and nothing else changes. |
| WsServer.Server.StartClosing | backend/src/ws/server.ts:134 | Models the `ws` library moving a socket to CLOSING when a closing handshake starts (no line of the source does this); the socket is then skipped by the `readyState` checks of the heartbeat and of every broadcast. |
| WsServer.Server.Close | backend/src/ws/server.ts:125-127 | The socket leaves the clients and becomes CLOSED. Every registry membership of the socket, and only those, is removed. |
| WsServer.Server.TerminateSocket | backend/src/ws/server.ts:121-123 | A terminate effect, merged with the `close` event that follows it: the socket is closed and cleaned up as on close. |
| WsServer.Server.OnError | backend/src/ws/server.ts:121-123 | The error handler terminates the socket, and afterwards no entry holds it. Every other socket keeps its memberships, and the liveness marks and own subscription sets are unchanged. |
| WsServer.Server.OnSubscribe | backend/src/ws/server.ts:75-85 | The socket joins the registry entry and its own set, and gets a `subscribe` reply if OPEN. |
| WsServer.Server.OnUnsubscribe | backend/src/ws/server.ts:87-95 | The socket leaves the entry and its own set, and gets an `unsubscribed` reply if OPEN. |
| WsServer.Server.HandleMessage | backend/src/ws/server.ts:64-96 | Invalid JSON gets the error reply with no state change. A subscribe or unsubscribe request acts as above. Any other message changes nothing. |
| WsServer.Server.Visit | backend/src/ws/server.ts:133-143 | One heartbeat visit. A socket that is not OPEN is left alone. An OPEN socket marked dead is terminated. Any other is marked dead and pinged. |
| WsServer.Server.Advance | backend/src/ws/server.ts:133-143 | One loop iteration moves the progress predicate from `i` to `i + 1`. |
| WsServer.Server.Heartbeat | backend/src/ws/server.ts:132-144 | The effects are `TickEffects` of the snapshot and the clients are its survivors. Every snapshot socket ends in `AfterBeat` of its old state, and the registry keeps exactly the memberships of the surviving clients. |
| Transport.SendToOpen | backend/src/ws/server.ts:54-62 | At most one send per target. |
| Transport.SendToOpenTargets | backend/src/ws/server.ts:42-46 | An effect is sent exactly when it is a send of the payload to an OPEN target. |
| Transport.SendToOpenOnce | backend/src/ws/server.ts:42-46 | In a duplicate-free collection each OPEN socket receives the payload exactly once, and every other socket receives nothing. |
| Transport.SendToOpenAppend | backend/src/ws/server.ts:57-61 | One more loop iteration appends at most that socket's send. |
| Transport.BeatFor | backend/src/ws/server.ts:134-141 | Skip exactly when not OPEN, reap exactly when OPEN and marked dead, probe exactly when OPEN and alive. |
| Transport.BeatEffects | backend/src/ws/server.ts:136-142 | Skip does nothing, reap is one terminate, probe is one ping. |
| Transport.TickEffectsAre | backend/src/ws/server.ts:132-144 | A tick pings exactly the OPEN alive sockets, terminates exactly the OPEN dead ones, and sends no data. |
| Transport.SurvivorsAre | backend/src/ws/server.ts:136-139 | A tick keeps exactly the sockets it does not terminate. |
| Transport.SilentSocketIsReaped | backend/src/ws/server.ts:132-144 | An OPEN socket that never answers a ping is CLOSED after any two ticks or more. |
| Transport.ClosedStaysClosed | backend/src/ws/server.ts:134 | Ticks never touch a CLOSED socket. |
| Transport.PongingSocketSurvives | backend/src/ws/server.ts:111-113 | An OPEN socket that starts alive and answers every ping before the next tick is still OPEN and alive after any number of ticks. The next tick pings it again. |
| Liveness.TickStep | backend/src/ws/server.ts:133-143 | A visit of the socket under the cursor extends the tick's effects, client list and marks by that socket. |
| Liveness.TickDone | backend/src/ws/server.ts:132-144 | After the last socket, the progress predicate gives the whole tick's effects, survivors and marks. |
| LegacyWsServer.InvConnect | src/ws/server.ts:31-33 | A fresh socket keeps the server invariant. |
| LegacyWsServer.InvClose | src/ws/server.ts:43-48 | A closed socket leaving the clients keeps the invariant. |
| LegacyWsServer.Server.constructor | src/ws/server.ts:22-29 | The server starts empty. |
| LegacyWsServer.Server.SendJson | src/ws/server.ts:7-10 | One send to an OPEN socket, and nothing otherwise. |
| LegacyWsServer.Server.Broadcast | src/ws/server.ts:12-20 | The payload goes to every OPEN client in order. |
| LegacyWsServer.Server.BroadcastMatchCreated | src/ws/server.ts:60-62 | A `match_created` frame goes to every OPEN client. |
| LegacyWsServer.Server.Connect | src/ws/server.ts:31-40 | The new socket is OPEN, appended, marked alive and sent the welcome frame. |
| LegacyWsServer.Server.Pong | src/ws/server.ts:34-36 | The socket is marked alive. |
| LegacyWsServer.Server.StartClosing | src/ws/server.ts:44 | Models the `ws` library moving a socket to CLOSING when a closing handshake starts (no line of the source does this); the heartbeat's `readyState` check on this line then skips it. |
| LegacyWsServer.Server.Close | src/ws/server.ts:47 | Models the `ws` library closing a socket, as `terminate()` on this line or a closing handshake does (the legacy server has no `close` handler): the socket leaves `wss.clients`, which the heartbeat loop at line 43 walks, and becomes CLOSED. |
| LegacyWsServer.Server.TerminateSocket | src/ws/server.ts:46-48 | A terminate effect, merged with the close that follows it: the socket is CLOSED and gone. |
| LegacyWsServer.Server.Visit | src/ws/server.ts:44-52 | One heartbeat visit, as in the backend server. |
| LegacyWsServer.Server.Advance | src/ws/server.ts:43-53 | One loop iteration advances the tick's progress by one socket. |
| LegacyWsServer.Server.Heartbeat | src/ws/server.ts:42-54 | The effects are `TickEffects` of the snapshot, the clients its survivors, and every snapshot socket ends in `AfterBeat` of its old state. |
| MatchStatus.GetMatchStatus | backend/src/utils/match-status.ts:7-24 | `null` exactly for an invalid date. Otherwise the four iff cases: scheduled before the start, finished from the end on, live in between. |
| MatchStatus.Sync | backend/src/utils/match-status.ts:26-35 | A missing end keeps the status with no call. `updateStatus` is called exactly when the computed status differs, and then the stored status becomes the computed one. |
| MatchStatus.SyncTwiceNoCall | backend/src/utils/match-status.ts:26-35 | A second sync at the same clock reading makes no call and keeps the status. |
| MatchStatus.TrackedMatch.constructor | backend/src/utils/match-status.ts:26 | The row starts with its fields and no updates. |
| MatchStatus.TrackedMatch.SyncMatchStatus | backend/src/utils/match-status.ts:26-35 | The method equals `Sync`. The row is assigned only after `updateStatus` has succeeded, and a rejection propagates and leaves the row unchanged. |
| Replay.Window | backend/src/index.ts:29-37 | The rows with `lo < createdAt <= hi`, exactly. |
| Replay.WindowCount | backend/src/index.ts:29-37 | Every row occurs in the window as often as in the table when its time is inside the window, and not at all otherwise. |
| Replay.SortByCreation | backend/src/index.ts:38 | A permutation sorted by creation time. |
| Replay.Query | backend/src/index.ts:29-38 | A possible answer to the query: the window, sorted. |
| Replay.AnswerRows | backend/src/index.ts:29-38 | Any answer holds exactly the window rows, each with its table multiplicity. |
| Replay.DelayFirst | backend/src/index.ts:44 | The first row is delivered at once. |
| Replay.DelayOrder | backend/src/index.ts:44 | Later rows are delivered strictly later, and all before the next tick. |
| Replay.DelayFraction | backend/src/index.ts:44 | Row `i` of `N` goes out at `i/N` of the 2 s period. |
| Replay.Schedule | backend/src/index.ts:40-50 | One timer per row, in row order, each carrying its row. |
| Replay.ScheduleTimes | backend/src/index.ts:40-50 | The first timer is due at the tick. The timers keep row order and are all due before the next tick. |
| Replay.Engine.constructor | backend/src/index.ts:24 | The checkpoint starts at the process start time, with no tick in the history. |
| Replay.Engine.Tick | backend/src/index.ts:26-55 | The tick is appended to the history, and the checkpoint stays the one the history leaves behind. A failed query changes nothing else. A successful one schedules its rows and sets the checkpoint to the tick's own `now`. |
| Replay.Engine.RecordRows | backend/src/index.ts:40-51 | Every row is scheduled in order, and then the checkpoint becomes `now`. |
| Replay.Engine.Fire | backend/src/index.ts:46-49 | The fired timer leaves the pending list and broadcasts its row to the row's match. |
| Replay.CheckpointBounds | backend/src/index.ts:51 | With a clock that never goes back, the checkpoint stays between its start and the latest clock reading. |
| Replay.SelectedExactlyOnce | backend/src/index.ts:26-55 | Over any ticks whose clock never goes back, failed ones included, a row with `cp0 < createdAt <= checkpoint` is selected exactly once and any other row never. |
| Replay.Engine.SelectedOnceSoFar | backend/src/index.ts:26-55 | For the engine's own history, when its clock never went back: a row created after the start and no later than the current `lastSimulationCheck` has been selected exactly once, and any other row never. |
| SeedText.Lower | backend/src/data/seed.ts:277 | Lower-casing is character by character. |
| SeedText.OrdinalAtIsRegexMatch | backend/src/data/seed.ts:278 | At a start position, `/(\d+)(st\|nd\|rd\|th)/` matches exactly when the greedy digit run is followed by a suffix, and it ends there. |
| SeedText.FirstOrdinal | backend/src/data/seed.ts:278 | The leftmost match position, or none when no position matches. |
| SeedText.InningsRankWords | backend/src/data/seed.ts:273-295 | Falsy gives 0. Without an ordinal, the first of the words first/second/third/fourth gives the rank, and otherwise 0. |
| SeedText.InningsRankOrdinal | backend/src/data/seed.ts:278-281 | With a leftmost ordinal match, the rank is the number in its digit group. |
| SeedText.InningsRankFirstInnings | backend/src/data/seed.ts:278-281 | "1st Innings" is innings 1. |
| SeedText.InningsRankSecondInnings | backend/src/data/seed.ts:285-287 | "Second innings" is innings 2. |
| SeedText.InningsRankUnknown | backend/src/data/seed.ts:273-295 | "Pre-match" is innings 0. |
| SeedText.CricketBattingTeamOrdinal | backend/src/data/seed.ts:297-306 | When the period's leftmost ordinal reads 1 the home team bats, when it reads 2 the away team, and for any other number no team. |
| SeedText.CricketBattingTeamWords | backend/src/data/seed.ts:297-306 | A falsy period names no team. Without an ordinal, "first" names the home team, "second" without "first" the away team, and neither word no team. |
| SeedText.CricketBattingTeamLabels | backend/src/data/seed.ts:297-306 | "1st Innings" is batted by the home team, "Second innings" by the away team, and "Pre-match" by neither. |
| SeedText.TrailingFrom | backend/src/data/seed.ts:375 | Whether `/\(([^)]+)\)\s*$/` matches from a position, and where it closes. |
| SeedText.TrailingUnique | backend/src/data/seed.ts:375 | From a given start the group can close only at the first `)`. |
| SeedText.FindTrailing | backend/src/data/seed.ts:375 | The leftmost match of the trailing-group pattern, or none. |
| SeedText.SubstitutePlain | backend/src/data/seed.ts:383 | A replacement without `$` is inserted as written. |
| SeedText.ReplaceTrailingTeam | backend/src/data/seed.ts:371-384 | A non-string message, or one without a trailing group, is returned unchanged, and the result is `null` only for a `null` message. |
| SeedText.ReplaceTrailingTeamUnmapped | backend/src/data/seed.ts:379-382 | A group that names no mapped team, or a team mapped to a falsy value, leaves the message as it is. |
| SeedText.ReplaceTrailingTeamRewrites | backend/src/data/seed.ts:375-383 | A trailing "(X)", where X maps to a non-empty team Y without `$`, becomes "(Y)". The text before it is kept and the trailing space is dropped. |
| SeedData.Replacements | backend/src/data/seed.ts:387-390 | The map has the two template team names as keys. The away name maps to the target away team, and so does the home name when the two names are equal (the later pair wins). |
| SeedData.CloneCommentaryEntriesShape | backend/src/data/seed.ts:386-402 | The clone keeps the length and every property except three. The match id becomes the target's. A team naming a template team becomes the target's team. The message goes through `replaceTrailingTeam`. |
| SeedData.CloneRenamesTrailingHomeTeam | backend/src/data/seed.ts:386-402 | A cloned message ending with the template home team's group is renamed to the target home team. |
| SeedData.TemplateIsFirst | backend/src/data/seed.ts:420-425 | A sport has a template exactly when some seed match of that sport has entries, and the template is the first such match. |
| SeedData.GroupsAre | backend/src/data/seed.ts:409-418 | The `byMatchId` map holds exactly the integer ids that have entries, each with its entries in feed order. |
| SeedData.GroupByMatchId | backend/src/data/seed.ts:409-418 | The first loop computes `Groups`. |
| SeedData.PickTemplates | backend/src/data/seed.ts:420-425 | The second loop maps each sport to its template. |
| SeedData.ClonesForMatch | backend/src/data/seed.ts:428-440 | One iteration of the last loop: nothing for a match with entries or without a template, else the template's clones. |
| SeedData.AppendClones | backend/src/data/seed.ts:427-442 | The last loop appends the clones of every seed match, in order. |
| SeedData.ExpandFeedForMatches | backend/src/data/seed.ts:404-443 | The method equals `Expanded`. |
| SeedData.ExpandedShape | backend/src/data/seed.ts:404-443 | The input feed is a prefix of the result. It is returned unchanged when every seed match has entries or there are none. Every appended entry is the clone, for an entry-less match, of an entry of that sport's template. |
| SeedData.NoClonesWithoutMissing | backend/src/data/seed.ts:428-431 | Seed matches that all have entries get no clones. |
| SeedCricket.InsertEntrySorted | backend/src/data/seed.ts:309-326 | Insertion keeps the comparator's order. |
| SeedCricket.SortEntries | backend/src/data/seed.ts:309-326 | The sort is a permutation. |
| SeedCricket.InsertEntryStable | backend/src/data/seed.ts:309-326 | Inserting an entry puts it before every entry with the same key and leaves the order of those entries unchanged. |
| SeedCricket.SortEntriesStable | backend/src/data/seed.ts:309-326 | The sort is stable: for every key, the entries with that key come out in their input order. |
| SeedCricket.SortEntriesSorted | backend/src/data/seed.ts:309-326 | The result is ordered by (innings rank, finite sequence, finite minute). |
| SeedCricket.RankKeysMembers | backend/src/data/seed.ts:328-335 | The `grouped` keys are exactly the ranks that occur. |
| SeedCricket.RankKeysIncreasing | backend/src/data/seed.ts:328-338 | On the sorted feed the keys come out strictly increasing, so the key sort changes nothing. |
| SeedCricket.SortKeysAscending | backend/src/data/seed.ts:338 | Sorting keys that are already ascending is the identity. |
| SeedCricket.PrimaryTeam | backend/src/data/seed.ts:342-344 | The result is home, away or `undefined`; it names a team when some entry does, and is `undefined` when none does. |
| SeedCricket.PrimaryIsFirst | backend/src/data/seed.ts:342-344 | When entry i is the first entry naming home or away, the primary team is that entry's team, as `find` scans from the front. |
| SeedCricket.GroupByInnings | backend/src/data/seed.ts:328-335 | The grouping loop computes `Grouped` and the keys in insertion order. |
| SeedCricket.LayoutInnings | backend/src/data/seed.ts:341-365 | One innings laid out as neutral, primary, secondary, then other. |
| SeedCricket.AppendInnings | backend/src/data/seed.ts:340-366 | One round of the layout loop appends that innings' layout. |
| SeedCricket.LayoutAllInnings | backend/src/data/seed.ts:337-368 | The layout loop gives `Layouts` of the sorted keys. |
| SeedCricket.NormalizeCricketFeed | backend/src/data/seed.ts:308-369 | The method equals `Normalized`. |
| SeedCricket.NormalizedMembers | backend/src/data/seed.ts:308-369 | The output holds only input entries. |
| SeedCricket.NormalizedRanks | backend/src/data/seed.ts:337-368 | The output's innings ranks never decrease. |
| SeedCricket.LayoutCount | backend/src/data/seed.ts:348-365 | An entry occurs in its innings' layout once for each of the four parts it belongs to. |
| SeedCricket.LayoutPermutes | backend/src/data/seed.ts:348-365 | With distinct real team names and an innings naming one of them, the layout is a permutation of the innings. |
| SeedCricket.LayoutDuplicatesTeamless | backend/src/data/seed.ts:342-357 | In an innings naming neither team, an entry without a team is laid out twice. |
| SeedCricket.NormalizedPermutes | backend/src/data/seed.ts:308-369 | With good team names and every innings naming one of them, the output is a permutation of the input. |
| SeedCricket.NormalizedCount | backend/src/data/seed.ts:308-369 | Each entry occurs in the output as often as in its innings' layout. |
| SeedCricket.NormalizedDuplicatesTeamless | backend/src/data/seed.ts:342-365 | A teamless entry of an innings that names neither team occurs twice in the output. |
| SeedCricket.NormalizedPartsSorted | backend/src/data/seed.ts:348-363 | Each of the four parts of every innings keeps the sort order. |
| SeedRandom.BucketKeysMembers | backend/src/data/seed.ts:446-453 | The bucket keys are exactly the keys that occur, with every non-integer id sharing the `null` bucket. |
| SeedRandom.BucketFeed | backend/src/data/seed.ts:446-453 | The bucketing loop gives `Buckets` and the keys in insertion order. |
| SeedRandom.NormalizeBuckets | backend/src/data/seed.ts:455-464 | Each integer-keyed cricket bucket is replaced by its normalized feed and every other bucket is kept. |
| SeedRandom.NormalizeBucket | backend/src/data/seed.ts:456-463 | One iteration of the normalization loop. |
| SeedRandom.CandidatesMembers | backend/src/data/seed.ts:471-473 | The candidates are exactly the keys whose bucket still has entries. |
| SeedRandom.Selectable | backend/src/data/seed.ts:478-484 | Non-empty when there are candidates, and drawn from them. |
| SeedRandom.Pick | backend/src/data/seed.ts:486 | `Math.floor(draw * n)` is an index below `n`. |
| SeedRandom.Choice | backend/src/data/seed.ts:486 | The chosen bucket is a candidate. |
| SeedRandom.SelectBucket | backend/src/data/seed.ts:471-486 | The loop stops exactly when no bucket has entries; otherwise it picks `Choice`. |
| SeedRandom.Interleave | backend/src/data/seed.ts:466-492 | The `while` loop emits the entries of `Run`. |
| SeedRandom.BuildRandomizedFeed | backend/src/data/seed.ts:445-493 | The method equals `Randomized`. |
| SeedRandom.RandomizedLength | backend/src/data/seed.ts:470 | The output is never longer than the feed. |
| SeedRandom.RunDrainsInOrder | backend/src/data/seed.ts:487 | What is drawn from each bucket is a prefix of that bucket. |
| SeedRandom.RandomizedKeepsBucketOrder | backend/src/data/seed.ts:445-493 | A match's entries appear in the output in bucket order. For a non-cricket match that order is the feed order. |
| SeedRandom.RepeatOnlyWhenAlone | backend/src/data/seed.ts:478-484 | Drawing the last drawn integer bucket again means no other bucket had entries left. |
| SeedRandom.RandomizedNoRepeat | backend/src/data/seed.ts:470-490 | When two consecutive outputs come from the same integer match, every other bucket has already been emitted in full. |
| SeedRandom.RunPermutes | backend/src/data/seed.ts:470-490 | Given room, the run emits exactly the buckets' entries. |
| SeedRandom.RandomizedPermutes | backend/src/data/seed.ts:445-493 | Where normalization keeps each bucket's contents, the output is a permutation of the feed. |
| SeedRandom.RandomizedPermutesWithoutCricket | backend/src/data/seed.ts:455-464 | With no cricket match among the targets, the output is a permutation of the feed. |
| SeedTimes.IsLiveMatchIsLiveStatus | backend/src/data/seed.ts:163-171 | The seed script's `isLiveMatch` holds exactly when `getMatchStatus` would call the match live. |
| SeedTimes.FalsyTimesNotLive | backend/src/data/seed.ts:155-168 | A falsy start or end is never live. |
| SeedTimes.BuildMatchTimesNeverThrows | backend/src/data/seed.ts:199-201 | The `throw` is unreachable, because after filling both times are always set. |
| SeedTimes.BuildMatchTimesFills | backend/src/data/seed.ts:177-190 | Without forcing, the times are the given ones. A missing one is filled one duration from the other, and with both missing the match starts five minutes before `now`. |
| SeedTimes.BuildMatchTimesForcedLive | backend/src/data/seed.ts:192-197 | With forcing and a duration over five minutes, the match is live at `now`. Times that were already live are kept. |
| SeedTimes.ShortForcedMatchNotLive | backend/src/data/seed.ts:192-197 | With a duration of at most five minutes, forcing does not make the match live. |
| SeedTimes.RandomMatchDelay | backend/src/data/seed.ts:502-505 | The delay lies in [2000, 3000] ms. |
| SeedTimes.RandomMatchDelayCovers | backend/src/data/seed.ts:502-505 | Every whole millisecond value in [2000, 3000] is reachable. |
| SeedTimes.MatchInsertsSchedule | backend/src/data/seed.ts:64-81 | Row `i` starts `10 s + i` minutes after `baseNow` and lasts 2 h, is live, and copies the sport and teams. Scores default to 0. |
| SeedTimes.FindFirst | backend/src/data/seed.ts:95-101 | `find` gives nothing exactly when no element qualifies, and otherwise the first that does. |
| SeedTimes.CommentaryValueShape | backend/src/data/seed.ts:90-126 | A row is built exactly when a stored match is found, and then carries that match's id and is timed `minute * 10` s after its start. For a numeric id, the match has the teams of the seed match with that id. |
| SeedTimes.KeepRowsDropsOnlyNull | backend/src/data/seed.ts:127 | The `typeof matchId === 'string'` test never drops a built row. Only the `null` results go. |
| SeedTimes.CommentaryValuesAre | backend/src/data/seed.ts:90-127 | The rows written are exactly the built rows, one per entry with a stored match. |
| SeedTimes.CreatedAtWithinMatch | backend/src/data/seed.ts:110-112 | An entry lands within its match's two hours exactly when its minute is below 720. |
| SeedTimes.ChunksFlatten | backend/src/data/seed.ts:131-134 | The batches concatenate back to the whole list, in order. |
| SeedTimes.ChunksSizes | backend/src/data/seed.ts:131-134 | Every batch has 1 to 500 rows, and all but the last have exactly 500. |
| SeedTimes.ChunksCount | backend/src/data/seed.ts:131-134 | There are ⌈n/500⌉ batches. |
| SeedTimes.InsertInChunks | backend/src/data/seed.ts:129-134 | The insert loop hands the database exactly `Chunks` of the rows, in order. |
| ApiCache.AddCommentaryCases | frontend/src/hooks/useApiData.ts:41-51 | No cache gives `[c]`. A known id leaves the list unchanged. A new id is prepended, so the length grows by one. |
| ApiCache.AddCommentaryKeeps | frontend/src/hooks/useApiData.ts:41-51 | The result has an entry with the id, keeps every old entry, and adds nothing but `c`. |
| ApiCache.AddCommentaryIdempotent | frontend/src/hooks/useApiData.ts:45-46 | Delivering the same entry twice equals delivering it once. |
| ApiCache.AddCommentaryUniqueIds | frontend/src/hooks/useApiData.ts:45-50 | A list without repeated ids stays so. |
| ApiCache.UpdateMatchesCases | frontend/src/hooks/useApiData.ts:59-70 | No cache gives `[m]`. A known id is replaced in place with the length unchanged and all other entries kept. An unknown id is prepended. |
| ApiCache.UpdateMatchesLatest | frontend/src/hooks/useApiData.ts:59-70 | The match is in the list, and every entry with its id is it. |
| ApiCache.UpdateMatchesIdempotent | frontend/src/hooks/useApiData.ts:59-70 | Pushing the same match twice equals pushing it once. |
| ApiCache.UpdateMatchesUniqueIds | frontend/src/hooks/useApiData.ts:59-70 | A list without repeated ids stays so. |
| ApiCache.UpdateMatch | frontend/src/hooks/useApiData.ts:55-72 | The detail entry of the id becomes `m` and all other entries are kept. The list holds `m`. |
| ClientSocket.Backoff | frontend/src/hooks/useWebSocket.ts:50-51 | A delay exists exactly while fewer than five attempts have been used. |
| ClientSocket.BackoffIsListed | frontend/src/hooks/useWebSocket.ts:51 | Every delay is one of 1, 2, 4, 8 or 16 s. |
| ClientSocket.BackoffsFromStart | frontend/src/hooks/useWebSocket.ts:50-55 | From a fresh start, successive closes with no successful open in between wait 1000, 2000, 4000, 8000 and 16000 ms, and no more reconnects follow in that row. |
| ClientSocket.BackoffsShape | frontend/src/hooks/useWebSocket.ts:17 | At most `5 - attempts` reconnects remain, and each delay doubles the one before. |
| ClientSocket.Client.constructor | frontend/src/hooks/useWebSocket.ts:12-17 | Not connected, no message, zero attempts, no socket, no timer. |
| ClientSocket.Client.Connect | frontend/src/hooks/useWebSocket.ts:24-27 | A new CONNECTING socket becomes the one in use. |
| ClientSocket.Client.OnOpen | frontend/src/hooks/useWebSocket.ts:29-33 | Connected, and the attempt count is reset to 0. |
| ClientSocket.Client.OnMessage | frontend/src/hooks/useWebSocket.ts:35-43 | A parsed message becomes the last message. An unparseable one is dropped and nothing changes. |
| ClientSocket.Client.OnClose | frontend/src/hooks/useWebSocket.ts:45-57 | Disconnected. While attempts remain, one pending timer with the backoff delay is started and recorded in the ref. |
| ClientSocket.Client.TimerFires | frontend/src/hooks/useWebSocket.ts:52-55 | One more attempt is counted, then a new socket is created. |
| ClientSocket.Client.Disconnect | frontend/src/hooks/useWebSocket.ts:68-75 | The pending timer in the ref is cleared, the socket in use starts closing, and the reference is dropped. The socket's `onclose` handler stays installed. |
| ClientSocket.Client.SendIfOpen | frontend/src/hooks/useWebSocket.ts:78-84 | A frame is sent only on an OPEN socket in use. |
| ClientSocket.Client.SubscribeTo | frontend/src/hooks/useWebSocket.ts:77-85 | A `subscribe` frame is sent only when OPEN, and nothing else changes. |
| ClientSocket.Client.UnsubscribeFrom | frontend/src/hooks/useWebSocket.ts:87-95 | An `unsubscribe` frame is sent only when OPEN, and nothing else changes. |
| CommentaryValidation.ParseLimitCases | src/validation/commentary.ts:3-5 | Missing means no limit. It is a limit exactly when the coerced number lies in (0, 100], and otherwise invalid. |
| CommentaryValidation.FractionalLimitAccepted | src/validation/commentary.ts:4 | A non-integer limit such as 2.5 is accepted. |
| CommentaryValidation.EmptyLimitRejected | src/validation/commentary.ts:4 | An empty `limit=` coerces to 0 and is rejected. |
| CommentaryValidation.RepeatedLimitRejected | src/validation/commentary.ts:4 | A repeated `limit` parameter coerces to NaN and is rejected. |
| CommentaryValidation.StringsAll | src/validation/commentary.ts:16 | `z.array(z.string())` accepts an array exactly when every item is a string. |
| CommentaryValidation.StringsRoundTrip | src/validation/commentary.ts:16 | A list of strings, encoded as a JSON array, parses back to itself. |
| CommentaryValidation.StringsInverse | src/validation/commentary.ts:16 | An accepted array is exactly the encoding of the strings it yields. |
| CommentaryValidation.ParseNewCommentaryAccepts | src/validation/commentary.ts:7-17 | A body is accepted exactly when it is an object with all nine members well-typed: `minute` a non-negative integer, `sequence` an integer, `message` non-empty, `metadata` an object, `tags` an array of strings. |
| CommentaryValidation.ParseEncode | src/validation/commentary.ts:7-17 | Every entry with a non-empty message survives encoding and parsing unchanged. |
| CommentaryValidation.EncodeParse | src/validation/commentary.ts:7-17 | The accepted value is the input's nine members and nothing else. |
| CommentaryValidation.MissingMemberRejected | src/validation/commentary.ts:7-17 | Leaving out any one member rejects the body. |
| CommentaryValidation.NewCommentaryBounds | src/validation/commentary.ts:8-14 | A negative or fractional minute, a fractional sequence and an empty message are each rejected. A negative sequence is accepted. |

## Left out

- These are not modelled, because they are request plumbing and I/O outside the core:
  - Express routing and database access (`backend/src/routes/*`, the server wiring in
    `backend/src/index.ts`);
  - the REST client;
  - the UI components;
  - the console logging.
- The database query of the replay tick is an oracle. `Replay.Engine.Tick` receives its
  answer, which must be one possible answer: the rows of the window in ascending
  `createdAt`, with ties in any order. How the database orders rows with equal `createdAt`
  is not modelled.
- `Replay.Engine.Tick`: each tick is one atomic step, from reading `lastSimulationCheck`
  to assigning it. In the source the tick awaits its query, so a query slower than the 2 s
  period lets the next tick read the same checkpoint and select the same rows again. A
  slow tick that finishes last can also move the checkpoint backwards. The exactly-once
  property therefore holds only for ticks that do not overlap.
- `setTimeout`, `setInterval` and the delivery of socket events are not modelled as
  timers. Their callbacks are methods the environment calls, one at a time and each to
  completion. Concurrency beyond that interleaving is not modelled.
- JSON serialisation and parsing are not modelled:
  - frames are datatypes;
  - `JSON.parse` of an inbound frame is represented by its outcome (`WsServer.Inbound`, or
    the parser parameter of `ClientSocket.Client.OnMessage`).
- `new Date(text)` is a parameter `DateParser` of the seed times, and `toISOString`,
  `getTime` and the `Date` range limit are not modelled. `SeedTimes.BuildMatchTimes`
  therefore does not model the `RangeError` of `toISOString` for dates beyond ±8.64e15 ms.
- `SeedTimes.RandomMatchDelay` and `Replay.Delay` compute on exact reals instead of IEEE
  doubles. `(2000 / N) * i` may round in the source, but the ordering the lemmas state
  holds for the rounded values only in the usual, non-overflowing range.
- `Math.random()` is an oracle whose `k`-th value lies in [0, 1). The seed script's other
  uses of `Math.random()` (`fakeNext`) and its HTTP-driven `seed()` loop (reading
  `seed.json` and creating matches over the API) are I/O and are not modelled.
- Environment variables are modelled as plain parameters: `DELAY_MS`,
  `SEED_MATCH_DURATION_MINUTES` (a `parseInt` that may give NaN is not modelled) and
  `SEED_FORCE_LIVE`.
- Some JavaScript values are not modelled:
  - numeric match ids that are not integers (a JSON `1.5`);
  - NaN and infinite numbers;
  - `parseInt` itself.

  Seed-file numbers are integers, and a JSON text holds no NaN.
- `SeedText.InningsRank`: the digits of an ordinal are read as an exact natural number.
  The source's `Number(...)` rounds digit runs beyond 2^53 to the nearest double and gives
  `Infinity` past about 309 digits. So two very long ordinals that the source ranks equal,
  and groups together, get different ranks in the model.
- `toLowerCase` is modelled on the ASCII range only. Other Unicode case mappings are not
  modelled.
- The `matchMap` of `buildRandomizedFeed` is a `map<int, Match>` of the targets. Their
  sport is read, and so are their two team names, which `normalizeCricketFeed` receives.
  Nothing else of a match is read.
- `SeedRandom.RandomizedPermutes`: requires that normalization keeps each bucket's
  contents. Normalization can duplicate teamless entries (see above), so the result is
  proved unconditionally only without cricket (`SeedRandom.RandomizedPermutesWithoutCricket`).
- `SeedCricket.NormalizedPermutes`: requires distinct team names that are neither empty
  nor "neutral", and every innings naming one of them. The duplicating case is stated
  separately by `SeedCricket.NormalizedDuplicatesTeamless`.
- `CommentaryValidation.ParseLimitCases`: JavaScript's `Number(text)` grammar is a
  parameter. Only the array and object cases (NaN, or the single element) are modelled.
- `WsServer.Server.TerminateSocket` and `LegacyWsServer.Server.TerminateSocket`: in `ws`,
  `terminate()` moves the socket to CLOSING and the `close` event follows later. The model
  merges `terminate()` and that later `close` event into one step. Every send checks for
  OPEN, so no frame can reach the socket in between either way.
- `ClientSocket.Client`: the React state setters are modelled as plain field updates, so
  re-rendering and the optional callbacks (`onConnect`, `onMessage`, `onDisconnect`,
  `onError`) are not modelled. The `try`/`catch` around `new WebSocket` in `connect` is not
  modelled either, since the URL is a constant. After a timer fires, the timer ref keeps
  its handle; clearing a fired timer does nothing, as with `clearTimeout`. A frame whose
  text is `null` parses to `null` and sets `lastMessage` to `null`. The model's parser
  outcome cannot express that, so such a frame cannot be told apart from "no message yet".
- `ApiCache`: `setQueriesData` applies the commentary updater to every cached list under
  the key prefix. The model states the updater for one list.
- The `(matchId, sequence)` uniqueness constraint of the commentary table is not used.
  Insert conflicts are REST behaviour and do not reach the core.
