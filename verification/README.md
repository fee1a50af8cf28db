# Proofs about the client connection, URL guard and diagnostics

A Dafny model of the parts of this repository that keep a promise across many calls, and proofs of those
promises over every input or every run. `dafny verify dfyconfig.toml` checks it.

| files | what they model |
|---|---|
| `Backoff`, `Reconnect`, `ReconnectingClient` | the reconnect machine of `createConnection`: atomic steps on a state value, and the class whose store notifications may call back into it |
| `Outcomes` | what each event comes to, by its codes, limits and clocks |
| `Following` | the module-level `followStore`, which survives replacement of the singleton from inside its own callbacks |
| `FlowControl` | the flow-control window |
| `Holds`, `Hearing`, `Registry` | topic reference counts, store ownership, and which listeners an event reaches |
| `Subscriptions`, `Sessions` | everything that puts a subscribe frame on the wire |
| `Recovery` | what is remembered of a topic's sequence, and how a recovery moves it |
| `Chunking`, `BatchFrames` | the byte-bounded batchers and the size of their serialized frames |
| `Text`, `Utf8`, `Json`, `JsonProofs` | UTF-16 strings, UTF-8, JSON.stringify and JSON.parse |
| `Diagnostic`, `DiagnosticProofs`, `DiagnosticLines` | the diagnostic line printer and parser, the round trip, and what a line says |
| `Strings`, `Ipv4Text`, `Ipv6Text`, `Addresses`, `Classify`, `Spaces` | address parsers, the embeddings of RFC 6052, the classifiers, and their answers by address space |
| `EditDistance`, `OptionHints` | both edit distances and the suggestions made with them |
| `RequestBody` | the settlement of an auth request's body |

**How callbacks are modelled.** In `ReconnectingClient` and `Following` each object carries a `script` of what its
subscribers will do; every notification consumes some of it, so a contract proved for all scripts holds for
every finite re-entry. `Reached(s)` reads: the call ends in the state its atomic step computes, or, when a
subscriber moved the connection to a later generation, in a settled state of that generation. In `Registry`
and `Sessions` user code runs only between methods, so a run with re-entry is a run of more calls; the callback of a
degraded lease, which the code runs in the middle of a gated send, is left out.

**History variables.** `Window.accepted`, `Session.trail`, `Session.moments`, `Session.armedSafe`,
`Session.strayed`, `Session.clears`, `Registry.direct`, `Registry.drops`, `Registry.orderly`, `Listener.calls`,
`Listener.era`, `Wrapper.era`, `World.makers`, `World.closings`, `Body.handed`, `Body.rearms` and `State.beforeRetry` record what happened and are read by no branch.

**Where the code says more or less than its documentation.**

- Calling twice the function a listener's subscribe returned takes the wrapper's count below its listeners, and
  the next listener's topic is never held (`DoubleCall`, src/client.js:2584-2607). Counts are the live listeners
  exactly when nothing was called twice (`CountsAreListeners`); ownership holds exactly when no wrapper's
  surplus calls used up its live listeners (`OwnershipExactly`). That does not make every listener hear: one that
  was live when a surplus call dropped the topic's last hold stays on a deleted store (`LeftBehind`). A listener
  hears exactly when its topic's last hold was not dropped since the wrapper took its store (`HearingExactly`).
- Releasing a topic can delete another topic's event store exactly when one of the two extends the other past a
  NUL (`OwnsExactly`, `NulTopicsClash`); the ownership results are about topics apart in that sense.
- A rate-limit timer armed while the connection is paused outlives the pause, does nothing when it fires and
  keeps later refusals from arming another (`StaleRetryTimer`, src/client.js:1632-1639). This needs a timer armed
  with `ws` null: one armed with a socket held, or after close, is current for as long as it is pending, and any
  other goes stale with the next attempt begun while `ws` is still null (`TimerIsCurrent`, `BeginAttempt`) and then
  blocks every later one until the retries are next cleared (`Drive`).
- `parseIpv6` accepts a little more than section 2.2 of RFC 4291 writes down: `::` may stand for no group at
  all (`EmptyPair`), and a dotted quad may end the run before `::` (`QuadBeforePair`). `SpellingsParse` states
  exactly what is accepted.
- The branch of `onclose` for a connection already closed is dead: a settled closed connection holds no
  socket (`Settled`), so `ws !== sock` returns first.
- The closing modulo of `parseIpv4` never changes anything (`AddressIs32Bit`).
- A declared NAT64 prefix is honoured wherever it lives, but the native ranges answer before it, and 6to4, Teredo
  and ISATAP after it for a public address. `TransparentExactly` says, from the prefix and the address alone and for
  every prefix, when an encoding is still classified as the address it embeds: never under a unique-local prefix,
  for instance, and under ::/96 exactly for any address but 0.0.0.1. `IsatapAnswersPublic` is one that is not.
- A window of a fractional count lets one more send leave than its whole part (`Permits`).

## Model

| member | source | states |
|---|---|---|
| Backoff.DispersedReconnectDelay | src/client-runtime.js:142-147 | a drain delay lies in the advertised window whatever the advisory and the random factor |
| Backoff.DispersedCoversWindow | src/client-runtime.js:142-147 | every delay of the window is some random factor's |
| Backoff.DelayInBand | src/client-runtime.js:119-122 | a delay is within [0.75, 1.25) of the capped one, exactly when that is positive |
| Backoff.DelayCoversBand | src/client-runtime.js:119-122 | every delay of that band is some random factor's |
| Backoff.CurveSteps | src/client-runtime.js:119-122 | the capped delay starts at the base and each step is 2.2 times the last, cut off at the cap |
| Backoff.BackoffMonotone | src/client-runtime.js:119-122 | backing off further never shortens the capped delay, which never passes the cap |
| Backoff.DefaultCurve | src/client-runtime.js:119-122 | the default curve reaches its cap at attempt 6 and not before |
| Reconnect.StepSettles | src/client.js:1769-1912 | every event leaves one wake source on a live connection and none on any other, and a pending timer in the current generation |
| Reconnect.RunSettles | src/client.js:1769-1912 | so does every run of enabled events |
| Reconnect.StartSettles | src/client.js:1812-1886 | a new connection starts settled |
| Reconnect.DeadStaysDead | src/client.js:2748-2802 | after close or a terminal close nothing wakes the connection again and its status stays failed |
| Reconnect.TimerAlwaysRetries | src/client.js:2446-2451 | the generation guard of a pending reconnect timer never strands it |
| Reconnect.PauseRefunds | src/client.js:1791-1799 | pausing a scheduled or in-flight retry restores both counters to their values before it was scheduled |
| Reconnect.ScheduleThenPause | src/client.js:2419-2451 | scheduling and then pausing leaves the counters unchanged |
| Reconnect.ScheduledDelay | src/client.js:2435-2444 | a backoff delay is at least the Retry-After floor and otherwise in the jitter band |
| Reconnect.AttemptsBounded | src/client.js:2419-2432 | in every run attempts stay within the backoff count, and within the maximum when one is configured; a reserved retry has both counts at least 1 |
| Reconnect.NoSocketLeaks | src/client.js:1803-1886 | no event leaves behind a socket neither held nor closing |
| Outcomes.CloseEndsExactly | src/client.js:917-951 | a close is final exactly for the codes 1008, 4401 and 4403 |
| Outcomes.CloseRetries | src/client.js:2386-2407 | for any other code, with no advisory in time and attempts left, a timer in the current generation at the pace of the backoff, raised to five for 4429, and both counters one up |
| Outcomes.CloseExhausts | src/client.js:2419-2432 | with no attempt left it ends as exhausted |
| Outcomes.CloseDrains | src/client.js:2386-2393 | with an advisory in time, a delay inside its window and both counters at zero |
| Outcomes.MessageStashes | src/client.js:2310-2330 | what advisory a message leaves, until when it counts, and that it changes nothing else |
| Outcomes.AdvisedCloseDrains | src/client.js:2310-2393 | whatever happens in between, a close in time after an advice is replaced within the advised window |
| Outcomes.LateAuthIsIgnored | src/client.js:1830-1832 | an answer of an older generation, or to a halted connection, changes nothing else |
| Outcomes.AuthEndsExactly | src/client.js:1832-1886 | an auth answer ends the connection exactly when it refuses or was the last attempt to fail |
| Outcomes.AuthDials | src/client.js:1884-1886 | an accepted one dials at once |
| Outcomes.AuthRetries | src/client.js:1848-1883 | a limited or failed one retries, no sooner than Retry-After, at the pace of the backoff, raised to five when limited |
| Outcomes.OpeningResets | src/client.js:1925-1944 | the current socket opening zeroes the counters and shows open, or suspended on a hidden page; another's changes nothing |
| Outcomes.HandshakeTimesOut | src/client.js:1903-1912 | a handshake timeout closes the current socket exactly while it connects |
| Outcomes.RecoversNow | src/client.js:2866-2895 | shown again or back on the network, a live connection with no open socket zeroes its counters and begins an attempt unless one is under way |
| Outcomes.OpenAcross | src/client.js:2810-2865 | an open socket is dropped across a hide or a show exactly when the device slept through it, else its status follows the page |
| Outcomes.TickDropsExactly | src/client.js:2907-2931 | the tick drops an open socket exactly after 150 s of silence on an unthrottled tick, or after a sleep |
| Outcomes.NetworkDrops | src/client.js:2874-2886 | losing the network closes a socket still up, and otherwise only shows |
| Outcomes.TimerAttempts | src/client.js:2446-2451 | the timer begins one attempt and leaves the counters |
| Outcomes.PausesAndResumes | src/client.js:2748-2773 | pausing leaves no wake source and resuming begins an attempt |
| Outcomes.CloseCallEnds | src/client.js:2774-2802 | close ends it in any state with no failure shown |
| Outcomes.RunShows | src/client.js:1276-1282 | in every run an open socket shows open, or suspended exactly while the page is hidden |
| ReconnectingClient.Connection.constructor | src/client.js:987-1069 | a new connection starts settled, whatever its first subscribers do |
| ReconnectingClient.Connection.DoConnect | src/client.js:1812-1886 | refines the atomic connect step under re-entry |
| ReconnectingClient.Connection.OpenSocket | src/client.js:1888-1930 | refines the atomic dial, failing constructors included |
| ReconnectingClient.Connection.ScheduleReconnect | src/client.js:2419-2451 | refines the atomic schedule under re-entry, exhaustion included |
| ReconnectingClient.Connection.OnOpen | src/client.js:1925-1944 | refines the open step under re-entry |
| ReconnectingClient.Connection.OnClose | src/client.js:2341-2406 | refines the close step under re-entry, whose outcome for each code and advisory is that of `Outcomes` |
| ReconnectingClient.Connection.OnTimer | src/client.js:2446-2451 | refines the retry step: the timer's slot is emptied and the connect step runs |
| ReconnectingClient.Connection.OnMessage | src/client.js:2310-2330 | a drain advisory is stashed with its deadline, anything else only stamps the socket alive |
| ReconnectingClient.Connection.OnAuth | src/client.js:1712-1768 | refines the settlement of an auth attempt; one of an older generation changes nothing |
| ReconnectingClient.Connection.SimulateOffline | src/client.js:2748-2762 | refines the pause step under re-entry |
| ReconnectingClient.Connection.ResumeOnline | src/client.js:2763-2773 | refines the resume step under re-entry |
| ReconnectingClient.Connection.Close | src/client.js:2774-2802 | ends closed and settled whatever subscribers do on the way |
| ReconnectingClient.Connection.OnShow | src/client.js:2836-2866 | refines the visibility step under re-entry |
| ReconnectingClient.Connection.OnTick | src/client.js:2907-2931 | refines the silence detector under re-entry |
| ReconnectingClient.Connection.Deliver | src/client.js:1769-1912 | one event of any kind, re-entered at every notification, ends where the atomic step ends or settled in a later generation |
| ReconnectingClient.Connection.Drive | src/client.js:1769-1912 | any run with any re-entry ends settled, and closed or terminal is never undone |
| Following.Module.Follow | src/client.js:236-254 | after the closure returns the follower holds one subscription, on the current singleton, or was placed by a later call |
| Following.Module.EnsureConnection | src/client.js:208-229 | a connection is created exactly when there is none or connect() finds the singleton closed, and every live follower is re-placed on it; otherwise nothing happens |
| Following.Module.Close | src/client.js:2774-2777 | the module notes that the singleton was closed, and of no other |
| Following.Module.Subscribe | src/client.js:230-269 | a subscriber that stays is placed on the current singleton |
| Following.Module.Unsubscribe | src/client.js:258-268 | a subscriber that leaves has every subscription it took released once |
| Following.Module.Drive | src/client.js:208-269 | any mix of connect, close, subscribe and unsubscribe, from inside callbacks too, ends with every live follower placed, each connection after the first asked for by connect() over a closed one, and the singleton known closed exactly when it was |
| Following.HoldsExactlyOne | src/client.js:230-269 | then a live follower holds exactly one upstream subscription, the current singleton's, and each other one it took was released exactly once |
| Following.MovedTransitive | src/client.js:236-254 | what one callback may do to the others' subscriptions composes |
| FlowControl.Window.Gate | src/client.js:1372-1386 | a gated send leaves once, is queued last, or is dropped at a full queue, and leaves at once only past an empty queue; a permit taken asks for more at low water, and a backlog is reported before it passes twice what was told |
| FlowControl.Window.Apply | src/client.js:1387-1400 | a window lets the oldest queued sends go, no more than it grants, and degraded then says whether any remain |
| FlowControl.Window.MaybeReplenish | src/client.js:1340-1353 | one replenish a window, when short, carrying the backlog |
| FlowControl.Window.ReportDeeperBacklog | src/client.js:1362-1370 | a backlog is reported when it at least doubled |
| FlowControl.Window.WindowBounds | src/client.js:1332-1400 | in a window no more sends leave than its count, rounded up, and at most ten request-n frames |
| FlowControl.Permits | src/client.js:1394-1398 | a count of permits, whole or not, lets exactly its ceiling of sends leave |
| FlowControl.DoublingIsBounded | src/client.js:1362-1370 | a queue of 256 leaves room for nine doublings |
| Holds.OwnsExactly | src/client.js:2528-2532 | releasing a topic can delete another's event store exactly when they are equal or one extends the other past a NUL |
| Holds.ReleasesItsOwn | src/client.js:2528-2532 | a release deletes exactly its own topic's places, for every event, exactly when the topics are clear of each other |
| Holds.NulFreeIsClear | src/client.js:2528-2532 | topics without a NUL are always clear of each other |
| Holds.NulTopicsClash | src/client.js:2528-2532 | an input where releasing one topic deletes another's store |
| Holds.SubsCountLive | src/client.js:2584-2607 | a wrapper's count is its live listeners less the surplus calls of their returned functions |
| Registry.Registry.CountsAreListeners | src/client.js:2584-2607 | every wrapper's count is its live listeners exactly when no returned function was called twice |
| Registry.Registry.OwnershipExactly | src/client.js:2464-2532 | topic counts are direct subscribes and listened-to wrappers exactly when no surplus calls used up a wrapper's listeners; listened-to wrappers are then on the store dispatch looks up |
| Registry.Registry.OnceEachIsOwned | src/client.js:2464-2607 | with nothing called twice ownership holds and every live listener hears |
| Hearing.HearsInItsEra | src/client.js:2584-2607 | a listener is on the store dispatch looks up exactly when its topic's last hold was not dropped since its wrapper took that store |
| Registry.Registry.HearingExactly | src/client.js:2584-2607 | in every orderly run that decides of each listener whether it hears |
| Registry.LeftBehind | src/client.js:2584-2607 | one of two listeners called twice and a third arriving, run: ownership holds again and the other listener never hears |
| Registry.DoubleCall | src/client.js:2584-2607 | the double call and a new listener, run: the topic has a listener and no hold, and the listener hears nothing |
| Registry.DoubleCallMisses | src/client.js:2584-2607 | at that input the count is zero with one live listener |
| Registry.Registry.On | src/client.js:2564-2582 | a wrapper starts on the store dispatch looks up; a new store waits for its clean-up |
| Registry.Registry.Listen | src/client.js:2584-2603 | a first listener counts the topic once and puts the wrapper on the store dispatch looks up; every listener subscribes on the store its wrapper then holds |
| Registry.Registry.Unlisten | src/client.js:2603-2607 | any call of a returned function, repeated or not, counts down, gives a hold back at zero, and with the last hold empties the topic's stores |
| Registry.Registry.CleanUp | src/client.js:2574-2581 | the microtask takes back only a store nobody holds, and keeps the books of an orderly run balanced |
| Registry.Registry.Release | src/client.js:2497-2505 | a direct release gives one count back and keeps the books balanced when it was owed and its topic is clear of the others |
| Hearing.OthersKeepTheirs | src/client.js:2574-2581 | no live wrapper looks where an unheld topic's wrapper does |
| Registry.Registry.NothingLeaks | src/client.js:2574-2581 | once the clean-ups ran, every store left belongs to a held topic |
| Holds.DispatchedWithout | src/client.js:2520-2532 | stores deleted with the last hold were in no live wrapper's use |
| Recovery.RequestStands | src/client.js:1484-1494 | a request followed by anything that leaves it outstanding stands at its own offset, or at none after an invalidation, with the greatest sequence seen since |
| Recovery.AnswerAdvances | src/client.js:1497-1505 | only the accepting answer to that ref advances the offset, to the greatest of itself and what was seen; a denial, another ref, a loss or a release leaves it |
| Recovery.PendingExplained | src/client.js:1484-1505 | in every history a recovery in flight is accounted for by the last request and what followed it |
| Recovery.RestExplained | src/client.js:1497-2029 | in every history with nothing in flight, the offset is the greatest of what the last event that set, answered or cleared it left and every sequence seen since |
| Recovery.OffsetMoves | src/client.js:2006-2029 | only four kinds of event move the offset, and only a request or an invalidation lowers it |
| Subscriptions.SendingIsProper | src/client.js:1518-1543 | a send, however long it waited, asks only for topics held and not managed when it leaves |
| Subscriptions.MountsAsk | src/client.js:1518-1543 | sends that run one after the other ask, in order, for everything still wanted of what they were made for |
| Subscriptions.RetryAsks | src/client.js:1591-1613 | a retry asks for exactly its topics that are wanted and not retried since, in its own generation, and recovers each from where its chunk did |
| Subscriptions.GivenUpAtSeven | src/client.js:1616-1626 | six refusals in a row are counted and the seventh gives the topic up |
| Subscriptions.FramesAt | src/client.js:1966-1973 | one resubscribe frame a chunk, numbered in turn, each with its chunk's own recover map |
| Subscriptions.FollowedNote | src/client.js:1497-1505 | changing one topic's watermark as its event says keeps every topic's history |
| Subscriptions.GatedNext | src/client.js:1372-1386 | of sends gated in a row the first leave, the next wait in order, and only a full queue drops the rest |
| Subscriptions.AskTopicsKeeps | src/client.js:1484-1494 | asking for the topics of a recover map keeps every history and asks for exactly those |
| Subscriptions.WholeChunkLeaves | src/client.js:1597-1611 | a retried chunk still wanted and still the latest leaves whole |
| Sessions.Session.SendRecovery | src/client.js:1484-1494 | on an open socket the frame leaves and exactly its recover topics begin to wait at the offsets asked |
| Sessions.Session.AskAgain | src/client.js:1591-1613 | a retry whose turn comes sends that frame, and the topics it recovers wait for its answer |
| Sessions.Session.FinishRecovery | src/client.js:1497-1505 | steps the topic's watermark and no other |
| Sessions.Session.Sequenced | src/client.js:2006-2013 | steps the topic's watermark and no other |
| Sessions.Session.WindowLost | src/client.js:2014-2029 | steps the topic's watermark and no other, and takes a rehydrate's epoch |
| Sessions.Session.SubscribeOnWire | src/client.js:2464-2491 | the first hold of an untapped, unmanaged topic joins the subscribed set and, on an open socket, the mount batch |
| Sessions.Session.Flush | src/client.js:1518-1543 | one topic goes as a plain subscribe and more in chunks: the first sends emit what is wanted of them, the next wait and only a full queue drops the rest; with no window everything still wanted is asked for, in order |
| Sessions.Session.Gate | src/client.js:1372-1386 | a job emits its frame now, waits last in the queue, or is dropped |
| Sessions.Session.ApplyWindow | src/client.js:1387-1400 | the granted jobs, oldest first, emit what each comes to when it runs |
| Sessions.Session.RetryLater | src/client.js:1616-1640 | one more attempt, given up past six, one timer at the pace of the least retried topic, due between one and two of its base delays, in the generation of the refusal |
| Sessions.RetryPaces | src/client.js:1634-1635 | the base delay is 250 ms and doubles with each refusal |
| Sessions.Session.TimerIsCurrent | src/client.js:1632-1639 | in every run a pending retry timer armed with a socket held, or after close, is current; any other is exactly while no attempt was begun with no socket held |
| Sessions.Session.TimerFires | src/client.js:1636-1639 | a current timer flushes the retries; any other changes nothing and stays |
| Sessions.StaleRetryTimer | src/client.js:1632-1639 | a run in which a timer armed while paused stays to block the next |
| Sessions.Session.FlushRetries | src/client.js:1575-1613 | every refused topic still wanted is gated again with its tracked offset: the first chunks leave, the next wait, and only a full queue drops the rest |
| Sessions.Session.Opened | src/client.js:1966-1973 | a new socket asks for exactly the subscribed, unmanaged topics; each tracked one is recovered from where it stands and waits for its answer, and no offset moves |
| Sessions.Session.Release | src/client.js:2497-2556 | the last hold takes the topic, and no other, out of every per-topic set and store, and tells the server; an earlier one changes only the count |
| Sessions.Session.Unlisten | src/client.js:2602-2607 | the same for a call of a wrapper's returned function |
| Sessions.Session.Forget | src/client.js:2511-2556 | a forced unsubscribe does so whatever the count |
| Sessions.Session.BeginAttempt | src/client.js:1812-1828 | a new attempt forgets recoveries and retries in flight and keeps every offset; it clears the retries with the socket it lets go, and with none held makes a pending timer stale |
| Sessions.Session.Paused | src/client.js:2748-2757 | pausing cancels the attempt, clears the retries and lets the socket go before anything else can run |
| Sessions.Session.Ended | src/client.js:2774-2779 | close clears the retries with the socket still held, and no attempt follows |
| Sessions.Session.Drive | src/client.js:2464-2607 | any run stays valid and a stale timer outlasts it unless the retries are cleared; an unforced run whose direct releases are owed, over topics apart, has ownership exactly when no surplus calls used up a wrapper's listeners, and each listener hears exactly in its store's era |
| Sessions.Session.RunsAreSound | src/client.js:1575-1640 | the per-topic sets nest inside what is held, each frame sent was proper and never named a `__` tap, each recovery in flight stands where its request put it, and with none in flight the offset is the greatest sequence seen |
| Sessions.Session.WireFits | src/client.js:1403-1481 | over any run each subscribe-batch sent, retried and narrowed ones too, is under 8192 bytes, but for a single topic over 7950 |
| Chunking.ChunkTopicsForBatch | src/client.js:1419-1438 | the list in order, cut into non-empty chunks of at most 200 topics, greedily within the byte budget |
| Chunking.ChunkResubscribe | src/client.js:1449-1481 | the same for the unmanaged topics, each chunk's recover map being exactly that of its tracked topics |
| Chunking.GreedyIsUnique | src/client.js:1419-1481 | order, content, the bounds and leaving no room unused fix the cut completely |
| Chunking.RecoverCovers | src/client.js:1458-1477 | a recover map covers exactly its chunk's tracked topics, and is null when there is none |
| Chunking.RecoversTracked | src/client.js:1458-1477 | each entry is the topic's own offset, with its epoch exactly when one is known |
| Chunking.ChunkBounds | src/client.js:1406-1438 | one to 200 topics and 8000 bytes, but for one topic alone, and no chunk had room for the next one's first |
| Chunking.UnmanagedJoins | src/client.js:1455-1457 | managed topics are dropped where they stand |
| BatchFrames.FrameSize | src/client.js:1403-1438 | a serialized frame is its budgeted cost and at most 75 bytes, for any safe-integer ref |
| BatchFrames.ResubscribeFrameFits | src/client.js:1403-1481 | each frame is under 8192 bytes when each topic's own entry costs at most 7950 |
| BatchFrames.BatchFrameFits | src/client.js:1403-1438 | the plain chunker's frames too |
| BatchFrames.FilteredFrameFits | src/client.js:1597-1611 | a frame that lost topics while it waited still fits |
| BatchFrames.LightFrameFits | src/client.js:1403-1438 | a frame within the batch budget is under the ceiling, unless one topic's own entry is not |
| BatchFrames.BytesJoin | src/client.js:1424-1424 | joining texts never takes more bytes than the texts |
| Utf8.ByteLength | src/client.js:152-164 | the loop counts the UTF-8 length of any UTF-16 sequence |
| Utf8.DropsText | src/client.js:2115-2128 | the three-band guard drops a text frame exactly when its byte length passes the cap |
| Utf8.UnitsBoundBytes | src/client.js:2104-2114 | n code units take between n and 3n bytes |
| Utf8.EncodeSplits | src/client.js:152-164 | the encoding splits wherever no surrogate pair is cut |
| Utf8.PointRoundTrip | src/client.js:152-164 | the bytes counted decode to the point encoded, U+FFFD for a lone surrogate |
| JsonProofs.RoundTrip | src/runtime/diagnostic-format.js:28-30 | JSON.parse of the ASCII-only JSON of any value is the value |
| JsonProofs.ValueClean | src/runtime/diagnostic-format.js:28-30 | that text never holds a space before {"s |
| JsonProofs.UnitsSpelled | src/runtime/diagnostic-format.js:28-30 | how JSON.stringify spells each unit of a string |
| JsonProofs.ValuesSpelled | src/runtime/diagnostic-format.js:28-30 | and the words, brackets, commas and colons around values |
| JsonProofs.ParsedWellFormed | src/runtime/diagnostic.js:322-330 | whatever JSON.parse accepts is a value JSON.stringify can meet |
| DiagnosticProofs.NormalizeIdempotent | src/runtime/diagnostic-format.js:18-26 | normalizing a message twice is normalizing it once |
| DiagnosticProofs.NormalizeIsNormal | src/runtime/diagnostic-format.js:18-26 | a normalized message is escaped, collapsed, trimmed and within its length |
| DiagnosticLines.NormalizeExactly | src/runtime/diagnostic-format.js:18-26 | a message is its words, escaped, one space apart, cut at 512 units without a last space, or `unknown` |
| DiagnosticLines.EscapesExactly | src/runtime/diagnostic-format.js:14-20 | every unit outside printable ASCII becomes four lower-case hex digits and no other changes |
| DiagnosticLines.PrintsExactly | src/runtime/diagnostic-format.js:32-92 | which inputs are printed, field by field |
| DiagnosticLines.DotNameExactly | src/runtime/diagnostic-format.js:9-9 | a dot-name is two or more non-empty segments |
| DiagnosticLines.FormatShows | src/runtime/diagnostic-format.js:72-102 | the printed line and each field of the record read back from it, in terms of the input |
| DiagnosticLines.ReadsExactly | src/runtime/diagnostic.js:310-337 | which lines are read as canonical: a header, any text, and after the last marker the JSON of a record with that header and text |
| DiagnosticProofs.MarkerFound | src/runtime/diagnostic.js:318-322 | lastIndexOf finds the marker the printer wrote, whatever the message holds |
| DiagnosticProofs.HeaderRead | src/runtime/diagnostic.js:310-317 | the header expression reads the printed fields back |
| DiagnosticProofs.FormatParses | src/runtime/diagnostic.js:310-337 | parsing a formatted diagnostic gives the record createDiagnostic built, for every accepted input |
| DiagnosticProofs.CanonicalReprints | src/runtime/diagnostic.js:373-381 | a line read as canonical holds a record the constructor accepts unchanged, all its fields included, whose printed line reads back to it |
| Ipv4Text.ParseIpv4 | src/safe-url.js:29-67 | a value for exactly the one-to-four-part spellings that fit, the one their parts weigh |
| Ipv4Text.AddressIs32Bit | src/safe-url.js:58-67 | that value is below 2^32, so the closing modulo changes nothing |
| Ipv4Text.Ipv4Spelling | src/safe-url.js:29-54 | the parts of a fitting spelling are the parts it is split into |
| Ipv4Text.PartReads | src/safe-url.js:34-50 | every number is read from its hex, octal and decimal spelling |
| Ipv4Text.PartForms | src/safe-url.js:34-50 | and no part is read but those |
| Ipv4Text.EveryFormReads | src/safe-url.js:29-67 | one to four parts in any bases read back as the address they weigh |
| Strings.DigitsAreWorth | src/safe-url.js:37-45 | what each digit is worth, in either case |
| Ipv4Text.DottedDecimal | src/safe-url.js:29-67 | the dotted decimal of four octets reads back as their address |
| Ipv6Text.ParseIpv6 | src/safe-url.js:120-169 | the loops compute the groups the text spells |
| Ipv6Text.SpellingsParse | src/safe-url.js:120-169 | the parser answers eight groups for exactly their spellings: full, `::` over a run of zeros, dotted-quad tail |
| Ipv6Text.OneAddress | src/safe-url.js:120-169 | a text spells at most one address |
| Ipv6Text.EightGroupsRead | src/safe-url.js:120-169 | any eight groups, in hex between colons, read back |
| Ipv6Text.ShortenedReads | src/safe-url.js:159-164 | and with `::` for any run of zeros |
| Ipv6Text.OctetTextsRead | src/safe-url.js:144-157 | a dotted quad is read as its two groups |
| Ipv6Text.OctetReads | src/safe-url.js:179-190 | every octet's decimal text is one of those |
| Ipv6Text.ZoneDropped | src/safe-url.js:120-125 | a zone is dropped from its first percent sign |
| Ipv6Text.QuadBeforePair | src/safe-url.js:144-157 | a dotted quad before `::` is accepted |
| Ipv6Text.EmptyPair | src/safe-url.js:159-164 | eight groups with `::` between them are accepted |
| Ipv6Text.ParseDottedQuad | src/safe-url.js:179-190 | the tail's four decimal octets, or null |
| Addresses.Ipv4Ranges | src/safe-url.js:77-108 | an address is refused for a reason exactly when it lies in one of that reason's ranges |
| Addresses.Nat64InPrefix | src/safe-url.js:528-539 | equality of the leading bits of the 128-bit value |
| Addresses.Nat64SuffixDirty | src/safe-url.js:509-517 | some bit is set after the embedded address |
| Addresses.ReadBack | src/safe-url.js:478-485 | the address embedded by section 2.2 of RFC 6052 is read back, at all six lengths |
| Addresses.EncodedLayout | src/safe-url.js:478-485 | the octet-wise encoding is the figure of that section, group by group |
| Addresses.EncodedShares | src/safe-url.js:528-539 | an encoding shares its prefix's leading bits |
| Addresses.EncodingsAreClean | src/safe-url.js:509-517 | a clean address inside a prefix is exactly the encoding of the address read from it |
| Classify.FirstBlockedReading | src/safe-url.js:344-398 | the loop over the readings finds the first blocked one |
| Classify.UndeclaredPasses | src/safe-url.js:344-398 | with no prefix declared an address of 64:ff9b::/32 passes exactly under the four conditions on its readings, u-octet and padding |
| Classify.NeverSmuggled | src/safe-url.js:344-398 | so an encoding of a blocked address outside 0.0.0.0/8 is refused whatever its unused bits hold |
| Classify.TransparentExactly | src/safe-url.js:220-433 | for every declared prefix and address, an encoding is classified as the embedded address exactly under conditions on the two: space by space for the native ranges, and for a public address a zero u-octet, a public 6to4 reading, no Teredo and no ISATAP identifier |
| Classify.DeclaredIsTransparent | src/safe-url.js:326-343 | under any prefix outside the native ranges, 6to4 and Teredo it is, but for a public one under a dirty u-octet or of one ISATAP shape |
| Classify.OrdinaryExactly | src/safe-url.js:326-343 | there exactly for any but those |
| Classify.IsatapAnswersPublic | src/safe-url.js:426-429 | the /56 encoding whose groups spell 0:5efe is answered by the ISATAP branch |
| Spaces.RefusedExactly | src/safe-url.js:220-433 | for every address, with a prefix declared or not, it is refused for a reason exactly when its space says so: native ranges by their leading bits, IPv4-carrying spaces by the IPv4 ranges, Teredo whole |
| Spaces.PassesExactly | src/safe-url.js:220-433 | and it passes exactly when no space refuses it |
| Spaces.NativeOnce | src/safe-url.js:239-272 | each native range has its own reason, whatever is declared |
| Spaces.BlockByGroups | src/safe-url.js:239-272 | agreement on leading bits is equality of whole groups and of a shifted one |
| EditDistance.LevIsLeast | src/config-guards.js:667-682 | the recurrence is a lower bound on every edit script |
| EditDistance.LevIsAttained | src/config-guards.js:667-682 | and some script attains it |
| EditDistance.LevIsSymmetric | src/config-guards.js:667-682 | the distance is symmetric |
| EditDistance.LevCoversLengths | src/config-guards.js:663-663 | the length gap never exceeds the distance |
| EditDistance.RowsNeverFall | src/config-guards.js:678-678 | once a whole row is at least m every later row is |
| EditDistance.BoundedDistance | src/config-guards.js:662-682 | the distance when it is within the bound and null otherwise |
| EditDistance.PlainDistance | src/adapter-options.js:46-62 | the distance |
| OptionHints.SuggestOptionKey | src/config-guards.js:638-655 | past a case-insensitive match, a nearest eligible key within distance 2, or none |
| OptionHints.SuggestOption | src/adapter-options.js:77-96 | the suggestion made with the unbounded distance |
| RequestBody.Body.OnData | src/vite-request-body.js:147-163 | the refusal runs when the count first passes the budget, and an inside chunk changes no decision |
| RequestBody.Body.OnEnd | src/vite-request-body.js:127-135 | a complete body settles a held answer to keep the connection, and alone ends the stream cleanly |
| RequestBody.Body.OnGone | src/vite-request-body.js:137-145 | a lost request settles a held answer to nothing written, and a reader still reading sees an error |
| RequestBody.Body.OnWaitLimit | src/vite-request-body.js:98-109 | a period that kept no pace ends the wait |
| RequestBody.Body.OnCancel | src/vite-request-body.js:176-181 | a cancelled body still counts, and a held answer that can close and has no declared length closes after the read pass |
| RequestBody.Body.OnKeepUpCheck | src/vite-request-body.js:120-126 | a queue left unread after the read pass fails the body and decides nothing |
| RequestBody.Body.GiveAnswer | src/vite-request-body.js:196-218 | an answer keeps the connection only for a body that arrived whole within the budget; at most one wait starts |
| RequestBody.Body.Release | src/vite-request-body.js:221-227 | release ends a wait with nothing written and takes the listeners off |
| RequestBody.Body.WaitBounded | src/vite-request-body.js:93-109 | a wait is over within floor(limit / 163840) + 1 periods |
| RequestBody.Body.Drive | src/vite-request-body.js:41-227 | over any run one refusal, one wait, one settlement, a kept connection had its whole body, and a reader that sees the end was handed every byte of a whole body within the budget |

## Left out

- Rounding of doubles: delays and clock readings are exact reals, counts in windows and bodies are integers.
- Numbers in JSON are compared by the text they are printed as; number printing, `String()`, `toLowerCase` and `parseInt` on numerals too long for a double are the engine's.
- DiagnosticProofs.CanonicalReprints: a schemaVersion spelled `1.0` is the number 1 to the code and another text to this model.
- FlowControl.Window.Apply: a count or a lifetime beyond every double, which JSON.parse reads as infinite, is not modelled.
- The order JSON.stringify gives array-index keys: an object keeps the order its members were given in.
- The legacy half of `parseDiagnostic`, and the sink registry of `src/runtime/diagnostic.js`.
- Liveness of the flow queue: `_applyFlowWindow` may leave sends queued without asking for more; only safety is stated.
- Sessions.Session.BeginAttempt: sees the socket only as held or not, open or not, and closed for good or not; the reconnect machine's other guards are those of `ReconnectingClient`, so runs here include ones they rule out.
- Sessions.Session.Gate: the lease-degraded callback, which src/client.js:1332-1339 and 1375-1380 run between queueing a send and asking for permits, is not a point where calls re-enter; a callback that throws or calls back there is not modelled.
- Subscriptions.Narrowed: the code tests `frame.recover[topic]` on a plain object (src/client.js:1603-1608), so a kept, untracked topic named like a member of Object.prototype (`constructor`, `toString`) picks up an inherited function when its chunk is narrowed and recovers another topic. JSON leaves it off the wire, but the topic begins to wait for an answer and its stored offset becomes undefined; with no topic so named the model and the code agree.
- Two kinds of send interleave differently: a gated send's own frame leaves before the request-n frame it causes, which the two logs of `Window` and `Session` do not order.
- Enumeration order of a JavaScript Set or Map: `Spread` is any order, which covers insertion order.
- Recovery.OffsetMoves: a retried frame may ask from an offset older than the one remembered; the request then sets it back, as the code does.
- ReconnectingClient.Connection.OnShow: `hiddenDisconnect` is written and never read by this machine.
- ReconnectingClient.Connection.Drive: the variables of the closure are one record field, so that a whole step can be compared at once; abort signals, auth timers and failure reason text are not modelled.
- `Following.World` keeps the module variables of `followStore` in one value for the same reason.
- RequestBody.Body.GiveAnswer: a decision to close may still become nothing written when excess bytes arrive before release; only the decision to keep is final. Pausing and resuming the request stream is not modelled, and timers are punctual.
- Real sockets, fetch, DOM events and console output; binary codecs, ingress bindings, request/reply, session storage; `crud`, `lookup`, `latest`, `count`, `once`.
- WHATWG URL parsing, DNS resolution, host lists and the asynchronous checks of `src/safe-url.js`.
- The auditor, simulators, build code, cookies and type declarations: I/O, or easy members.
