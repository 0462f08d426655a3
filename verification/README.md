# Overlay network control plane: a verified model

Dafny models of the hardest parts of the overlay network's client and server, with proofs about all their inputs, runs
and interleavings. Check everything with `dafny verify dfyconfig.toml`.

| module | what it covers |
|---|---|
| `RelayPool`, `PoolOutcomes`, `DerpRuntime` | the DERP link pool, its client state machine, score-based switching |
| `RetryPolicy` | the connect-plan retry policy, in process memory and in Redis |
| `CandidateWindow` | peer-candidate deduplication, in process memory and in Redis |
| `MessageDelivery`, `DeliveryProgress`, `MessageStore` | pending rows, retry scans, acknowledgements and archiving |
| `Fanout`, `FanoutRuntime` | peer updates and removals over many server instances |
| `HelperJson`, `JsonRoundTrip`, `JsonShortest`, `HelperPrinter` | the helper's JSON printer and newline framing |
| `FrameCodec`, `FrameLayout` | the hand-written WebSocket frame codec |
| `EventQueue` | the control client's response and event demultiplexer |
| `EventFold` | folding control events into the network map and plans |
| `Facade`, `FacadeOutcomes`, `FacadeRuntime`, `FacadeSteps` | tunnel tracker, path and snapshot through connect, sync and disconnect, one at a time and interleaved lock by lock |
| `LockOrder`, `FacadeLocks`, `LockGuards` | the facade's mutexes under any number of threads |

Pure logic and specifications are functions on values. Code that changes fields or loops is a class or method whose
`ensures` equates the new state with such a function; the laws are lemmas about the functions and about runs of them.
Outcomes of sockets, the clock, the database, the tunnel backend and the key provider are inputs.

Where the code does not do what one might expect, the exact condition is proved:

- A message can be archived more than once, even as delivered and as undelivered: an acknowledgement reads, marks and
  archives in separate statements, and archiving looks at no status. It happens exactly when a second acknowledgement
  reads the message, or it is listed for the last time, while another of these is in flight (`HistoryEntriesExact`,
  `AckRaceArchivesTwice`, `OverlappingAcksArchiveTwice`).
- Redis grants no retry earlier than the in-process throttle on traces shorter than five minutes, and only on those:
  once the counter expires it grants without consulting its gate (`RedisLagsExactly`).
- The two candidate stores give the same answers exactly as long as their two key formats collide alike
  (`SameAnswersExactly`); ids with a colon need not (`ColonCollides`).
- A link score can wrap around and win (`WrappedScoreWins`), for a DERP client whose probes time out. The one client the
  pool is built with never reports a timeout, so with it every score is the priority (`SocketScoresArePriorities`).
- A disconnect whose close fails leaves a tunnel nobody tracks (`TunnelsMatchExactly`, `FailedCloseLeavesTunnel`), and
  an establish that fails after the old tunnel was closed leaves its address in the snapshot (`AddressTrackedExactly`,
  `LostTunnelStaysInSnapshot`).
- A connect served by the relay is reported as DERP, over a link an earlier connect left active in the pool, even
  across a disconnect (`ReportedTransportExact`, `RelayReportExact`, `RelayReportedAsDerp`).
- A connect that runs into a disconnect can end with a tracked tunnel that is not there, and two connects can mix one
  peer's address with the other's runtime (`InterleavedMatchExactly`, `ReconnectDuringDisconnect`,
  `InterleavedCoherentExactly`, `ConnectsMixTunnels`).
- With several retry loops a stale list can set a message's attempt count back (`AttemptsFallExactly`,
  `StaleListLowersCount`); delivery still ends within the bound of `DeliveryTerminates`.
- A connect or sync that wants another configuration for the tracked peer address does not touch the tunnel, also when
  this device's own address changed (`InForceExactly`, `OwnAddressIsNotApplied`).
- The acknowledgement time never reaches the message history (`AckTimeIsLost`).
- A drain that meets an error other than a timeout before its limit drops the events in hand
  (`EventsConservedExactly`, `DrainDropsEvent`).
- A revision drawn without a counter is 1, which usually breaks the order (`RevisionsIncreaseExactly`,
  `FailedIncrRepeatsRevision`). Two instances that share an id, as two failing random sources give them, ignore each
  other's events (`Reaches` in `Fanout`).

## Model

| member | source | states |
|---|---|---|
| RelayPool.ChooseActiveIsFirstLeast | client/app_core/crates/relay-client/src/runtime.rs:1005-1012 | the chosen link is the first usable one with lexicographically least (score, priority); none is chosen exactly when none is usable |
| RelayPool.WarmLinksKeep | client/app_core/crates/relay-client/src/runtime.rs:1085-1098 | after the warm-up loop exactly the first `warm` links are ready with the ticket, or it stopped at a link that could not be made ready and left the later ones untouched |
| RelayPool.WarmUpKeeps | client/app_core/crates/relay-client/src/runtime.rs:1075-1103 | any warm-up keeps the pool invariant; a successful one leaves an active link |
| RelayPool.RunKeeps | client/app_core/crates/relay-client/src/runtime.rs:1037-1271 | every sequence of install, warm-up, tick, switch, forced switch and close keeps the invariant joining pool, clients, ticket and counters |
| RelayPool.ActiveLinkAlwaysArmed | client/app_core/crates/relay-client/src/runtime.rs:1037-1271 | in every reachable state an active node names an installed link whose client is connected to it, open, and holds the installed ticket, which admits it; switch_epoch is the number of switch events since install |
| RelayPool.ActiveLinkCanSend | client/app_core/crates/relay-client/src/runtime.rs:1105-1130 | in every reachable state there is an active node exactly when sending finds a ready link, even if two nodes share an id |
| RelayPool.WarmedPoolHasActiveLink | client/app_core/crates/ffi-bridge/src/default_facade.rs:239-252 | the facade's "no active link after warm up" error is unreachable; connecting through the pool succeeds exactly when the warm-up does, with a link that holds the given ticket |
| RelayPool.SwitchPicksFirstLeast | client/app_core/crates/relay-client/src/runtime.rs:1183-1207 | with a usable link, maybe_switch makes the first least one active, reports an event exactly when the node changed, and a second call returns nothing |
| RelayPool.WarmUpPicksFirstLeast | client/app_core/crates/relay-client/src/runtime.rs:1099-1102 | after any successful warm-up the active link is the first least one and maybe_switch has nothing to do |
| RelayPool.SwitchesFormChain | client/app_core/crates/relay-client/src/runtime.rs:1183-1257 | over ticks and switches each event leaves the node the previous one entered, and the last enters the active node |
| RelayPool.ScoreBound | client/app_core/crates/relay-client/src/runtime.rs:963-970 | failures <= timeouts <= ticks since install; the score is at most priority + probe cost + 1100 per tick, and below 2^32 the unchecked additions are exact |
| RelayPool.SocketScoresArePriorities | client/app_core/crates/relay-client/src/runtime.rs:387-403 | with the shipped client's probes every score in every reachable state is the link's priority and no link is suspect |
| RelayPool.WrappedScoreWins | client/app_core/crates/relay-client/src/runtime.rs:963-970 | with a client whose probes can time out, a reachable state in which a wrapped score takes the active place from a healthier link |
| PoolOutcomes.EnsureReadyExact | client/app_core/crates/relay-client/src/runtime.rs:1014-1028 | readying a link fails exactly at its obstacle: it succeeds if and only if the link is armed already, or its transport is UDP or TCP, the socket opens and the ticket admits its node; else the error says which of these fails first |
| PoolOutcomes.ObstacleIsShown | client/app_core/crates/relay-client/src/runtime.rs:976-989 | a link that met an obstacle shows failed, or still closed if no socket was opened for it |
| PoolOutcomes.WarmUpExact | client/app_core/crates/relay-client/src/runtime.rs:1075-1103 | in every reachable state a warm-up succeeds if and only if a non-empty cluster is installed and nothing stands in the way of its first fan-out links; else it fails with the first obstacle and the active node stays |
| PoolOutcomes.ForceSwitchExact | client/app_core/crates/relay-client/src/runtime.rs:1228-1257 | in every reachable state a forced switch succeeds if and only if nothing stands in the way of the first link of that id; then that node is active and the event leads to it, else nothing is switched |
| PoolOutcomes.InstallStartsOver | client/app_core/crates/relay-client/src/runtime.rs:1037-1073 | installing forgets all history, and until the next install the pool has its nodes, cluster, session and ticket |
| PoolOutcomes.ClosedPoolIsDown | client/app_core/crates/relay-client/src/runtime.rs:1259-1271 | a closed pool has no socket, no ticket on a link and nothing to switch to or send through |
| PoolOutcomes.ScoreFromHistory | client/app_core/crates/relay-client/src/runtime.rs:963-970 | a ready link's score is priority plus the cost of the last answered probe plus 1000 per bad probe since install plus 100 per bad probe in the present row, and it is suspect if and only if a probe was bad |
| PoolOutcomes.TicksArePerLink | client/app_core/crates/relay-client/src/runtime.rs:1149-1181 | health ticks act on each link by itself and leave the active node |
| DerpRuntime.SocketDerpClient.ConnectNode | client/app_core/crates/relay-client/src/runtime.rs:243-263 | QUIC and failed sockets change nothing; otherwise node, socket and open flag are set |
| DerpRuntime.SocketDerpClient.AttachTicket | client/app_core/crates/relay-client/src/runtime.rs:265-296 | a ticket is taken only by a connected client whose cluster and node it admits, with the source's errors in order |
| DerpRuntime.SocketDerpClient.Close | client/app_core/crates/relay-client/src/runtime.rs:475-484 | socket and ticket are gone, the client is closed |
| DerpRuntime.InMemoryDerpPool.InstallCluster | client/app_core/crates/relay-client/src/runtime.rs:1037-1073 | old clients are closed, links are fresh, nothing is active, the epoch is zero |
| DerpRuntime.InMemoryDerpPool.EnsureLinkReady | client/app_core/crates/relay-client/src/runtime.rs:1014-1028 | a ready client is kept, any other is connected and given the ticket; no other link changes |
| DerpRuntime.InMemoryDerpPool.WarmUp | client/app_core/crates/relay-client/src/runtime.rs:1075-1103 | the loop over mutable links computes the specified warm-up, errors included |
| DerpRuntime.InMemoryDerpPool.TickHealthCheck | client/app_core/crates/relay-client/src/runtime.rs:1149-1181 | only ready links are probed; both counters saturate; a good probe clears the failures |
| DerpRuntime.InMemoryDerpPool.MaybeSwitch | client/app_core/crates/relay-client/src/runtime.rs:1183-1207 | active node, epoch and event as specified, links untouched |
| DerpRuntime.InMemoryDerpPool.ForceSwitch | client/app_core/crates/relay-client/src/runtime.rs:1228-1257 | readies the first link of that id, then switches; errors leave the active node |
| DerpRuntime.InMemoryDerpPool.Close | client/app_core/crates/relay-client/src/runtime.rs:1259-1271 | every client is closed and nothing is active |
| RetryPolicy.PairKeyExact | server/server-biz/api/http/control_ws_policy.go:74-79 | two keys agree exactly when the networks agree and the pairs agree in either order, for separator-free ids |
| RetryPolicy.SeparatorCollides | server/server-biz/api/http/control_ws_policy.go:74-79 | with a separator inside an id two different pairs share a key |
| RetryPolicy.ThrottleShape | server/server-biz/api/http/control_ws_policy.go:49-65 | consecutive grants are a back-off apart and the next opening follows from the last grant |
| RetryPolicy.RedisLags | server/server-biz/internal/repo/redis.go:206-229 | on every timed trace within the counter's life the k-th Redis grant is never earlier than the k-th throttle grant and there are never more, by a simulation that also counts refused attempts |
| RetryPolicy.RedisLagsExactly | server/server-biz/internal/repo/redis.go:206-229 | for a span, the comparison holds on all traces of that span if and only if it is below five minutes |
| RetryPolicy.LockstepRun | server/server-biz/internal/repo/redis.go:259-272 | reports made just as the gates reopen are granted by both up to the nineteenth |
| RetryPolicy.GrantSpacing | server/server-biz/api/http/control_ws_policy.go:49-94 | without reset the n-th grant, n >= 5, comes at least 17 + 20 (n - 5) seconds after the first |
| RetryPolicy.ThrottleGrantsExactly | server/server-biz/api/http/control_ws_policy.go:49-65 | the throttle grants a report if and only if every report granted before has had the back-off of the grants until then; refused reports change nothing |
| RetryPolicy.RedisGrantsExactly | server/server-biz/internal/repo/redis.go:206-229 | within the counter's life Redis grants a report if and only if every report granted before has had the back-off of the reports until then; a refusal never moves the opening |
| RetryPolicy.PairsAreIsolated | server/server-biz/api/http/control_ws_policy.go:49-79 | after any mix of reports and resets a pair's state is what its own reports since its last reset would give alone, in whichever order its ids were given |
| RetryPolicy.ConnectPlanThrottle.AllowRetry | server/server-biz/api/http/control_ws_policy.go:49-65 | refused before the opening time without any change; else one more failure and a new opening time for this pair only |
| RetryPolicy.ConnectPlanThrottle.ResetRetry | server/server-biz/api/http/control_ws_policy.go:67-72 | forgets this pair only |
| RetryPolicy.RetryStore.AcquireConnectPlanRetry | server/server-biz/internal/repo/redis.go:206-229 | counter, expiry and gate step as specified, no other pair is touched |
| RetryPolicy.RetryStore.ResetConnectPlanRetry | server/server-biz/internal/repo/redis.go:231-238 | counter and gate of this pair are gone, no other is touched |
| CandidateWindow.KeyExact | server/server-biz/api/http/control_ws_policy.go:118-120 | two candidates share a key exactly when all six fields agree, with any endpoint text, for both separators |
| CandidateWindow.SameAnswers | server/server-biz/api/http/control_ws_policy.go:96-116 | the swept window and the Redis key give the same answers on every timed trace of candidates that collide alike under the two key formats |
| CandidateWindow.SameAnswersExactly | server/server-biz/internal/repo/redis.go:240-257 | for a set of candidates, the answers agree on all timed traces over it if and only if its candidates collide alike |
| CandidateWindow.FreeCollideAlike | server/server-biz/internal/repo/redis.go:255-257 | candidates whose network, source, target and type are free of both separators do, whatever their endpoints |
| CandidateWindow.ColonCollides | server/server-biz/internal/repo/redis.go:255-257 | two candidates with a colon in an id that share only the Redis key |
| CandidateWindow.GrantsAreSpaced | server/server-biz/internal/repo/redis.go:240-246 | two grants for one candidate are at least the first one's time to live apart, in both implementations |
| CandidateWindow.GrantedExactly | server/server-biz/internal/repo/redis.go:240-246 | both stores grant a request if and only if every request granted before for its key has outlived its time to live, ten seconds if none is given; refusals change nothing |
| CandidateWindow.PeerCandidateWindow.AcquireDelivery | server/server-biz/api/http/control_ws_policy.go:96-116 | the sweeping loop and the test compute the specified window and answer |
| CandidateWindow.DeliveryKeys.AcquirePeerCandidateDelivery | server/server-biz/internal/repo/redis.go:240-246 | set-if-absent with the default time to live for non-positive ones |
| MessageDelivery.EveryMessageInOnePlace | server/server-biz/internal/repo/message_repo.go:19-102 | with any number of scanning instances and acknowledgements interleaved anywhere, a created message is either one row, pending or acked, or in history, and attempt counts stay in 1..5 |
| MessageDelivery.AckedRowIsFrozen | server/server-biz/internal/repo/message_repo.go:35-74 | after any run that acked a message, no later scan of any instance lists it, and its row stays as it is, attempt count included, until it is archived, even if it was on a list already |
| MessageDelivery.ClaimsRun | server/server-biz/internal/repo/message_repo.go:51-102 | entries written plus archivings in flight always equal the claims made, and a second claim can only come while the first is in flight |
| MessageDelivery.HistoryEntriesExact | server/server-biz/internal/service/impl/message_delivery.go:26-32 | with any number of loops and overlapping acknowledgements, history entries plus archivings in flight are exactly the acknowledgements that read the message pending plus its last listings; there are two or more, once nothing is in flight, if and only if one of these came while another was in flight |
| MessageDelivery.AckReadExact | server/server-biz/internal/repo/message_repo.go:58-64 | a pending message of the same user, of no user, or read for no user is taken on; any other read changes nothing |
| MessageDelivery.AckUpdateExact | server/server-biz/internal/repo/message_repo.go:65-71 | a row still pending is marked with the time, any other is left alone |
| MessageDelivery.OnlyOwnerAcknowledges | server/server-biz/internal/repo/message_repo.go:62-64 | over every run, a message created for a user becomes acked or is archived as delivered only if that user, or nobody in particular, acknowledged it since |
| MessageDelivery.ScansWait | server/server-biz/api/http/control_ws.go:69 | a scan lists at most 64 rows, none within three seconds of its last attempt |
| MessageDelivery.AckTimeIsLost | server/server-biz/internal/service/impl/message_delivery.go:26-32 | over every run no history entry carries an acknowledgement time: what is archived was read before it was marked |
| DeliveryProgress.RunLowers | server/server-biz/api/http/control_ws.go:68-92 | with any number of loops, the listings made plus what the pending messages may still cost never exceed what they could cost at first |
| DeliveryProgress.DeliveryTerminates | server/server-biz/api/http/control_ws.go:61-95 | from any reachable state, without new messages and with n loops, N pending messages are listed at most N (n + n^2 + n^3 + n^4 + n^5) times in all, each scan that finds work uses up at least one of these, and none is passed over by the 64-row limit more often than a sixty-fourth of them |
| DeliveryProgress.WeightForm | server/server-biz/api/http/control_ws.go:74-92 | the closed form of that bound, which for one loop is five listings per message |
| DeliveryProgress.AttemptsFallExactly | server/server-biz/internal/repo/message_repo.go:35-49 | a message that stays pending loses attempts if and only if a loop records an attempt from a list at least two behind the row |
| DeliveryProgress.SoloAttemptsNeverFall | server/server-biz/api/http/control_ws.go:69-92 | with one loop the attempt count never falls |
| DeliveryProgress.StaleListLowersCount | server/server-biz/internal/repo/message_repo.go:35-49 | a run of two loops in which a stale list sets the count from three back to two |
| DeliveryProgress.AckRaceArchivesTwice | server/server-biz/internal/repo/message_repo.go:76-102 | a run of one loop that archives a message both as undelivered and as delivered |
| DeliveryProgress.OverlappingAcksArchiveTwice | server/server-biz/internal/repo/message_repo.go:58-72 | a run without any retry in which two acknowledgements both read the pending row and archive it twice as delivered |
| MessageStore.Store.CreatePending | server/server-biz/internal/repo/message_repo.go:9-11 | inserts a pending row with one attempt, or fails on a known id |
| MessageStore.Store.ListRetryable | server/server-biz/internal/repo/message_repo.go:19-33 | returns the earliest pending rows not attempted after the bound, in order, all of them or as many as the limit |
| MessageStore.Store.UpdateAttempt | server/server-biz/internal/repo/message_repo.go:35-49 | changes attempt count and time of a pending row only |
| MessageStore.Store.ReadAckable | server/server-biz/internal/repo/message_repo.go:58-64 | finds a pending row of the right user and changes nothing |
| MessageStore.Store.UpdateAcked | server/server-biz/internal/repo/message_repo.go:65-71 | marks the row only if it still is pending, and is no error otherwise |
| MessageStore.Store.MarkAcked | server/server-biz/internal/repo/message_repo.go:51-74 | the two without interference: marks a pending row of the right user and returns it as read before the update |
| MessageStore.Store.Archive | server/server-biz/internal/repo/message_repo.go:76-102 | writes history and deletes the row whatever its status |
| MessageStore.Store.Ack | server/server-biz/internal/service/impl/message_delivery.go:26-32 | marks, then archives as delivered the record that was read |
| MessageStore.Store.RetryTick | server/server-biz/api/http/control_ws.go:69-92 | one tick lists at most 64 rows and archives or records each in turn |
| Fanout.OneBroadcastPerInstance | server/server-biz/api/http/control_ws_sync.go:13-26 | over every interleaving, an instance a fan-out reaches has broadcast it exactly once or owes exactly one broadcast; one it does not reach never does, so nothing is re-published |
| Fanout.ReachedExactlyOnce | server/server-biz/api/http/control_ws_fanout.go:9-56 | a node that keeps its session is written to exactly once if it is of the network, not the source, and its instance is reached, and never otherwise; what is not written yet is still owed |
| Fanout.DrainedExactlyOnce | server/server-biz/api/http/control_ws_fanout.go:130-151 | once nothing is in flight the count is exactly one or exactly zero; a removal without network or source reaches nobody |
| Fanout.NeverMisdelivered | server/server-biz/api/http/control_ws_sessions.go:86-98 | whatever sessions come and go, no broadcast is written to the source or outside the network |
| Fanout.InFlightIsBounded | server/server-biz/api/http/control_ws_sync.go:15-26 | with no new fan-out, handling what is in flight ends within a bound given by the state, in any order |
| Fanout.NextWork | server/server-biz/api/http/control_ws_sync.go:15-26 | and never gets stuck before everything is drained |
| Fanout.HeardOncePerHome | server/server-biz/api/http/control_ws_sync.go:13-26 | wherever its sessions come and go, a node hears a fan-out at most once per instance that had an addressed session of it while still owing the broadcast |
| Fanout.MovedNodeHearsTwice | server/server-biz/api/http/control_ws_fanout.go:20-33 | and that often it can: a node that changes instance between announcement and delivery hears the fan-out twice |
| Fanout.RevisionsIncreaseExactly | server/server-biz/api/http/control_ws_fanout.go:14-19 | a network's revisions strictly increase, in INCR order, if and only if each draw without a counter is the network's first and all later ones find the counter moved on; in particular when every INCR succeeds |
| Fanout.FailedIncrRepeatsRevision | server/server-biz/api/http/control_ws_fanout.go:14-19 | one failed INCR gives a network two equal revisions |
| Fanout.RunCountersAhead | server/server-biz/internal/repo/redis.go:187-193 | counters are ahead of every revision drawn, and draws of one network increase |
| Fanout.BegunFan | server/server-biz/api/http/control_ws_fanout.go:9-42 | a fan-out carries what began it, and its revision counts its network's draws up to its own, or is 1 without a counter |
| FanoutRuntime.ControlHub.Register | server/server-biz/api/http/control_ws_sessions.go:56-62 | the node's session is replaced, others are kept |
| FanoutRuntime.ControlHub.Unregister | server/server-biz/api/http/control_ws_sessions.go:65-74 | the node's session is gone; an empty id changes nothing |
| FanoutRuntime.ControlHub.PeersInNetwork | server/server-biz/api/http/control_ws_sessions.go:86-98 | lists each session of the network but the excluded one exactly once, in whatever order the map is walked |
| FanoutRuntime.ListedIsComplete | server/server-biz/api/http/control_ws_sessions.go:86-98 | such a listing leaves no session out |
| FanoutRuntime.ControlHub.BroadcastPeerUpdate | server/server-biz/api/http/control_ws_fanout.go:130-138 | sends once to each recipient |
| FanoutRuntime.ControlHub.BroadcastPeerRemove | server/server-biz/api/http/control_ws_fanout.go:140-151 | sends once to each recipient, to nobody without network or source |
| FanoutRuntime.ControlHub.HandleSync | server/server-biz/api/http/control_ws_sync.go:15-26 | an event of this instance's own id is skipped, any other is broadcast to the recipients |
| JsonRoundTrip.StringRoundTrip | client/app_core_plugin_windows/windows/slan_app_core_plugin_windows_plugin.cpp:26-63 | parsing an escaped string gives the string back, whatever follows |
| JsonRoundTrip.NumberRoundTrip | client/app_core_plugin_windows/windows/slan_app_core_plugin_windows_plugin.cpp:100-128 | parsing a printed integer gives it back |
| JsonRoundTrip.ValueRoundTrip | client/app_core_plugin_windows/windows/slan_app_core_plugin_windows_plugin.cpp:67-128 | parsing a printed tree gives its JSON value and leaves what follows |
| JsonRoundTrip.TextRoundTrip | client/app_core_plugin_windows/windows/slan_app_core_plugin_windows_plugin.cpp:26-128 | every printed tree is a JSON text of RFC 8259 with the intended value; entries without a string key are left out |
| JsonRoundTrip.TreeRoundTrip | client/app_core_plugin_windows/windows/slan_app_core_plugin_windows_plugin.cpp:26-128 | for trees of null, bool, integer, string, list and string-keyed map the parsed text is the very tree |
| JsonShortest.PrintIsShortest | client/app_core_plugin_windows/windows/slan_app_core_plugin_windows_plugin.cpp:26-128 | no JSON text of RFC 8259 with the tree's value is shorter than the printed one |
| JsonRoundTrip.PrintIsClean | client/app_core_plugin_windows/windows/slan_app_core_plugin_windows_plugin.cpp:26-128 | no printed tree holds a control character |
| JsonRoundTrip.RequestHasOneNewline | client/app_core_plugin_windows/windows/slan_app_core_plugin_windows_plugin.cpp:158-170 | a request line holds exactly one newline, at its end |
| JsonRoundTrip.FramingKeepsRequests | client/app_core/crates/app-core-helper/src/main.rs:68-77 | reading any sequence of requests line by line gives those requests, none split or merged, and each parses to its method and arguments |
| HelperPrinter.EscapeJsonString | client/app_core_plugin_windows/windows/slan_app_core_plugin_windows_plugin.cpp:26-63 | the loop computes the escaped string of the round trip |
| HelperPrinter.JsonFromEncodableMap | client/app_core_plugin_windows/windows/slan_app_core_plugin_windows_plugin.cpp:67-85 | the loop prints the string-keyed entries of the round trip, commas between them only |
| HelperPrinter.JsonFromEncodableList | client/app_core_plugin_windows/windows/slan_app_core_plugin_windows_plugin.cpp:87-98 | the loop prints the items of the round trip |
| HelperPrinter.JsonFromEncodableValue | client/app_core_plugin_windows/windows/slan_app_core_plugin_windows_plugin.cpp:100-128 | the recursive printer computes the text of the round trip |
| HelperPrinter.BuildHelperRequestJson | client/app_core_plugin_windows/windows/slan_app_core_plugin_windows_plugin.cpp:158-170 | builds the request line of the framing result |
| HelperPrinter.ReadResponseLine | client/app_core_plugin_windows/windows/slan_app_core_plugin_windows_plugin.cpp:619-636 | succeeds exactly when the stream holds a newline, returning what is before the first and leaving what is after it |
| FrameCodec.MaskTwice | client/app_core/crates/control-ws-client/src/lib.rs:609-676 | masking twice with one key gives the payload back (section 5.3 of RFC 6455) |
| FrameCodec.DecodesEveryFrame | client/app_core/crates/control-ws-client/src/lib.rs:629-676 | every text frame of section 5.2 of RFC 6455, masked with any key or none, in any length form, decodes to its payload and leaves the rest |
| FrameCodec.DecodesOnlyFrames | client/app_core/crates/control-ws-client/src/lib.rs:629-676 | whatever decodes is such a frame followed by the rest |
| FrameCodec.RoundTrip | client/app_core/crates/control-ws-client/src/lib.rs:609-676 | an encoded frame followed by any bytes decodes to exactly the payload and those bytes, across all three length forms |
| FrameCodec.EncodeIsShortest | client/app_core/crates/control-ws-client/src/lib.rs:609-627 | no masked frame that decodes to the payload is shorter than the encoder's |
| FrameCodec.StreamRoundTrip | client/app_core/crates/control-ws-client/src/lib.rs:609-676 | any concatenation of frames decodes to the list of payloads |
| FrameCodec.MoreBytesKeepAnswer | client/app_core/crates/control-ws-client/src/lib.rs:629-676 | an answer other than end of stream does not depend on what follows |
| FrameCodec.TruncationDetected | client/app_core/crates/control-ws-client/src/lib.rs:629-676 | every proper prefix of an encoded frame reads as end of stream |
| FrameLayout.EncodedHeader | client/app_core/crates/control-ws-client/src/lib.rs:609-622 | final text frame, mask bit with the shortest length form, key 12 34 56 78, and as many bytes as the payload |
| FrameLayout.EncodedLength | client/app_core/crates/control-ws-client/src/lib.rs:613-620 | the length bytes are in network byte order |
| FrameLayout.MaskBits | client/app_core/crates/control-ws-client/src/lib.rs:623-625 | bit j of masked byte i is set if and only if that bit of the payload byte and of key byte i modulo four differ (section 5.3 of RFC 6455) |
| FrameLayout.EncodedPayload | client/app_core/crates/control-ws-client/src/lib.rs:623-625 | so it is on the wire, bit by bit, with the encoder's key |
| FrameLayout.DecodeRefusals | client/app_core/crates/control-ws-client/src/lib.rs:629-676 | the decoder refuses close frames, frames of other opcodes by name, and streams that end before the frame does, and nothing else |
| FrameCodec.EncodeTextFrame | client/app_core/crates/control-ws-client/src/lib.rs:609-627 | the masking loop produces the frame of the round trip |
| FrameCodec.DecodeTextFrame | client/app_core/crates/control-ws-client/src/lib.rs:629-676 | the step-by-step reader computes the decoder of the round trip, its errors included |
| EventQueue.ReadEventBalances | client/app_core/crates/control-ws-client/src/lib.rs:326-335 | queued before plus arrived equals taken plus queued after |
| EventQueue.CollectBalances | client/app_core/crates/control-ws-client/src/lib.rs:337-364 | the same for a drain, which takes at most its limit |
| EventQueue.CollectExactly | client/app_core/crates/control-ws-client/src/lib.rs:337-364 | told from the queue and the reads to come: a drain takes what is at hand up to its limit, and fails exactly when that is less than the limit and a non-timeout error comes next |
| EventQueue.ResponseBalances | client/app_core/crates/control-ws-client/src/lib.rs:391-409 | waiting for a response queues every event met and takes none |
| EventQueue.ResponseExact | client/app_core/crates/control-ws-client/src/lib.rs:391-409 | the wait succeeds if and only if the first frame that is no event is there, is no error and is of the expected kind; it and the events before it are consumed |
| EventQueue.EventsConservedExactly | client/app_core/crates/control-ws-client/src/lib.rs:326-409 | over every sequence of calls, events handed out followed by events queued are exactly the events of the frames consumed, in order, if and only if no drain is made with some events at hand, fewer than its limit, before a non-timeout error |
| EventQueue.DrainDropsEvent | client/app_core/crates/control-ws-client/src/lib.rs:351-358 | a drain that consumes an event and neither hands it out nor queues it |
| EventQueue.ControlWsClient.NextEvent | client/app_core/crates/control-ws-client/src/lib.rs:326-335 | the queue is served before the wire |
| EventQueue.ControlWsClient.DrainPendingEvents | client/app_core/crates/control-ws-client/src/lib.rs:337-364 | the loop computes the drain of the conservation result |
| EventQueue.ControlWsClient.AwaitResponse | client/app_core/crates/control-ws-client/src/lib.rs:391-409 | the loop computes the wait of the conservation result |
| EventFold.FoldIsNodewise | client/app_core/crates/ffi-bridge/src/default_facade.rs:1272-1319 | node ids stay unique, each node's peer and plan is the fold of the events about it alone, and the revision is the largest seen |
| EventFold.FoldCollects | client/app_core/crates/ffi-bridge/src/default_facade.rs:1303-1317 | a fold hands on every address event in order and keeps the last enabled network |
| EventFold.LastDecides | client/app_core/crates/ffi-bridge/src/default_facade.rs:1280-1314 | a node's peer is its last write, at the last address its own device got in this network since |
| EventFold.LastWriterWins | client/app_core/crates/ffi-bridge/src/default_facade.rs:1272-1319 | sequences that agree, for each node that occurs, on its last update or remove, the last address of its device since and its last plan or remove, and on the largest revision, fold to the same peers, plans and revision |
| EventFold.RedeliveryExact | client/app_core/crates/ffi-bridge/src/default_facade.rs:1272-1319 | redelivering an update, remove or plan is harmless if and only if the last writers of its node since, and the last address, say the same |
| EventFold.UntouchedIsCurrent | client/app_core/crates/ffi-bridge/src/default_facade.rs:1272-1319 | which is so whenever no event since was about that node or its device's address |
| EventFold.ControlState.ApplyEvent | client/app_core/crates/ffi-bridge/src/default_facade.rs:1272-1319 | the in-place update of map, plans and collected changes computes one step of the fold |
| EventFold.ControlState.UpdatePeer | client/app_core/crates/ffi-bridge/src/default_facade.rs:1280-1290 | replaces the first peer of the node, or appends |
| EventFold.ControlState.RetainOthers | client/app_core/crates/ffi-bridge/src/default_facade.rs:1292-1298 | drops every peer of the node and keeps the others in order |
| EventFold.ControlState.ReaddressDevice | client/app_core/crates/ffi-bridge/src/default_facade.rs:1304-1313 | gives every peer of the device the new address and changes no other |
| Facade.ReplaceKeepsMatch | client/app_core/crates/ffi-bridge/src/state_helpers.rs:43-67 | replacing a tunnel keeps tracker and backend in step whatever fails; on success the tracker is the wanted peer |
| Facade.TunnelsMatchExactly | client/app_core/crates/ffi-bridge/src/default_facade.rs:1245-1260 | over every run of operations one at a time the backend's peers are the tracked one in all states if and only if no disconnect with a tracked tunnel has its close fail |
| Facade.ConnectCoherent | client/app_core/crates/ffi-bridge/src/default_facade.rs:1076-1176 | a connect that returns Ok returns the stored connection state and stores the manager's path; an error leaves the snapshot as it was |
| Facade.SnapshotAlwaysCoherent | client/app_core/crates/ffi-bridge/src/snapshot_updates.rs:8-38 | in every state reachable by operations one at a time the connection state is derived from the path, the tunnel address is the runtime's, and the runtime's transport is the connected one |
| Facade.TunnelToNamedExactly | client/app_core/crates/ffi-bridge/src/default_facade.rs:870-978 | in all states of a run a stored tunnel is to the node its stored path names if and only if no connect gets through over a path it did not choose; with the shipped connectors that is always so |
| Facade.SyncKeepsTunnelToNamed | client/app_core/crates/ffi-bridge/src/default_facade.rs:873-945 | a sync looks its peer up by the stored path, so it rebuilds the tunnel of the node the path names |
| Facade.AddressTrackedExactly | client/app_core/crates/ffi-bridge/src/state_helpers.rs:54-66 | the snapshot's tunnel address is the tracked one in all states of a run if and only if no replacement loses its tunnel between close and establish, no connect ends without a path, and no disconnect fails to close |
| Facade.LostTunnelStaysInSnapshot | client/app_core/crates/ffi-bridge/src/state_helpers.rs:54-66 | a run in which tracker and backend agree and the snapshot names a tunnel that is gone |
| Facade.FailedCloseLeavesTunnel | client/app_core/crates/ffi-bridge/src/default_facade.rs:1251-1258 | a run in which a disconnect leaves a tunnel nobody tracks |
| Facade.ReportedTransportExact | client/app_core/crates/ffi-bridge/src/default_facade.rs:1083-1176 | a successful connect reports what its deciding attempt reported if and only if the path manager's choice is of that kind; with the shipped connectors, if and only if it does not use the relay while the pool has an active link, and its path then names this peer or a pool link |
| Facade.RelayReportExact | client/app_core/crates/relay-client/src/runtime.rs:818-836 | over every run, a relay connect is reported as DERP over the link left by the last connect that asked the pool, if it left one, and as the relay otherwise |
| Facade.RelayReportedAsDerp | client/app_core/crates/ffi-bridge/src/default_facade.rs:1126-1176 | a run of the shipped connectors: connect through the pool, disconnect, connect another peer through the relay, reported as DERP over the first peer's link |
| FacadeOutcomes.ConnectOkExact | client/app_core/crates/ffi-bridge/src/default_facade.rs:1076-1176 | from peer, outcomes and old state: a connect returns Ok if and only if the direct attempt gets through, or relay is allowed and the pool gets ready or, without a pool, the relay answers; and then, unless no path came of it, the key can be had and the backend does what the tracked tunnel calls for |
| FacadeOutcomes.ForbiddenRelayIsNotUsed | client/app_core/crates/ffi-bridge/src/default_facade.rs:1113-1118 | a peer that does not allow relay fallback is only ever reached directly |
| FacadeOutcomes.ConnectStores | client/app_core/crates/ffi-bridge/src/default_facade.rs:1152-1168 | a successful connect stores the tunnel to the peer's first address with its key and first endpoint, and the backend has it from this device's address if it is new |
| FacadeOutcomes.SyncPeerExact | client/app_core/crates/ffi-bridge/src/default_facade.rs:873-945 | a sync rebuilds for an address change only, from the new map's entry if there is one and else the old one's, at the new address |
| FacadeOutcomes.SyncExact | client/app_core/crates/ffi-bridge/src/default_facade.rs:964-978 | when the tunnel part of a sync succeeds, what it stores, and that connection, path and pool stay |
| FacadeOutcomes.DisconnectExact | client/app_core/crates/ffi-bridge/src/default_facade.rs:1245-1260 | when a disconnect succeeds and what it leaves either way |
| FacadeOutcomes.InForceExactly | client/app_core/crates/ffi-bridge/src/state_helpers.rs:60-65 | the stored tunnel runtime is the one in force in all states of a run if and only if no connect or sync stores another configuration for the address that is tracked already |
| FacadeOutcomes.OwnAddressIsNotApplied | client/app_core/crates/ffi-bridge/src/default_facade.rs:964-978 | a sync after this device's own address change succeeds and leaves the tunnel with the old address |
| FacadeSteps.AloneIsFinalize | client/app_core/crates/ffi-bridge/src/connect_runtime.rs:50-75 | left alone, the lock-by-lock steps of a connect's end are the sequential ones |
| FacadeSteps.AloneIsDisconnect | client/app_core/crates/ffi-bridge/src/default_facade.rs:1245-1260 | left alone, the lock-by-lock steps of a disconnect are the sequential ones |
| FacadeSteps.InterleavedMatchExactly | client/app_core/crates/ffi-bridge/src/default_facade.rs:1251-1258 | over every interleaving of any number of connects with syncs and disconnects, tracker and backend agree whenever no close is pending if and only if each close succeeds on a tunnel not brought back, or fails on one already gone or brought back |
| FacadeSteps.InterleavedCoherentExactly | client/app_core/crates/ffi-bridge/src/connect_runtime.rs:59-75 | over every interleaving the snapshot is coherent in all states if and only if no connect stores its result after others last set a path of another kind between its two reads of the path, or last left another address between its tunnel replacement and its read of the tracker, and no sync stores its own after a connect last stored a connection of another kind meanwhile |
| FacadeSteps.QuietIsCoherent | client/app_core/crates/ffi-bridge/src/default_facade.rs:1152-1168 | however many operations overlap, the snapshot stays coherent in schedules where no path is set, tracker written or connection stored inside another's window for it |
| FacadeSteps.ReconnectDuringDisconnect | client/app_core/crates/ffi-bridge/src/default_facade.rs:1251-1258 | an interleaving without any failure that ends with a tracked tunnel and an empty backend |
| FacadeSteps.ConnectsMixTunnels | client/app_core/crates/ffi-bridge/src/connect_runtime.rs:59-75 | an interleaving of two connects that stores one peer's address with the other's runtime |
| FacadeRuntime.TunnelBackend.Establish | client/app_core/crates/tunnel/src/backend.rs:91-101 | inserts the peer, or nothing on failure |
| FacadeRuntime.TunnelBackend.Close | client/app_core/crates/tunnel/src/backend.rs:103-110 | removes the peer, or nothing on failure |
| FacadeRuntime.AppCoreFacade.Replace | client/app_core/crates/ffi-bridge/src/state_helpers.rs:43-67 | close and establish in sequence compute the specified tracker and backend peers |
| FacadeRuntime.AppCoreFacade.FinalizeConnectedPath | client/app_core/crates/ffi-bridge/src/connect_runtime.rs:50-75 | the snapshot is written only after the tunnel could be replaced |
| FacadeRuntime.AppCoreFacade.OnP2PFailed | client/app_core/crates/relay-client/src/runtime.rs:818-836 | falls back to the pool's active link, else to the relay |
| FacadeRuntime.AppCoreFacade.ChoosePath | client/app_core/crates/ffi-bridge/src/default_facade.rs:1083-1151 | tries direct, pool and relay in order with the source's error returns |
| FacadeRuntime.AppCoreFacade.ConnectPeer | client/app_core/crates/ffi-bridge/src/default_facade.rs:1076-1176 | the step-by-step connect computes the state and result the laws are about |
| FacadeRuntime.AppCoreFacade.ReapplyTunnel | client/app_core/crates/ffi-bridge/src/default_facade.rs:873-978 | looks up the peer the stored path names, in the new map and then the old, and rebuilds its tunnel and the snapshot's tunnel fields |
| FacadeRuntime.AppCoreFacade.DisconnectAll | client/app_core/crates/ffi-bridge/src/default_facade.rs:1245-1260 | empties the tracker before closing; a failed close leaves the snapshot |
| LockOrder.GuardsIncrease | client/app_core/crates/ffi-bridge/src/default_facade.rs:266-283 | a thread's guards are in strictly increasing rank, so none is taken twice |
| LockOrder.NeverDeadlocked | client/app_core/crates/ffi-bridge/src/default_facade.rs:36-58 | threads running ordered code never reach a set that waits for itself |
| LockOrder.OppositeOrdersDeadlock | client/app_core/crates/ffi-bridge/src/default_facade.rs:36-58 | two mutexes taken in opposite orders do reach one |
| FacadeLocks.EveryOpOrdered | client/app_core/crates/ffi-bridge/src/default_facade.rs:530-1260 | every facade operation takes control channel, tunnel tracker and snapshot in that order, and the collaborators' mutexes after them |
| FacadeLocks.FacadeTakesInOrder | client/app_core/crates/ffi-bridge/src/default_facade.rs:663-980 | at every moment of every schedule a thread asks only for a mutex above all it holds, never for one it holds |
| FacadeLocks.FacadeNeverDeadlocks | client/app_core/crates/ffi-bridge/src/default_facade.rs:663-1260 | no interleaving of any number of threads, each running any list of operations, reaches a deadlock |
| FacadeLocks.FacadeAlwaysGoesOn | client/app_core/crates/ffi-bridge/src/default_facade.rs:663-1260 | as long as some thread is unfinished, some thread can take a step |
| FacadeLocks.OneHolder | client/app_core/crates/ffi-bridge/src/default_facade.rs:36-58 | no mutex ever has two holders |
| LockGuards.FacadeGuards | client/app_core/crates/ffi-bridge/src/state_helpers.rs:48-66 | in every schedule whoever is in the tunnel backend holds the tracker's or the control channel's mutex, and whoever is in a DERP client holds the pool's |

## Left out

- Sockets, partial reads, read timeouts, HTTP transport and WebSocket upgrade: a connect, probe, frame read or send is one step with an outcome given as input; failures to set a socket option are not modelled.
- serde decoding, DTO conversions and WS mappers: field copying only.
- Other tables, RBAC, auth tokens, configuration, routes: they would only add easy members.
- Platform tunnel adapters (Linux, Windows, macOS), PowerShell and `wg` execution: their meaning lives in external tools.
- Swift and Flutter layers, the command line client and the user interface: they delegate.
- Netmask computation and error-code tables: finite.
- Metrics and key-file persistence: counters and file I/O.
- Doubles in the printer: library formatting loses precision, so the value type has none. Text is code points, not bytes.
- Lock poisoning: every lock call succeeds. The panic that poisons a mutex is not modelled.
- Errors of database and Redis calls, and the fall-back from Redis to process memory after one: calls succeed, except INCR in the fan-out.
- Redis time: a key written at t with life d is present on [t, t + d), and all instances read one clock.
- Publish/subscribe: the channel delivers each event to every instance once; lost subscriptions and reconnects are not modelled.
- connect_plan, peer_candidate, restart, address and active-network fan-outs: they follow the same dispatch without revisions of their own.
- 64-bit overflow of switch_epoch, revisions and counters: unbounded here.
- Closing a DERP client cannot fail: `SocketDerpClient.close` fails only on a poisoned lock.
- The pool's outcome in a connect is an input of `Facade`; `RelayPool.WarmedPoolHasActiveLink` says which outcomes there are.
- restore_snapshot as a source of tunnel state: it sets the tracker without the backend, so it appears only among the locked operations.
- A response whose expected type is an event type: the client asks only for node_hello_ack, network_map_response and pong.
- FrameCodec.EncodeTextFrame: payloads of 2^64 bytes and more have no encoding and are excluded, as no buffer is that long.
- CandidateWindow.SameAnswers: takes request times that do not go back, as a monotonic clock gives them.
- Facade.TunnelsMatchExactly: takes operations one at a time; `FacadeSteps.InterleavedMatchExactly` is the interleaved form.
- Facade.SnapshotAlwaysCoherent: takes operations one at a time; `FacadeSteps.InterleavedCoherentExactly` is the interleaved form.
- In `FacadeSteps` the routing of a fallback connect is reduced to the path it sets, which may be any, and restore_snapshot is left out.
- Fanout.ReachedExactlyOnce: is about nodes that keep their session; `Fanout.HeardOncePerHome` bounds the others.
- DeliveryProgress.DeliveryTerminates: its bound is exact for one loop and not claimed to be for more.
