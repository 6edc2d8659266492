# Verification of the dicode relay

This project models the relay, the daemon client that dials it, the request
metrics and the stateless OAuth broker, and proves what they promise. One
JavaScript event handler runs to completion, so one handler is one atomic step;
the environment (sockets, timers, callers, clocks) chooses the steps.

| file | models |
|---|---|
| `Prelude.dfy` | options, bytes, a few helpers |
| `Keepalive.dfy` | the ping and pong timers one connection closure holds |
| `Relay.dfy` | `RelayServer` as a state machine over handlers |
| `RelayInvariants.dfy` | what every step keeps: request bookkeeping and registry |
| `RelayTheorems.dfy` | conservation, settlement, registration, event traces over whole runs |
| `RelayTrace.dfy` | the whole connect and disconnect trace of a daemon, shutdowns included |
| `RelayServer.dfy` | `RelayServer` as a class that updates its maps in place, tied to the state machine |
| `RelayWrites.dfy` | which socket a request is written to, and that it is written once |
| `RelayFrames.dfy` | the order of frames on a socket, and which sockets of a daemon may still be open |
| `KeepaliveTiming.dfy`, `ResponsivePeer.dfy` | keepalive on a clock: how long a silent daemon stays, when a responsive one is safe |
| `RequestTiming.dfy` | request timers on the same clock: how long a request stays pending |
| `Handover.dfy` | the daemon's `adaptWs` queue and the handshake-to-serve hand-over, as a machine and as a class |
| `Paths.dfy` | the path check of `dispatchRequest`: percent-decoding against UTF-8, POSIX normalisation by segments |
| `Forwarder.dfy` | `dispatchRequest`: headers both ways, the capped body loop, one answer per request |
| `EndToEnd.dfy` | the server composed with honest daemons and rogue peers |
| `Progress.dfy` | what the composed system can always do next: a daemon can attach, a forward can be answered |
| `Rings.dfy`, `Metrics.dfy` | lazily advanced ring buffers against a log of timestamps; one client's entry |
| `MetricsCollector.dfy` | `MetricsCollector` with its arrays updated in place |
| `Status.dfy` | the listeners that feed relay events into the metrics, with snapshots at any time |
| `Seen.dfy` | the single-use guard as a bounded queue with start times, and as a class |
| `FlowState.dfy` | what is sealed into a flow token and what an opened one must look like |
| `Broker.dfy`, `BrokerRouter.dfy` | `/auth` and `/callback` on many instances: pure handlers, and the handlers on cookie and guard objects |
| `BrokerTheorems.dfy` | where deliveries go, and how often, over whole runs |
| `Preimages.dfy` | signature preimages with their parsers, GCM framing |
| `Der.dfy` | P1363 to DER, in place, against a DER reader |

Where a property that one would expect turned out not to hold of the code, the
condition under which it does hold is proved exactly:

- Keepalive terminates no open socket whose pings are all answered within their
  timeout if and only if the pong timeout is not longer than the ping interval
  (`SparesExactly`). With a longer timeout a second ping overwrites `pongTimer`
  while the first timer is still armed, and no pong clears it.
- `close()` empties the registry without announcing it. The events of a daemon
  alternate over a whole run if and only if no `close()` that finds it
  registered is followed by an accepted hello of it (`AlternatesExactly`, with
  `CloseBreaksAlternation` as an example).
- For the same reason the metrics entries are not always the registered
  daemons. At any point of any run a daemon has an entry exactly when it is
  registered or was left behind: some `close()` found it registered and no
  accepted hello of it has followed (`EntryExactly`). So entries and registry
  agree if and only if nobody is left behind (`EntriesAreClients`), and after a
  `close()` only if nobody was connected either (`CloseLeavesEntries`).
- The outstanding count stays in step with the pending table exactly when the
  new request id is not already pending (`AddPendingKeepsLockstepExactly`).
- Snapshots change no later count if and only if none reads the clock ahead of
  the registration and of every record up to some later record
  (`SnapshotsDisturbExactly`, with `SnapshotDisturbsBackwardClock` as an
  example). A clock that does not run backwards is enough.
- A flow token is not single-use without conditions. Whatever the same instance
  consumes after a callback has passed, the callback passes again exactly when
  its flow has not expired and each use of its session since has outlived the
  guard's TTL or has had 10,000 other sessions consumed after it
  (`ReplayAcceptedExactly`; `CallbackAcceptedExactly` over whole runs). With
  nothing consumed in between some later moment lets it pass exactly when the
  TTL runs out before the flow does (`ReplayPossibleExactly`). So with the
  default of 300000 ms a second delivery takes 10,000 other sessions between
  the two passes (`OneDeliveryPerToken`).
- A flow whose scope is the empty string comes back without a scope, every
  other flow comes back unchanged (`SurvivesExactly`); `/auth` seals no empty
  scope.

The module comment of `src/broker/sessions.ts` calls the guard an LRU. Looking
an id up does not refresh it there, so eviction is by age of insertion; the
model follows the code.

## Model

| member | source | states |
|---|---|---|
| RelayInvariants.AddPendingKeepsLockstepExactly | src/relay/server.ts:270-273 | the per-daemon count equals the number of pending requests after an add if and only if the id was not pending before |
| RelayInvariants.RemovePendingKeepsLockstep | src/relay/server.ts:275-286 | removing any id, known or not, keeps counts equal to the pending table, absent at zero, and raises none |
| RelayInvariants.AddThenRemoveRestores | src/relay/server.ts:270-286 | adding and then removing a fresh id restores both maps exactly |
| RelayInvariants.StepKeeps | src/relay/server.ts:211-498 | every handler keeps counts, cap, timers, settlements, registry and event trace consistent |
| RelayInvariants.RunKeeps | src/relay/server.ts:211-498 | these invariants hold after every possible run from an empty server |
| RelayTheorems.RequestsConserved | src/relay/server.ts:252-310 | armed request timers are exactly the pending ids; admitted requests are the settled and the pending ones, disjointly, each settled at most once |
| RelayTheorems.CloseLeavesNothingPending | src/relay/server.ts:288-300 | after `close()` nothing is pending or counted, no timer is armed, nobody is registered, and everything admitted is settled |
| RelayTheorems.CountMatchesPending | src/relay/server.ts:227-231 | in every run each daemon's count is its number of pending requests, absent when zero, never above the cap |
| RelayTheorems.SettlesExactly | src/relay/server.ts:252-310 | a step settles a pending request exactly when it is its timeout, a response naming it with a status from 100 to 599 on a registered socket, or `close()`; a response resolves it with its own status, headers and body |
| RelayTheorems.AdmittedExactly | src/relay/server.ts:218-231 | a forward is admitted exactly when the daemon is registered, its socket drains and it is below the cap; otherwise nothing changes |
| RelayTheorems.RegistrationsAreSound | src/relay/server.ts:345-371 | in every run a registered socket carries its own certificate's uuid, knows it, has not emitted close, and is being pinged |
| RelayTheorems.RegistrationEndsExactly | src/relay/server.ts:360-370 | a registration changes exactly by its own socket's end, a shutdown, or a newer accepted hello: no event of a replaced socket removes it |
| RelayTheorems.RegistrationSurvives | src/relay/server.ts:416-433 | over any continuation without such a step the same registration stands |
| RelayTheorems.RegisteredExactlyByHello | src/relay/server.ts:399-433 | an unregistered daemon becomes registered exactly by its own accepted hello, on that socket and with that key |
| RelayTheorems.FramesAnsweredExactly | src/relay/server.ts:373-414 | on an open socket a frame that is no JSON, or before registration no hello with an uncompressed point of the curve, gets one error naming why and the end; an accepted hello gets its welcome; anything else leaves the socket as it was |
| RelayTheorems.RegisteredExactly | src/relay/server.ts:360-433 | in every run a daemon is registered with a given socket and key exactly when some hello of it announced them and no step since has ended that registration |
| RelayTheorems.EventsAlternate | src/relay/server.ts:360-370 | per daemon, events since the last shutdown alternate connected and disconnected, starting with connected, and the last one tells whether it is registered |
| RelayTrace.AlternatesExactly | src/relay/server.ts:288-300 | over every run the whole trace of a daemon alternates, connected first, if and only if no `close()` that finds it registered is followed by an accepted hello of it |
| RelayTrace.StepEmits | src/relay/server.ts:360-446 | every step adds to a daemon's trace exactly what it does to its registration, a `close()` excepted |
| RelayTrace.LastEventTells | src/relay/server.ts:288-300 | in every run the last event of a daemon is connected exactly when it is registered or was left behind by a `close()` |
| RelayTheorems.CloseBreaksAlternation | src/relay/server.ts:297-300 | a concrete run across a shutdown that emits connected twice in a row |
| RelayObject.RelayServer.AddPending | src/relay/server.ts:270-273 | the in-place update is the state machine's transition |
| RelayObject.RelayServer.RemovePending | src/relay/server.ts:275-286 | same, and the entry removed is returned |
| RelayObject.RelayServer.Forward | src/relay/server.ts:211-262 | which error is thrown, and when: unknown daemon, too much buffered, cap reached, in this order; the full new state |
| RelayObject.RelayServer.OnRequestTimeout | src/relay/server.ts:253-256 | the timer callback settles as timed out and keeps the invariants |
| RelayObject.RelayServer.Close | src/relay/server.ts:288-310 | rejects each pending request once in some order, terminates every registered socket, forgets all |
| RelayObject.RelayServer.HandleConnection | src/relay/server.ts:316-349 | a socket without a certificate, or with one of another key type, gets that error and is closed; any other starts open and unregistered |
| RelayObject.RelayServer.Cleanup | src/relay/server.ts:351-371 | clears the closure's timers and removes the entry only if it is this socket's |
| RelayObject.RelayServer.OnMessage | src/relay/server.ts:373-482 | every branch of the message listener, hello to response |
| RelayObject.RelayServer.Register | src/relay/server.ts:416-461 | eviction of the previous socket before the new entry, welcome and events in order |
| RelayObject.RelayServer.OnPingTick | src/relay/server.ts:449-460 | a tick on a socket that is not open cleans up, any other arms a pong timer over the previous one |
| RelayObject.RelayServer.OnPongTimeout | src/relay/server.ts:455-458 | terminate, then cleanup |
| RelayObject.RelayServer.OnPong | src/relay/server.ts:484-489 | disarms the timer in the variable and no other |
| RelayObject.RelayServer.OnClose | src/relay/server.ts:491-493 | the close event and its cleanup |
| RelayObject.RelayServer.OnError | src/relay/server.ts:322-324 | terminate, then the lifecycle cleanup if the socket was admitted |
| RelayWrites.RequestsGoToTheirDaemonOnce | src/relay/server.ts:252-261 | over every run an admitted request is on the wire at most once, on a socket whose certificate is its daemon's |
| RelayFrames.ServerFollowsProtocol | src/relay/server.ts:334-498 | on every socket of every run the server writes nothing, or one error, or a welcome naming the certificate's daemon, then requests, then at most one error; a refused socket is never left open |
| RelayFrames.OneOpenSocketPerDaemon | src/relay/server.ts:416-433 | in every run an open socket past its hello is the registered one, so a daemon has at most one |
| KeepaliveTiming.RegisteredWasHeardRecently | src/relay/server.ts:449-461 | at every moment a registered daemon was heard (hello or pong) at most one ping interval plus one pong timeout ago |
| Keepalive.DelayExactly | src/relay/server.ts:449-461 | a timer set for 1 to 2147483647 ms waits that long, for anything else 1 ms |
| RequestTiming.SettledWithinTimeout | src/relay/server.ts:252-262 | at every moment after its admission a request is settled, or pending for no longer than the request timeout; its timer can fire at exactly that moment and at no other, and only if it is still pending |
| RequestTiming.DeadlineOf | src/relay/server.ts:253-257 | the deadline of a request is its admission plus the timeout, and nothing moves it |
| ResponsivePeer.AtMostOnePongTimer | src/relay/server.ts:455-459 | in every relay timeline with the timeout within the interval, an open socket whose pings were all answered in time, unasked pongs allowed, has at most one pong timer armed and none that can fire |
| ResponsivePeer.SlowPongsOrphanATimer | src/relay/server.ts:449-461 | with a longer timeout there is a relay timeline of timely pongs that ends with a firing pong timer |
| ResponsivePeer.SparesExactly | src/relay/server.ts:449-461 | no timeline of the relay terminates a responsive open socket if and only if the pong timeout is at most the ping interval |
| Handover.ServedExactly | src/client/connection.ts:226-290 | on every schedule a link buffers until its hand-over, and is served exactly if a socket not closed was handed over and nothing has failed since |
| Handover.NoFrameLost | src/client/connection.ts:217-291 | on every schedule the frames given to `recv`, then replayed, then served are the first arrivals in order; once an open socket was handed over, and until a failure, they are all of them |
| Handover.NothingAfterFailure | src/client/connection.ts:270-286 | once the served socket has failed or closed, nothing that still arrives is handled |
| Handover.CallsGetFramesInOrder | src/client/connection.ts:331-372 | frames and waiting calls never coexist; call number t gets arrival number t, and until a failure or the hand-over each call has got it or waits for it |
| Handover.FailureRejectsCalls | src/client/connection.ts:342-351 | after a failure before the hand-over no call waits: each got its frame or is rejected, as is every later one |
| Handover.Socket.OnMessage | src/client/connection.ts:331-336 | the oldest waiter is served first, else the frame is buffered; after the hand-over it is handled |
| Handover.Socket.Receive | src/client/connection.ts:362-371 | a failed adapter rejects, a buffered frame is taken first, else the call waits |
| Handover.Socket.OnFailure | src/client/connection.ts:270-286 | during the handshake every waiting call is rejected and none later waits; while serving, the link is over |
| Handover.Socket.HandOverTo | src/client/connection.ts:226-247 | every buffered frame is replayed in order before the serving listener takes over; a closed socket is not served |
| Paths.CheckExactly | src/client/forwarder.ts:38-57 | a target passes exactly when the part before `?` has no percent sign, no empty, `.` or `..` segment bar one trailing slash, and is under /hooks/ or is /dicode.js; it is a 400 exactly when that part spells no text |
| Paths.DecodesExactly | src/client/forwarder.ts:43-48 | percent-decoding yields a text exactly when the input spells it: each character as itself, if it is no percent sign, or as the escapes of its UTF-8 bytes in either case; overlong and surrogate encodings spell nothing |
| Paths.FixedPointsAreClean | src/client/forwarder.ts:49-54 | for a rooted path, normalisation changes nothing exactly when every segment is clean |
| Paths.BarePathIsPrefix | src/client/forwarder.ts:38-39 | the checked part is the longest prefix without a question mark |
| Paths.JoinSplit | src/client/forwarder.ts:49 | splitting at slashes and joining again is the identity |
| Forwarder.BuildHeaders | src/client/forwarder.ts:64-71 | the header loop yields exactly the lines let through, followed by the stamp |
| Forwarder.OutgoingHeaders | src/client/forwarder.ts:63-71 | per header name, in any case: one X-Relay-Base naming this daemon whatever came in, nothing under authorization, cookie and x-api-key, every other with its values in order |
| Forwarder.HopByHopExactly | src/client/forwarder.ts:8-18 | the response headers withheld are the nine listed, in any case |
| Forwarder.ReadBody | src/client/forwarder.ts:87-103 | on every stream that ends or exceeds the cap the loop ends with exactly the first min(total, 5 MiB) bytes |
| Forwarder.CollectedExactly | src/client/forwarder.ts:106-112 | each response header name appears once with all its values in order, and exactly the hop-by-hop ones are gone |
| Forwarder.CollectHeaders | src/client/forwarder.ts:106-112 | the accumulating loop computes that collection |
| Forwarder.DispatchRequest | src/client/forwarder.ts:30-124 | the answer carries the request's id and is 400 for an undecodable path, 403 for any other path not accepted, 413 above 5 MiB, 502 if the local server cannot be reached, each with no headers and no body; else the reply's status, its headers collected and the first 5 MiB of its chunks; none exactly if the stream breaks; the local server is asked exactly when path and body pass, with the original target |
| EndToEnd.ResolvedWithOwnAnswer | src/relay/server.ts:466-481 | over any history with honest daemons and rogue peers, a forward to an honest daemon resolves only with the status, headers and body that are the right answer to that very request |
| EndToEnd.AnsweredAtMostOnce | src/client/connection.ts:294-322 | honest daemons, all of them together, write at most one response with a given id |
| EndToEnd.ResolvedWasWritten | src/client/connection.ts:311-318 | such a forward resolves only if its request was written to that daemon's socket |
| EndToEnd.HistoryKeeps | src/client/connection.ts:258-322 | the composed system keeps the server's invariants and the daemons' correlation at every move |
| Progress.DaemonCanAttach | src/client/connection.ts:185-248 | from every reachable state a daemon can dial in on a new socket, be registered with any key on the curve, take its welcome and be served |
| Progress.ForwardCanResolve | src/relay/server.ts:211-262 | from every reachable state with a daemon registered and served, a forward that its checks admit can be called, and whatever the local server replies with a status from 100 to 599, it can resolve with the right answer |
| Rings.AdvanceComposes | src/status/metrics.ts:190-201 | advancing to t1 and then t2 leaves the same array, index and epoch as advancing to the later one, over any number of turns |
| Rings.AdvanceShiftsAges | src/status/metrics.ts:194-200 | advancing by e moves the count of age k to age k + e and leaves the youngest e ages empty |
| Rings.AdvanceRefines | src/status/metrics.ts:203-214 | an advanced ring still counts its log |
| Rings.BumpRefines | src/status/metrics.ts:109-113 | counting one event extends the log by the current epoch, in 32 bits |
| Rings.SumCountsWindow | src/status/metrics.ts:131-132 | the sum of a ring is the exact number of log entries in its window |
| Metrics.WindowsRefineTheLog | src/status/metrics.ts:99-135 | over any calls and any clock, the bucket k behind the index holds the requests of effective second (hour) epoch minus k, and the epoch is the running maximum of the clock |
| Metrics.ReportsAreExactCounts | src/status/metrics.ts:130-132 | below 2^32 requests the three figures are exact counts of the last second, 3600 seconds and 24 hours |
| Metrics.WindowsAreOrdered | src/status/metrics.ts:126-132 | second at most hour at most day at most total, and the hour epoch is the second epoch over 3600 |
| Metrics.PeaksNeverFall | src/status/metrics.ts:134-136 | an entry's peaks never fall and after a snapshot are at least its figures |
| Metrics.PeaksExactly | src/status/metrics.ts:134-136 | each peak is the largest figure that any snapshot so far has shown |
| Metrics.SnapshotsDisturbExactly | src/status/metrics.ts:126-128 | over any calls and any clock, the snapshots change no later count if and only if none reads the clock ahead of the registration and of every record up to some later record |
| Metrics.SnapshotsDoNotDisturb | src/status/metrics.ts:126-128 | so with a clock that does not run backwards leaving out all snapshots changes no later count |
| Metrics.SnapshotDisturbsBackwardClock | src/status/metrics.ts:190-192 | a concrete pair of runs, the clock one second back, whose counts differ |
| Metrics.EntryIsItsCalls | src/status/metrics.ts:76-136 | over any run of registrations, removals, records and snapshots, an entry is what its own registration, records and all snapshots since make of it |
| Metrics.EveryEntryIsExact | src/status/metrics.ts:126-132 | so in every run each entry below 2^32 requests shows exact counts of its three windows, each within the next |
| MetricsObject.ZeroAhead | src/status/metrics.ts:194-198 | the zeroing loop clears exactly the cells the index passes, with modular indices and any elapsed time |
| MetricsObject.SumUint32Array | src/status/metrics.ts:131-132 | the summing loop |
| MetricsObject.ClientMetricsEntry.AdvanceSecondBuckets | src/status/metrics.ts:190-201 | the array, index and epoch after it are the ring's advance; the hours are untouched |
| MetricsObject.ClientMetricsEntry.AdvanceHourBuckets | src/status/metrics.ts:203-214 | same for the hours |
| MetricsObject.ClientMetricsEntry.Record | src/status/metrics.ts:103-113 | the in-place record is the entry's transition |
| MetricsObject.ClientMetricsEntry.Observe | src/status/metrics.ts:127-136 | the three figures are those of the advanced entry, peaks raised |
| MetricsObject.MetricsCollector.RegisterClient | src/status/metrics.ts:76-93 | a fresh entry replaces any older one and shares no storage with the others; the entries are what the calls so far make of them |
| MetricsObject.MetricsCollector.RemoveClient | src/status/metrics.ts:95-97 | only that entry goes |
| MetricsObject.MetricsCollector.Record | src/status/metrics.ts:99-114 | only a known client's entry changes |
| MetricsObject.MetricsCollector.Snapshot | src/status/metrics.ts:116-175 | one truthful line for every client and no other, with its registration time, exact and ordered below 2^32 requests whatever calls came before; global figures that count the lines and add up each column by itself, ordered as well; peaks raised to them |
| MetricsObject.RaisedIsLeast | src/status/metrics.ts:160-164 | a raised peak is the least that is at least the old peak and the current figures |
| Status.EntryExactly | src/start.ts:173-178 | in every run with snapshots at any time, a daemon has a metrics entry exactly when it is registered or was left behind by a `close()`, never both |
| Status.EntriesAreClients | src/start.ts:173-178 | a registered daemon has an entry; entries and registry agree exactly when nobody is left behind, so in every run without `close()` |
| Status.CloseLeavesEntries | src/relay/server.ts:297-300 | every `close()`, whatever came before it, leaves all entries as they were: they match the emptied registry exactly if nobody was registered and nobody was left behind earlier |
| Status.TotalCountsCurrentRegistration | src/start.ts:241-254 | a registered daemon's total counts the HTTP forwards since the hello that registered it, whatever became of them, and below 2^32 of them its windows are exact |
| Seen.SeenSet.Add | src/broker/sessions.ts:76-80 | true exactly for an id not remembered, which is remembered afterwards, evicting the oldest at the ceiling |
| Seen.SeenSet.Contains | src/broker/sessions.ts:83-85 | an id is remembered exactly when an entry of it has not expired |
| Seen.SeenSet.OnPurgeTimer | src/broker/sessions.ts:62-70 | the purge timer changes no answer |
| Seen.SeenSet.Clear | src/broker/sessions.ts:93-95 | forgets everything |
| Seen.SingleUse | src/broker/sessions.ts:59-80 | over any operations with a monotone clock, two uses of one id are more than the TTL apart unless 10,000 other ids were used between them |
| Seen.AcceptedExactly | src/broker/sessions.ts:59-80 | over any operations with a monotone clock, however many ids were used: an id is accepted exactly when each earlier use of it has expired or has had 10,000 other ids used after it |
| Seen.AcceptedAgainExactly | src/broker/sessions.ts:59-80 | after a use of an id and any further operations, it is accepted again exactly when every use of it from that one on has expired or has had 10,000 other ids used after it |
| FlowState.SurvivesExactly | src/broker/flow-state.ts:38-103 | every session opens after sealing, unchanged exactly when its scope is not the empty string |
| FlowState.OpensExactly | src/broker/flow-state.ts:78-103 | an object opens to a session exactly when it has version 1 and every field of it, with its type, under its own key |
| BrokerTheorems.AuthAcceptedExactly | src/broker/router.ts:104-193 | on every relay history an `/auth` is accepted exactly when some hello of the daemon it names still stands and that hello's certificate key signed, in time, bytes that read as exactly the session without dashes, challenge, uuid, provider and timestamp of this request; the flow is then for the key that hello announced, for 300000 ms |
| BrokerTheorems.AuthRefusedExactly | src/broker/router.ts:104-178 | any other is refused by the first of thirteen checks that objects, each stated by itself, with 404 for an unknown provider, 403 for a stale timestamp, an absent daemon and a bad signature, 500 for fields that cannot be signed, else 400 |
| BrokerTheorems.SignedExactly | src/shared/crypto.ts:67-84 | the bytes that read as the fields of a request are the ones the broker builds, and no others |
| BrokerTheorems.FirstExactly | src/broker/router.ts:115-120 | a repeated query parameter counts by its first value |
| BrokerTheorems.IsUuidExactly | src/broker/router.ts:143-147 | a uuid is 64 lower-case hexadecimal digits |
| BrokerTheorems.CallbackAcceptedExactly | src/broker/router.ts:226-273 | in every run with a monotone clock a callback passes exactly when it brings an access token and no error, its cookie was sealed for its session by an `/auth` accepted less than five minutes ago, and every use of the session on that instance has lapsed or has had 10,000 other ids consumed there after it |
| BrokerTheorems.CallbackRejectedExactly | src/broker/router.ts:226-273 | any other is rejected by the first of six checks that objects, each stated by itself, and the cookie is cleared exactly from the session mismatch on |
| BrokerTheorems.CallbacksConserved | src/broker/router.ts:193-319 | in every run each accepted `/auth` is sealed once, and each accepted callback is exactly one of a job that waits, a delivery, and a loss by failed encryption or a refused forward |
| BrokerRouter.HandleAuth | src/broker/router.ts:102-204 | the handler with its early returns gives that reply, and the cookie gets a token exactly on success |
| BrokerRouter.HandleCallback | src/broker/router.ts:219-277 | the id is consumed exactly when the callback passes, and the cookie cleared exactly from the mismatch check on |
| BrokerTheorems.RunSourced | src/broker/router.ts:102-319 | in every run of any number of instances, each token goes back to an `/auth` accepted by an instance at a point of its relay's own history, each job to one before its callback, and each delivery's request carries its envelope and is in its instance's history |
| BrokerTheorems.DeliveryDestination | src/broker/router.ts:143-319 | every delivery's request is a POST to /hooks/oauth-complete with an envelope for the key its daemon announced in a hello standing when an instance, before the callback, accepted an `/auth` for daemon and session signed by that daemon's certificate key; its instance's relay writes it to a socket of that daemon only, with exactly the seven token fields of the callback |
| BrokerTheorems.OneDeliveryPerToken | src/broker/router.ts:260-273 | with a monotone clock, two deliveries of one token on one instance are less than five minutes apart, and between those two passes the TTL ran out or 10,000 other ids were consumed there; from 299999 ms on, or without a TTL, only the latter |
| BrokerTheorems.ReplayAcceptedExactly | src/broker/router.ts:260-273 | after a callback has passed and whatever was consumed since, the same callback passes again exactly when its flow has not expired and every use of its session from that pass on has lapsed or has had 10,000 other ids consumed after it |
| BrokerTheorems.ReplayPossibleExactly | src/broker/router.ts:260-273 | whatever the guard remembers, with nothing consumed in between there is a later moment at which a passed callback passes again exactly when the TTL runs out before the flow does |
| Preimages.AuthReadsBack | src/shared/crypto.ts:67-84 | a parser recovers all four fields and the timestamp from every auth preimage |
| Preimages.AuthWritesBack | src/shared/crypto.ts:67-84 | and accepts nothing but auth preimages |
| Preimages.BuildDeliveryPreimage | src/shared/signing.ts:227-239 | the field loop feeds the hash bytes from which the parser recovers all five fields |
| Preimages.DeliveryWritesBack | src/shared/signing.ts:212-239 | the delivery parser accepts nothing but delivery preimages |
| Preimages.AuthLayout | src/shared/crypto.ts:67-84 | an auth preimage is the label dicode/oauth-auth-request/v4, session, challenge, uuid and provider in this order, each after its length in four big-endian bytes, and the timestamp in eight |
| Preimages.DeliveryLayout | src/shared/signing.ts:212-239 | a delivery preimage is the label dicode/oauth-token-delivery/v4 and its fields in order, each after its length |
| Preimages.AuthPreimageInjective | src/shared/crypto.ts:41-84 | equal auth preimages have equal fields and timestamps |
| Preimages.DeliveryPreimageInjective | src/shared/signing.ts:215-239 | equal delivery preimages have equal fields |
| Preimages.DomainsAreSeparate | src/shared/signing.ts:212-239 | no auth preimage is a delivery preimage |
| Preimages.FieldWritesBack | src/shared/crypto.ts:44-51 | a string read as one field and a rest is that field's encoding followed by the rest |
| Preimages.TagSplitsOff | src/shared/crypto.ts:188-236 | appending a 16-byte tag and splitting it off are inverse to each other, on all strings of 16 bytes or more |
| Preimages.FramesReadBack | src/broker/flow-state.ts:50-71 | flow-token framing is a bijection between well-formed frames and strings of 28 bytes or more; shorter ones are refused |
| Der.TrimAndPad | src/client/identity.ts:200-213 | the result is the minimal INTEGER content for the same non-negative number |
| Der.P1363ToDer | src/client/identity.ts:182-198 | a DER reader gets back the two halves' numbers from the array filled in place; every 64-byte input is readable, in at most 72 bytes |
| Der.EncodingIsUnique | src/client/identity.ts:182-213 | that reading fixes every byte: no other string reads as the same pair |
| Der.DerDeterminesSignature | src/client/identity.ts:182-198 | 64-byte signatures with one DER form are equal |
| Der.MinimalIsUnique | src/client/identity.ts:201-213 | an integer has one minimal encoding |

## Left out

- TLS, X.509 parsing, the `ws` library, HTTP, Express, Grant and cookie-session: sockets are event sources, frames are datatypes, the browser's cookie is free to hold any token.
- The protobuf, JSON, base64, hex and UTF-8 codecs: functions of the configuration; only base64 is required to decode what it encoded.
- SHA-256, ECDSA, ECDH, HKDF and AES-GCM: ideal. A token opens exactly if it was sealed, signature checks and the certificate hash are functions, injectivity is on the bytes before hashing.
- lru-cache is not part of this model: `Seen` assumes a queue in insertion order with a start time for each entry, expiry after the TTL, a TTL or start time of 0 meaning no expiry, and one clock reading for each operation.
- Request ids from `uuidv4()` are taken to be fresh, and unguessable by rogue peers for requests not sent to them.
- `Broker` does not tie the callback's route provider to the sealed one, and no signature covers `scope`: the code checks neither.
- Nothing is claimed about a URL from `buildAuthURL` being accepted by the router: the parameter names differ (`src/client/auth.ts:33`, `src/broker/router.ts:115`).
- Forwarder.DispatchRequest: says which target is handed on, not how `fetch` parses it; header names are compared in ASCII lower case and values that `Headers` refuses are not modelled.
- Paths: strings are sequences of Unicode scalar values, so lone surrogates are not modelled.
- MetricsObject.MetricsCollector.Snapshot: lists clients in any order, because the sort by total is presentation; durations, CPU and memory figures are not modelled.
- KeepaliveTiming.RegisteredWasHeardRecently: takes timers to fire when they are due; event-loop delay adds to the bound.
- RequestTiming.SettledWithinTimeout: takes request timers to fire when they are due, likewise.
- Seen.AcceptedExactly: asks for clock readings above 0, because lru-cache takes a start time of 0 for no expiry; so do `AcceptedAgainExactly`, `CallbackAcceptedExactly` and `ReplayAcceptedExactly`.
- Keepalive.DelayExactly: is how Node.js documents its timers; Node.js itself is not part of this model.
- Progress.ForwardCanResolve: says that the forward can be answered, not that it will be: frames and replies may be late.
- ResponsivePeer.SparesExactly: is about configurations under which some key passes the hello's check, as any point of the curve does; without one no daemon ever connects.
- Metrics.ReportsAreExactCounts: asks for fewer than 2^32 requests, because the buckets wrap; `WindowsRefineTheLog` states the counts modulo 2^32 without that limit.
- BrokerRouter.HandleCallback: ends before encryption; encryption, its failure and the forward are steps of `Broker`, and the page shown to the browser is not modelled.
- The relay's `forward` promise is modelled by its settlement; the mapping of rejections to HTTP statuses 429, 503 and 504 is not modelled.
- The daemon's reconnect loop and its backoff, the handshake messages themselves, `onBrokerPubkey` persistence, and the status object: I/O around the modelled hand-over.
- `aggregateStatus`, `mostRecentlyConnected`, `resolveServerURLs`, `newBackoff`: they would only add easy members.
- Configuration loading, CLI, key and certificate files, status page, basic auth, the mock provider: I/O and presentation.
