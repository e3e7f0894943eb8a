# bproxy in Dafny

bproxy sits between Ethereum clients and a backend node. It schedules requests by priority,
copies some of them to peer proxies, answers some itself, drains client connections when the
backend is unhealthy, pumps websocket messages, and masks raw transactions before logging. This
project models the state machines behind that and proves what they keep. Network, TLS, time and
randomness appear as explicit inputs of steps and methods.

## How the model is laid out

| file | models |
|---|---|
| `Lane.dfy` | one worker and its pair of 512-slot queues, as atomic steps of senders and worker |
| `Scheduler.dfy`, `Progress.dfy`, `Mirroring.dfy`, `Priority.dfy` | all handlers, the proxy worker and all mirror workers, as one transition system |
| `Jobs.dfy` | how a proxy job gets its mode: backend call, no-op, or injected error |
| `Connections.dfy` | `connections` and `drainingConnections`, as a class, and traces of its events |
| `RingBuffer.dfy`, `Healthcheck.dfy` | the growable ring over an array, and the window of probe outcomes it holds |
| `Deduplication.dfy` | the forkchoice branch of the authrpc triage, its cache and the purge |
| `Pump.dfy` | reader, writer and terminator of each direction, `run` and `stop` |
| `Sanitizer.dfy`, `SanitizerInPlace.dfy` | masking of transactions: a function on JSON trees with its path specification, and the code on slices in the heap, which is proved to compute that function |
| `PeerFilter.dfy`, `Utils.dfy` | the in-place filter of peer URLs, and the address comparisons it uses |
| `Rpc.dfy` | triage of single calls and of batches |
| `Candlestick.dfy` | the metric aggregator, in wrapping 64-bit arithmetic |

Goroutines that share channels are a transition system: an event is one atomic step of one
goroutine, a run is any sequence of enabled events, and "in every reachable state" means after
every such sequence. Objects that a mutex guards are classes, and each method is one critical
section, except `BackendUnhealthy`, which has two and takes what happens between them. Histories
that a state carries are tied to the events of the run by the lemmas `AnswerIsTheResult`,
`ServedAsSent`, `MirrorAccounting` and `OrderAndConservation`. Every induction is written out:
lemmas carry `{:induction false}`.

## What one might expect, and when it holds

Some of this is documented and some only natural to expect; none of it holds always. Each item has
its exact condition, proved for all inputs.

* The healthcheck options promise a status that changes after a count of consecutive results. In
  the warm-up, missing samples count as wanted, so the status is the promised one after every
  history exactly when both thresholds are one (`PromiseIsKeptIffDepthOne`). For other thresholds,
  with `depth` the larger one, the state after check `depth - 1` decides: the status is the
  promised one from there on exactly if it is at that check (`WarmUpDecides`). After a later check
  it is the promised one exactly if it was before, or a threshold has been reached since
  (`SettledIffReached`). With thresholds of three and two, a backend that never fails twice in a row
  can be unhealthy after every check, for ever (`WrongForEver`).
* Between lists without repeats, `IPsMatch` is equality of the sets of addresses. It is so for a
  second argument `r`, against every list without repeats, exactly when `r` has no repeats either
  (`MatchIsSetEqualityIffNoRepeats`). A match with any list at all, repeats or not, implies the same
  addresses exactly when `r` has no repeats, as long as some address is not in `r`
  (`MatchMeansEqualityIffNoRepeats`), and in that case exactly is it symmetric
  (`MatchIsSymmetricIffNoRepeats`; `RepeatsBreakSymmetry` is the smallest failure).
* The cache key of a forkchoice update identifies it exactly when no hash contains a slash
  (`KeyIdentifiesIffNoSlash`).
* A candle closes at the mean of its samples exactly when their sum fits into 64 bits
  (`CloseIsTheMeanIffTheSumFits`). Its close is sure to lie between low and high, for all windows of
  `n` samples between two bounds, exactly when `n` times either bound fits
  (`ClosesInsideIffTheRangeFits`). Beyond that it can fall below the low (`OverflowEscapes`), but
  need not (`OverflowCanStayInside`).
* Over any trace, the maps of the drain protocol are disjoint all along exactly when no connection
  opens from an address that is draining at that point (`DisjointIffNoReuse`); otherwise a reset can
  forget a draining connection (`ReuseCollides`). They hold exactly the open connections all along
  exactly when no event touches a tracked connection other than its own
  (`TracksTheOpenIffHarmless`): connections are looked up by address alone, so a late close loses a
  newer connection from the same address (`LateCloseLosesTheNewConnection`). `DrainProtocol` assumes
  an order of events (`Legal`) that the HTTP server, which is not part of this model, would have to
  guarantee.
* A suppressed forkchoice update is never sent to the backend, in any run; it is still offered to
  peers exactly if its method is configured as an extra mirrored one and no chaos error is drawn
  (`SuppressedStaysHere`).
* A batch is proxied if some member would be, and only then, exactly unless it consists of quote
  requests, at least one: that is proxied, although none of its members would be (`TriageBatch`).
* A stop of the pump can leave a reader waiting for ever exactly when, as its token is sent, the
  channel is full and the reader is reading or waiting to send
  (`PumpStrandsAReaderIffOverfull`). This needs no failure: `GracefulStopCanStrandAReader` is a
  whole run to a state in which only that reader is left.
* A returned pump is sure to be inactive exactly if no failure was reported, and sure to be marked
  active still exactly if `stop` was not called (`WhatAReturnedPumpIs`). A `stop` that finds the pump
  active times out exactly if `run` has taken no stop token by its last reading of the flag
  (`StopTimesOutIffNoTokenTaken`), as after every failure (`StopAfterTheLoop`).
* The number of low jobs that overtake a high one is bounded exactly in the priority mode
  (`InversionIsBoundedIffPriority`).
* Validation reports its problems, except exactly when the backend URL does not parse: that is
  dereferenced all the same, and `Validate` ends in `Panicked`.

## Model

| member | source | states |
|---|---|---|
| Lane.RunKeepsOk | proxy/http.go:230-257 | after every run each class is first-in first-out, queues hold at most 512, and jobs finish in the order taken with at most one in hand |
| Lane.RunServesInOrder | proxy/http.go:230-257 | whatever the select picks, each class is served in queue order |
| Lane.ServedAsSent | proxy/http.go:230-257 | in terms of the events of a run: the jobs sent to each queue are, in order, those the worker took from it and those that still wait; all taken ones but one at most are finished |
| Lane.BoundedInversion | proxy/http.go:230-244 | while a high job waits, at most one low job is taken, and only by a worker already past its poll; at most 512 jobs in all are taken before it |
| Lane.InversionIsReached | proxy/http.go:230-244 | the one inverted low job is a real run |
| Lane.NoBoundWithoutPriority | proxy/http.go:245-257 | in the plain mode there are runs with any number of low jobs taken while a high one waits |
| Lane.InversionIsBoundedIffPriority | proxy/http.go:230-257 | some bound on inversions, over all runs, exists iff the priority mode is on |
| Lane.WorkerMoves | proxy/http.go:230-257 | a worker with a job queued or in hand always has a step |
| Scheduler.OfferTo | proxy/http.go:510-536 | an offer to a peer is queued last in its class, or dropped exactly when that queue is full |
| Scheduler.RunKeepsJobs | proxy/http.go:492-571 | the invariant of handlers, queues and worker, with each job in the queue of its class, survives every interleaving |
| Scheduler.RequestLifecycle | proxy/http.go:492-571 | in every reachable state a job is in one place; it runs at most once; the client gets the result of that run; each buffer is freed at most once, after the copy, and never while queued or executing |
| Scheduler.AnswerIsTheResult | proxy/http.go:541-571 | in every run the client gets what the one call that the worker made for its request returned, read off the events |
| Scheduler.SendBlocksIffFull | proxy/http.go:501-505 | a handler can send its job unless the 512 slots of its queue are taken |
| Scheduler.RunKeepsSentByClass | proxy/http.go:501-505 | over every run, all that was sent to a proxy queue was sent to the queue of its class |
| Mirroring.RunKeepsPeers | proxy/http.go:507-538 | the books of every host survive every interleaving |
| Mirroring.MirrorAccounting | proxy/http.go:507-538 | per host and prefix of a run: the offers are those of its events; offered = dropped + queued + in flight + completed, with bounds; a request is offered to a host once, and that copy was dropped or sent to the queue of its class; classes are first-in first-out |
| Mirroring.StalledPeerDelaysNobody | proxy/http.go:507-538 | replace the queues and workers of some peers by any others that never move: the rest of any run stays possible and ends in the same handlers, backend worker and other peers |
| Progress.ServingStepLowersWork | proxy/http.go:492-571 | each step of an arrived handler or of the proxy worker lowers a natural number, in both modes |
| Progress.ServingStepsAreBounded | proxy/http.go:498-568 | without arrivals a run has at most that many such steps, whatever mirror workers do between |
| Progress.UnansweredCanMove | proxy/http.go:498-568 | no deadlock: with a request unanswered, a handler or the proxy worker can move |
| Progress.EveryRequestIsAnswered | proxy/http.go:492-571 | after every run the drain is bounded, and when nothing can move every request has its answer, the result of the one call made for it |
| Priority.ProxyRefinesLane | proxy/http.go:230-257 | the proxy side of every run of the whole system is a run of a lane |
| Priority.PeerRefinesLane | proxy/http.go:259-289 | so is the mirror side, for every host |
| Priority.BoundedProxyInversion | proxy/http.go:230-244 | the inversion bound in every run of the whole system |
| Priority.BoundedMirrorInversion | proxy/http.go:263-277 | the same for the mirror worker of every host |
| Jobs.SetUp | proxy/http.go:395-437 | the backend is called iff triage wanted it and no chaos error is drawn; the request is mirrored iff triage wanted it or its method is an extra mirrored one, and no chaos error is drawn; nothing else of it changes |
| Jobs.ArrivalsMakeJobs | proxy/http.go:492-505 | in every run the `n`-th arrival makes job number `n`, and its class, mirroring, mode and prepared response never change after |
| Jobs.ServedAsTriaged | proxy/http.go:374-541 | in every run in which a request arrives, whatever triage decided: it goes to the high queue iff prioritised; the backend is called for it iff triage wanted it proxied without chaos; with neither the client gets the prepared response; each peer is offered it iff it is to be mirrored, once its handler is past mirroring |
| Connections.HttpProxy.UpstreamConnectionChanged | proxy/http.go:812-857 | the new maps and the connections closed, for every state change |
| Connections.HttpProxy.StartDraining | proxy/http.go:330-338 | one round of the reset: keys move over, the union is kept, a collision is counted exactly if the address was draining already |
| Connections.HttpProxy.ResetConnections | proxy/http.go:322-339 | whatever the order of iteration, all connections end up draining and the collisions reported are the addresses in both maps |
| Connections.HttpProxy.BackendUnhealthy | proxy/http.go:874-883 | count and reset are two critical sections; whatever other events come between them, the effect is that of those events and one reset, last if something was connected and first if not |
| Connections.TracesAreTracked | proxy/http.go:812-857 | after every legal trace both maps and the log are determined by the history of each connection |
| Connections.DrainProtocol | proxy/http.go:812-857 | over every legal interleaving: maps disjoint, no collision, their union is the live connections the proxy has not closed, and it closes a connection exactly when that becomes idle after a reset, once |
| Connections.DisjointIffNoReuse | proxy/http.go:823-828 | over any trace, legal or not: the maps are disjoint after every prefix iff no event opens a connection from an address draining at that point |
| Connections.ReuseCollides | proxy/http.go:330-338 | new, reset, new on one address: the maps overlap, and the next reset reports a collision and forgets the first connection |
| Connections.TracksTheOpenIffHarmless | proxy/http.go:812-857 | over any trace: the maps hold exactly the connections opened, not ended and not closed by the proxy, after every prefix, iff no event overwrites or drops a tracked connection other than its own |
| Connections.LateCloseLosesTheNewConnection | proxy/http.go:849-855 | a close of an old connection drops a newer one from the same address |
| Data.RingBuffer.constructor | data/ring_buffer.go:10-21 | an empty buffer of the asked capacity, 16 if none or none above zero is asked |
| Data.RingBuffer.Capacity | data/ring_buffer.go:23-25 | the capacity, the one growth bounds speak of |
| Data.RingBuffer.Length | data/ring_buffer.go:27-36 | the number of elements, wrapped or not |
| Data.RingBuffer.Unwrapped | data/ring_buffer.go:59-62 | growing a wrapped buffer lays its contents out in order |
| Data.RingBuffer.Push | data/ring_buffer.go:38-69 | appends to the contents through wrap-around and both growth branches, and accounts for capacity and copied slots |
| Data.RingBuffer.Pop | data/ring_buffer.go:71-84 | removes the oldest element, or reports an empty buffer |
| Data.RingBuffer.Pick | data/ring_buffer.go:86-98 | removes the newest element, or reports an empty buffer |
| Data.RingBuffer.Forget | data/ring_buffer.go:100-111 | drops the given number of newest elements, or all; a negative count moves the head up unchecked |
| Data.RingBuffer.At | data/ring_buffer.go:113-125 | indexes from the oldest element; a negative index reads a slot below it, or panics |
| Data.GrowthIsAmortised | data/ring_buffer.go:38-69 | over any run: never full, capacity at most the larger of the initial one and twice the peak length, at most two slots copied per push |
| Data.ChecksStayBounded | proxy/healthcheck.go:122-124 | pushing and trimming keeps the length at min(checks, depth) and the capacity at depth or twice that (4 for depth one) |
| Healthcheck.WindowSlides | proxy/healthcheck.go:122-124 | dropping the oldest of too many outcomes leaves the last `depth` ones |
| Healthcheck.Healthcheck.constructor | proxy/healthcheck.go:44-65 | healthy, with an empty window |
| Healthcheck.Healthcheck.Observe | proxy/healthcheck.go:108-124 | the ring holds exactly the last `depth` outcomes in order |
| Healthcheck.Healthcheck.Scan | proxy/healthcheck.go:126-138 | whether all outcomes from the given position of the window on are the wanted one, missing ones skipped |
| Healthcheck.Healthcheck.Check | proxy/healthcheck.go:90-151 | a probe counts as a success iff it was answered with 200 or 202; the status is the one the whole history of outcomes determines, and the handler is called iff it is unhealthy |
| Healthcheck.Healthcheck.RingStaysSmall | proxy/healthcheck.go:122-124 | the array of a healthcheck never exceeds max(2 depth, 4) slots |
| Healthcheck.VerdictIsARun | proxy/healthcheck.go:126-138 | at every check, warm-up included, a verdict holds iff the history ends in a run of the threshold then in force |
| Healthcheck.VerdictCountsFromDepthOn | proxy/healthcheck.go:126-138 | at check `n` a verdict asks for a full count of consecutive results iff `n` is at least `depth` |
| Healthcheck.PromiseIsKeptIffDepthOne | cmd/serve.go:152-161 | the status is the documented one after every history iff both thresholds are one |
| Healthcheck.WarmUpDecides | cmd/serve.go:152-161 | from check `depth - 1` on the status is the documented one for ever iff it is at that check |
| Healthcheck.ReachedThresholdSettles | proxy/healthcheck.go:126-146 | from check `depth` on, whenever a threshold is reached the status is the documented one |
| Healthcheck.SettledIffReached | proxy/healthcheck.go:108-146 | from check `depth - 1` on: the status is the documented one after a later check iff it was already, or some check since reached a threshold |
| Healthcheck.WrongForEver | proxy/healthcheck.go:126-150 | thresholds three and two, a failure, two successes, then failures and successes in turn: unhealthy after every check of a history of any length, though two failures never come in a row |
| Healthcheck.FirstCheck | proxy/healthcheck.go:126-146 | the status after the first check, exactly |
| Healthcheck.WindowRefinesCounters | proxy/healthcheck.go:108-146 | from check `depth` on the window steps exactly like a machine with two counters of consecutive outcomes |
| Healthcheck.FlipsAreSeparated | proxy/healthcheck.go:126-146 | from check `depth` on, opposite flips are at least the threshold of the later one apart |
| Healthcheck.NeverBothVerdicts | proxy/healthcheck.go:126-138 | from check `depth` on, the two verdicts exclude each other |
| Deduplication.Authrpc.AlreadySeen | proxy/authrpc.go:279-292 | true iff the key is cached; otherwise it is entered with the current time; a repeat changes nothing |
| Deduplication.Authrpc.PurgeOld | proxy/authrpc.go:100-106 | visits every entry once, reads the clock for each, and removes exactly those older than 30 seconds at their visit |
| Deduplication.ParamsCount | jrpc/jrpc_forkchoice_updated.go:16-25 | the number of parameters less the number of nulls among them |
| Deduplication.Authrpc.TriageForkchoice | proxy/authrpc.go:178-275 | exactly two non-null parameters give priority and a method suffix, and the deadline is the timestamp that decodes from the second; with deduplication on, one parameter, or nulls after it, is answered by the proxy with its head hash iff its key is cached, and is cached afterwards; everything else is proxied and mirrored and leaves the cache alone |
| Deduplication.CacheHoldsTheFresh | proxy/authrpc.go:96-109 | after every run the cache is the admitted updates that no purge found too old |
| Deduplication.SuppressedIffFreshOriginal | proxy/authrpc.go:279-292 | an update is suppressed iff an earlier admitted one with its key was not purged since; repeats play no part |
| Deduplication.AdmissionsAreApart | proxy/authrpc.go:96-106 | admissions of a key are more than 30 seconds apart |
| Deduplication.PurgeLeavesTheFresh | proxy/authrpc.go:100-106 | no entry survives a purge that was older than 30 seconds when the purge began |
| Deduplication.SuppressionEnds | proxy/authrpc.go:96-106 | with purges at most 30 seconds apart, a suppressed update has an admitted original at most 60 seconds back |
| Deduplication.SuppressionCanLastThatLong | proxy/authrpc.go:102-104 | and the 60 seconds are reached |
| Deduplication.KeyIdentifiesIffNoSlash | proxy/authrpc.go:283-283 | no other triple has the same key iff no component contains a slash |
| Deduplication.SuppressedStaysHere | proxy/http.go:374-541 | in every run in which a suppressed update arrives: its job never calls the backend; without chaos the client gets the prepared answer; peers are offered it iff its method is an extra mirrored one and no chaos error is drawn, once its handler is past mirroring |
| Pump.OrderAndConservation | proxy/websocket_pump.go:169-268 | the messages read are those that arrive in the events, and the fates of the handled ones are those of the events; message `i` handled is message `i` read; the rest is in the writer's hand, the channel (at most 16) or the reader's hand, at most 18, and 17 once the writer has stopped; without chaos a message is written unaltered or its write failed |
| Pump.FailedReadIsTheLast | proxy/websocket_pump.go:181-185 | after a failed read no continuation of the direction reads, fails to read or passes on a message |
| Pump.PumpReadsNoMoreAfterAFailure | proxy/websocket_pump.go:181-185 | the same in the whole pump, whatever follows |
| Pump.FailureIsReported | proxy/websocket_pump.go:149-167 | a failed read or write, and nothing else, is reported, unless two reports wait already |
| Pump.RunReturnsEveryReport | proxy/websocket_pump.go:80-96 | `run` can return iff it has collected every report that found room |
| Pump.StoppedFlowEnds | proxy/websocket_pump.go:169-274 | after its stop token a direction takes at most 58 more steps |
| Pump.StuckForEver | proxy/websocket_pump.go:187-191 | a reader that waits on a full channel with the writer gone never moves again |
| Pump.ReaderGetsStuckIffOverfull | proxy/websocket_pump.go:169-274 | in one direction, from the moment the reader is sent its token: some run leaves it stuck iff the channel is full and it is reading or sending then |
| Pump.PumpStrandsAReaderIffOverfull | proxy/websocket_pump.go:49-274 | the same in every reachable state of the whole pump, over every continuation |
| Pump.GracefulStopCanStrandAReader | proxy/websocket_pump.go:187-200 | a run of the whole pump from its start, in either direction and without a failure, that ends gracefully stopped with nothing able to move and a reader stuck |
| Pump.RunsAreSound | proxy/websocket_pump.go:49-97 | order, tokens and flags of the whole pump are consistent after every interleaving |
| Pump.ShutdownNeverBlocks | proxy/websocket_pump.go:270-274 | whenever `run` or a terminator is to send a token there is room for it; nobody gets two |
| Pump.QuietAfterStop | proxy/websocket_pump.go:72-84 | when nothing moves any more after a graceful stop: `run` has returned, terminators and writers are gone, readers are gone, waiting for their peer or stuck, and each got exactly one token |
| Pump.WhatAReturnedPumpIs | proxy/websocket_pump.go:72-96 | over all runs that return: inactive for sure iff no failure was reported, active for sure iff `stop` was not called, and then no goroutine is told to stop |
| Pump.StoppedPumpEnds | proxy/websocket_pump.go:49-274 | once both readers have been sent their tokens, the whole pump takes at most 235 more steps, whatever arrives, fails or calls `stop` |
| Pump.Stop | proxy/websocket_pump.go:99-130 | does nothing if inactive; otherwise signals or reports a double close, waits as long as the pump is active but at most 60 rounds, reports a timeout iff it was active in all of them, closes both connections and reports what failed, in order |
| Pump.StopTimesOutIffNoTokenTaken | proxy/websocket_pump.go:72-120 | for any `stop` that finds the pump active, in any reachable state, the flag read along any run: it times out iff `run` has taken no stop token by the last reading, and otherwise waits until the first reading after that |
| Pump.StopAfterTheLoop | proxy/websocket_pump.go:72-120 | with the flag read in the states the pump goes through: a wait that begins after `run` took a failure lasts all 60 rounds and times out, and one that begins after it took a stop does not last at all |
| Sanitizer.SanitizeMasksExactlyTheCovered | jrpc/sanitize.go:6-87 | in a message or a batch nested to any depth, every path the method rules cover holds the masked original with nothing left under it, and every other node is unchanged |
| Sanitizer.CoveredTransactionIsReplaced | jrpc/sanitize.go:89-103 | in place of every covered value the result holds its hash if it is a string that decodes, and one of the two error texts if not |
| Sanitizer.SentTransactionIsHashed | jrpc/sanitize.go:59-62 | every transaction that a raw-transaction call sends and that decodes is replaced by its hash, whatever else the call holds |
| Sanitizer.MaskedIsUnique | jrpc/sanitize.go:6-16 | that specification has one result only |
| Sanitizer.InMessageIsCovered | jrpc/sanitize.go:18-77 | the paths each branch of the code rewrites are the ones the method rules name |
| SanitizerInPlace.RawTransactionToHash | jrpc/sanitize.go:89-103 | a slot becomes the hash of the string in it, or the text of the decoding error, or the one for anything but a string |
| SanitizerInPlace.MaskSlots | jrpc/sanitize.go:84-86 | the loop over a slice overwrites every slot with its mask |
| SanitizerInPlace.SanitizeTransactions | jrpc/sanitize.go:79-87 | on the heap, one field of one object is masked if it is a list, and nothing else changes |
| SanitizerInPlace.SanitizeMessage | jrpc/sanitize.go:18-77 | the object ends up standing for the sanitized message, through the arrays it shared before |
| SanitizerInPlace.SanitizeBatch | jrpc/sanitize.go:8-12 | every item of a batch is sanitized, and none disturbs another |
| SanitizerInPlace.Sanitize | jrpc/sanitize.go:6-16 | running on the heap turns the tree into what the function of `Sanitizer` gives, in the same arrays, and terminates |
| Utils.IPsMatch | utils/utils.go:5-22 | equal lengths, and every address of the second list occurs in the first |
| Utils.IPsOverlap | utils/utils.go:24-41 | some address occurs in both |
| Utils.IsLoopback | utils/utils.go:43-51 | all addresses are loopbacks |
| Utils.TextsCount | utils/utils.go:10-13 | pigeonhole: as many distinct addresses as entries iff none repeats |
| Utils.MatchIsEquality | utils/utils.go:5-22 | against a list without repeats, matching is equality of lengths and of address sets |
| Utils.MatchIsSetEquality | utils/utils.go:5-22 | between lists without repeats, matching is equality of the sets of addresses |
| Utils.MatchIsSetEqualityIffNoRepeats | utils/utils.go:5-22 | matching is set equality against every list without repeats iff the second list has none either |
| Utils.MatchMeansEqualityIffNoRepeats | utils/utils.go:5-22 | for a list that misses some address: whatever matches it has the same addresses iff it has no repeats |
| Utils.MatchIsSymmetricIffNoRepeats | utils/utils.go:5-22 | for a list that misses some address: matching it is symmetric iff it has no repeats |
| Utils.RepeatsBreakSymmetry | utils/utils.go:5-22 | the smallest lists that match in one order of the arguments only |
| PeerFilter.IsTheBackend | config/http_proxy.go:114-131 | the four tests by which a peer is taken for the backend |
| PeerFilter.KeptIff | config/http_proxy.go:101-131 | which peers are kept, in terms of hosts, ports and sets of addresses: without the removal of the backend those that parse and resolve; with it, of these exactly the ones on another host that are on another port or whose addresses differ, with the exceptions for loopbacks |
| PeerFilter.HostsAndPortsDecide | config/http_proxy.go:114-121 | whatever the addresses: another host and port is kept, and the host of the backend dropped |
| PeerFilter.Filter | config/http_proxy.go:100-136 | the two-index loop reads every entry before overwriting it: the front of the array is the kept peers, and each malformed one is reported |
| PeerFilter.Validate | config/http_proxy.go:74-137 | the list and all problems reported, or the panic on an unparsable backend |
| PeerFilter.ProblemsMean | config/http_proxy.go:74-107 | exactly which problems are reported |
| PeerFilter.KeptExactly | config/http_proxy.go:100-136 | if the network answers alike whenever asked, every copy of a peer stays or none does, and nothing else |
| PeerFilter.KeptInOrder | config/http_proxy.go:100-136 | whatever the network answers for each slot: the result is the peers of exactly the slots judged kept, in ascending order |
| PeerFilter.FilterTwice | config/config.go:74-88 | two passes keep what both keep, in order, and the second finds no malformed peer |
| PeerFilter.SecondPassIsIdle | config/config.go:74-88 | on a stable network the second pass changes nothing |
| PeerFilter.ValidateTwice | config/config.go:74-88 | validating twice, with a network that may answer differently, leaves the peers both passes keep and reports malformed ones once; with stable lookups the list is that of one pass; after a panic nothing is touched |
| Rpc.MapHasKeyWithPrefix | utils/map.go:5-12 | some key has the prefix, whatever the order of iteration |
| Rpc.TriageBatch | proxy/rpc.go:156-218 | mirrored and prioritised iff some member would be alone; its transactions are those of the members in order; proxied iff not empty, which agrees with its members unless all of one or more are quote requests |
| Rpc.MirroredMembers | proxy/rpc.go:105-154 | some member is mirrored iff some method starts with one of the two prefixes; single triage mirrors exactly what it prioritises |
| Rpc.MethodsDecide | proxy/rpc.go:105-154 | which calls are mirrored, prioritised, proxied and intercepted, by the prefixes and names of their methods |
| Rpc.TransactionsAreTheDecoded | proxy/rpc.go:180-196 | the transactions of a batch are, in order, those in the parameters of calls of exactly the raw-transaction method |
| Rpc.DecimalDenotes | proxy/rpc.go:175-175 | the number in the name of a batch denotes its length, in decimal digits without leading zeros |
| Rpc.TransactionsOfParts | proxy/rpc.go:180-196 | the transactions of a batch are those of its parts joined |
| Candlestick.Int64Candlestick.Record | metrics/candlestick.go:80-95 | one more pending sample, with high, low and wrapped sum of all of them |
| Candlestick.Int64Candlestick.Observe | metrics/candlestick.go:55-78 | nothing for an empty window; otherwise a candle that opens at the close before, with the true high and low and the truncated quotient of the wrapped sum, and an empty window after |
| Candlestick.CloseIsBetweenLowAndHigh | metrics/candlestick.go:63-63 | low <= close <= high, for negative samples too, if the sum fits into 64 bits, whatever its partial sums do |
| Candlestick.CloseIsTheMeanIffTheSumFits | metrics/candlestick.go:63-84 | the close is the truncated mean iff the sum fits into 64 bits |
| Candlestick.ClosesInsideIffTheRangeFits | metrics/candlestick.go:63-84 | every window of `n` samples in a range has its close between low and high iff `n` times either bound of the range fits into 64 bits |
| Candlestick.OverflowEscapes | metrics/candlestick.go:63-84 | two large samples whose candle closes below its low |
| Candlestick.OverflowCanStayInside | metrics/candlestick.go:63-84 | three samples whose sum overflows and whose candle still closes inside |
| Candlestick.NoSampleIsLost | metrics/candlestick.go:55-95 | over any interleaving every sample is in one window or pending, in order; volumes add up to the records; each candle opens at the close before |

## Left out

- Goroutines as objects: handlers, workers and the goroutines of the pump are steps on values, not classes with methods; channels, WaitGroups and job fields are parts of the state.
- Contents of requests and responses: a response is an uninterpreted value, headers, deadlines and body copies are not modelled, and neither are the pools behind buffers (freeing is counted).
- Buffers of mirror jobs: `execMirrorJob` and the buffers of dropped offers are not tracked, only the jobs.
- Arrivals against a stopping server, `Stop` and the release of URIs while workers run.
- "Draining connections get Connection: close": `receive` looks up by IP, while the maps are keyed by the full remote address.
- Healthcheck.Healthcheck.Check: the probe itself is an argument, and the handler is reported, not called.
- Deduplication.Authrpc.TriageForkchoice: JSON decoders are parameters, and the lateness metric is dropped; the other branches of the authrpc triage return constants.
- Pump.OrderAndConservation: chaos may alter or drop any message; how it mangles one, and its latency, is not modelled; nor are ping, pong and close messages.
- Pump.Stop: what the active flag reads in each round is an argument, which `StopTimesOutIffNoTokenTaken` ties to the states of the pump; whether closing a connection succeeds is one too.
- SanitizerInPlace.Sanitize: decoding a transaction is a parameter; the input is a tree without shared slices, as the JSON decoder builds it.
- PeerFilter.Validate: URL parsing, lookups and local addresses are parameters; lookups are numbered, so that each answer may differ; range checks of other settings are left out.
- PeerFilter.ValidateTwice: the other settings that are validated between the two passes are left out.
- Rpc.TriageBatch: starts from decoded calls; batches with string ids are built but not returned by the decoder. The response to a quote request is left out.
- Candlestick.CloseIsTheMeanIffTheSumFits: the number of samples between two observations is below 2^63, as is every volume in the class.
- Command line, logging, metrics registration, TLS, JWT parsing and the flashblock types: plumbing, or facts of a single branch.
