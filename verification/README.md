# sfo-reuseport in Dafny

A Dafny 4.11 model of sfo-reuseport, a Rust crate that serves TCP, UDP and QUIC from one worker per
core. It covers the parts where the crate does something hard: picking the worker of a QUIC packet
three times over (in userspace and in two hand-assembled kernel programs), the lock-free concurrency
permit, the loops that stand in for kernel reuse-port balancing, the worker executor, the flow hash, and
vectored receive. Every concurrent component is a state machine whose schedule lists each atomic step of
each party, so a lemma about every schedule is a statement about every interleaving; code that works in
place or in loops is a method proved against a specification function.

`dafny verify dfyconfig.toml` checks the project.

## Files

| file | contents |
|---|---|
| Bytes.dfy | bytes, options, and bitwise operations on unbounded naturals |
| QuicRoute.dfy | userspace QUIC routing |
| Ebpf.dfy, EbpfSelector.dfy | extended BPF: interpreter, the 34-instruction selector, its meaning |
| Cbpf.dfy | classic BPF: interpreter, the 7-instruction selector, agreement of the programs |
| Cid.dfy | connection ID generation and the round trip |
| Probe.dfy | the start-up probe of the kernel's selection |
| Permit.dfy | the permit protocol over all interleavings |
| PermitLoops.dfy | its three retry loops as runs of that protocol, and what their retries cost |
| WorkerHash.dfy | the flow hash and worker selection |
| Traffic.dfy | items, and the three routings of the simulated pipeline |
| Pipeline.dfy | receive loop, bounded queues, dispatch loops, close: what holds in every run |
| PipelineServing.dfy | what the pipeline gets done: serving, freeing permits, ending |
| Listener.dfy | the loop that serves a worker's own socket |
| Serving.dfy | kernel-selected serving refines userspace routing |
| SocketViews.dfy | per-worker socket views |
| ServerState.dfy | registries behind a server handle, and close |
| Executor.dfy | the Tokio worker executor |
| Scatter.dfy | scattering a datagram over buffers in place |

## Assumptions

- Atomic accesses are sequentially consistent; registering a waker and waking it are one step each.
- Channels are FIFO and have room for at least one item (4096 in the source); a bounded send waits while the queue is full and fails once the receiver is dropped.
- `usize` has 64 bits. Worker counts given to the kernel programs are below 2^32.
- The extended program's context starts with the addresses of the payload's first byte and of its end;
  addresses plus 8 stay below 2^64. A classic load past the end of the packet returns 0.
- Calls on one server handle's registries (register, hand out, close) are taken one at a time.
- Random bytes, clocks, packet arrivals, delivery order and every choice between ready channels are
  arbitrary parameters. Datagrams have at most 65536 bytes, the size of the receive buffers.

## Model

| member | source | states |
|---|---|---|
| QuicRoute.WorkerIndexMeaning | src/core/quic.rs:485-521 | an index is found exactly in packets that are long enough for their form and whose connection ID fits and has two bytes, and it is the big-endian pair at byte 6 or byte 1, modulo the workers |
| QuicRoute.LongHeaderBit | src/core/quic.rs:490-490 | the mask test is the comparison of the first byte with 0x80 |
| Ebpf.ForwardOnlyHalts | src/platform/linux.rs:424-480 | any program whose jumps go forward, stay inside and whose last instruction exits halts within as many steps as it has instructions left |
| EbpfSelector.ProgramDecodes | src/platform/linux.rs:444-490 | the encoded bytes decode to the intended instructions at all 34 positions, for every worker count |
| EbpfSelector.ProgramIsCanonical | src/platform/linux.rs:444-490 | no instruction sets a field it does not use, which the kernel would refuse |
| EbpfSelector.ModuloByImmediate | src/platform/linux.rs:466-466 | cutting the worker count to a signed 32-bit immediate and sign-extending it does not change the remainder of any 16-bit index |
| EbpfSelector.AsI32 | src/platform/linux.rs:466-466 | the immediate is the signed 32-bit number congruent to the worker count |
| EbpfSelector.SelectHalts | src/platform/linux.rs:424-480 | the selector halts on every payload and every worker count |
| EbpfSelector.SelectMeaning | src/platform/linux.rs:444-479 | on every payload the selector exits without a fault (no read outside the payload, no unset register) with a value below the workers; it takes the default exit exactly on payloads too short for an index or with a connection ID under two bytes |
| EbpfSelector.RunFromEntry | src/platform/linux.rs:444-479 | given any number of steps from 34 up, the decoded program exits at one of its three exits with a value that depends on the payload alone |
| EbpfSelector.SelectAgreesWithWorkerIndex | src/platform/linux.rs:424-480 | wherever userspace finds an index the selector returns it |
| EbpfSelector.SocketIgnoresPlacement | src/platform/linux.rs:445-447 | the result does not depend on where context and payload lie in memory |
| Cbpf.InRangeHalts | src/platform/linux.rs:493-516 | a classic program whose jumps stay in range returns within its own length |
| Cbpf.ProgramDecodes | src/platform/linux.rs:507-521 | the seven encoded instructions decode as intended |
| Cbpf.ProgramIsCanonical | src/platform/linux.rs:507-521 | only the conditional jump uses the jump fields, and the return has no operand |
| Cbpf.SelectHalts | src/platform/linux.rs:493-516 | the classic selector halts on every packet and worker count |
| Cbpf.SelectMeaning | src/platform/linux.rs:493-516 | the classic selector returns 0 on packets too short for their form and the reduced index otherwise |
| Cbpf.RunFromEntry | src/platform/linux.rs:507-515 | the same result for any number of steps from 7 up |
| Cbpf.ProgramsAgree | src/platform/linux.rs:444-516 | the two programs agree on every datagram except long headers whose connection ID is under two bytes, where one returns 0 and the other the reduced index; both agree with userspace on every routable packet |
| Cid.CidGenerator.WithCidLen | src/core/cid.rs:27-31 | accepts exactly 8 to 20 bytes and keeps the worker index |
| Cid.New | src/core/cid.rs:9-21 | accepts exactly indices up to 0xffff, with IDs of 8 bytes |
| Cid.EncodeWorkerIndexPrefix | src/core/cid.rs:73-83 | writes the index as the first two bytes and nothing else; leaves the buffer alone on error |
| Cid.GenerateInto | src/core/cid.rs:47-59 | exactly which calls fail and how; on success the buffer is an ID of this generator with the random bytes after the prefix |
| Cid.Generate | src/core/cid.rs:41-45 | succeeds exactly when random bytes are available, with an ID of this generator whose bytes after the prefix are the random ones |
| Cid.LongRoundTrip | src/core/cid.rs:41-83 | a generated ID in a long header, whatever version and rest, routes to its index modulo the workers, and to its index when below them |
| Cid.ShortRoundTrip | src/core/cid.rs:41-83 | the same for a short header |
| Cid.KernelRoundTrip | src/core/cid.rs:41-83 | both kernel programs send such packets to the worker that made the ID |
| Probe.Sockets.WaitForProbe | src/platform/linux.rs:304-340 | under any traffic, success implies the selector sends this probe to the expected socket and "unexpected worker" that it sends it to another; when nothing else is around the result is decided by where the selector sends the probe and whether it lands in time there: success, unexpected worker, or a timeout |
| Probe.Sockets.LookAt | src/platform/linux.rs:311-334 | which of the four outcomes one read has: the expected probe, the probe on another socket, another packet, a socket error |
| Probe.Sockets.Drain | src/platform/linux.rs:350-362 | with packets arriving between its reads, success means that all that had landed on any socket when it began has been read; what is left arrived later, so with no arrivals every queue is empty; it fails only if a socket does |
| Probe.Sockets.RoutesProbes | src/platform/linux.rs:272-301 | success implies, under any stray and late packets, that probe i goes to socket i for every i and that all that had landed before the drain has been read; when nothing else is around it is equivalent to probe i going to socket i and landing in time for every i; worker counts outside 1 to 65536 are refused |
| Probe.TruncatedIsProbe | src/platform/linux.rs:310-314 | comparing the 16-byte buffer with the probe is comparing the packet with it |
| Probe.ProbeIndex | src/platform/linux.rs:343-347 | the probe for socket i carries index i |
| Probe.RoutingsPassProbe | src/platform/linux.rs:281-300 | userspace routing and both programs pass the probe for every admitted worker count |
| Permit.PermitConservation | src/core/concurrency.rs:53-129 | in every interleaving the counter equals the permits handed out and not given back, stays within the maximum, and no drop leaves its loop without releasing |
| Permit.StepConserves | src/core/concurrency.rs:53-129 | every atomic step, spurious failures and cancelled acquires included, keeps the count |
| Permit.StepKeepsCovered | src/core/concurrency.rs:79-127 | every atomic step keeps a parked listener covered by its waker and an owed wake |
| Permit.NoLostWakeup | src/core/concurrency.rs:79-127 | in every interleaving with one listener, while it is parked and not notified its waker is registered and either all permits are out or a released permit's wake is still owed |
| Permit.DropNotifies | src/core/concurrency.rs:113-127 | any holder that runs uninterrupted and without a spurious failure finishes its drop and notifies the parked listener within four steps |
| Permit.FinishedDropFreed | src/core/concurrency.rs:113-127 | in every continuation, whoever interleaves and however often swaps fail, a holder that gets through its drop has found the listener running or notified on the way |
| Permit.ParkedListenerHasRescuer | src/core/concurrency.rs:79-127 | in every reachable state a parked listener has such a holder |
| Permit.QuiescentListenerIsRunnable | src/core/concurrency.rs:99-127 | when all drops are over the listener is not left waiting |
| Permit.NotifiedListenerAcquires | src/core/concurrency.rs:79-95 | a notified listener takes a free permit in three steps |
| Permit.SpuriousPollParksAgain | src/core/concurrency.rs:79-103 | a parked listener polled for no reason while all permits are out parks again with its waker stored |
| Permit.CancelledListenerAcquiresAgain | src/core/concurrency.rs:42-95 | wherever its future was dropped, a listener takes a free permit in three steps |
| Permit.NoLostWakeupIffOneListener | src/core/concurrency.rs:14-18 | for every maximum, no interleaving loses a wake-up exactly when at most one listener waits on the limit |
| PermitLoops.RetriesPaidFor | src/core/concurrency.rs:53-127 | in every run of the permit machine, for every user and listener: rounds repeated are at most the others' counter changes plus the own swaps that failed by themselves, and the counter moves by the others' changes plus the own ones |
| PermitLoops.DisplacedByOther | src/core/concurrency.rs:99-122 | in every run, only a second listener's registration can push a stored waker out of the slot unnotified |
| PermitLoops.ConcurrencyState.TryAcquire | src/core/concurrency.rs:48-68 | the call and whatever the others do before each of its accesses are a run of the permit machine that takes this user from its first load to holding or refused; refusal only with a full counter; the books of that run as above |
| PermitLoops.ConcurrencyState.Poll | src/core/concurrency.rs:74-105 | the same for one poll, from its load to acquired or parked; pending only with a full counter and its waker in the slot, unless it was notified or another listener registered |
| PermitLoops.ConcurrencyState.DropPermit | src/core/concurrency.rs:109-128 | the same for drop; because its permit is counted it never falls through, and once it has released, every listener that waits is notified, unless a second listener's waker is or was in its place |
| PermitLoops.ConcurrencyState.Wake | src/core/concurrency.rs:122-122 | waking takes the stored waker and notifies exactly that one |
| PermitLoops.ConcurrencyState.CompareExchangeWeak | src/core/concurrency.rs:58-62 | the swap happens exactly when the expected value is found and no spurious failure occurs; the value found is reported |
| WorkerHash.EncodePrefixFree | src/core/schedule.rs:21-38 | the bytes hashed for an address are a prefix-free, injective encoding of optional ip and port |
| WorkerHash.DecodeEncode | src/core/schedule.rs:21-38 | reading a tag, the octets it announces and a port in network order undoes the encoding, whatever follows |
| WorkerHash.EncodeMetaInjective | src/core/schedule.rs:15-17 | so is the stream for peer and local address |
| WorkerHash.PeerComesFirst | src/core/schedule.rs:15-17 | the stream is the peer's bytes followed by the local address's |
| WorkerHash.NamelessFlow | src/core/schedule.rs:5-18 | without addresses the hash is 0x8328807b4eb6fed and selects that modulo the workers |
| WorkerHash.UnabsorbAbsorb | src/core/schedule.rs:40-43 | one hash step is undone by the inverse multiplier and the byte |
| WorkerHash.FnvInjectiveInState | src/core/schedule.rs:40-53 | for any stream the hash is injective in its starting state |
| WorkerHash.OneByteNeverCollides | src/core/schedule.rs:40-53 | streams of equal length differing in exactly one byte have different 64-bit hashes |
| WorkerHash.NeighbouringFlowsDiffer | src/core/schedule.rs:15-18 | flows whose streams differ in at most one byte have equal hashes exactly when they are the same flow |
| WorkerHash.WriteBytes | src/core/schedule.rs:49-53 | the loop computes FNV-1a modulo 2^64 of the bytes |
| WorkerHash.WriteU16 | src/core/schedule.rs:45-47 | a port is hashed as its two bytes in network order |
| WorkerHash.HashSocketAddr | src/core/schedule.rs:21-38 | hashing an address is hashing its encoding |
| WorkerHash.LinuxReuseportSelect | src/core/schedule.rs:8-19 | the selected worker is in range and congruent to the FNV-1a hash of the two encodings; zero workers is an error |
| WorkerHash.SelectedIsResidue | src/core/schedule.rs:18-18 | worker k is selected exactly when the hash is congruent to k |
| WorkerHash.SameWorkerIff | src/core/schedule.rs:8-19 | two flows share a worker exactly when their hashes are congruent modulo the workers |
| WorkerHash.SelectedTcpIsResidue | src/core/tcp.rs:408-416 | with two or more workers, worker k + 1 is selected exactly when the hash is congruent to k modulo one worker less, so never worker 0 |
| WorkerHash.SameTcpWorkerIff | src/core/tcp.rs:408-416 | two connections share a worker exactly when there is one worker or their hashes are congruent modulo one less |
| Traffic.RoutingsAreValid | src/core/udp.rs:1004-1015 | all three routings stay below the worker count, so limit and sender lookups succeed |
| Traffic.UdpRoutesByHash | src/core/udp.rs:1004-1006 | a datagram routes to worker w exactly when its flow hash is congruent to w |
| Traffic.TcpRoutesByHash | src/core/tcp.rs:300-302 | with two or more workers a connection routes to worker w > 0 exactly when its hash is congruent to w - 1 modulo one less, and never to worker 0 |
| Pipeline.PermitsAccountedFor | src/core/udp.rs:1007-1122 | in every run a limited worker's counter is what is queued, in a loop's hands and running, and queued plus running stays within the limit |
| Pipeline.StepKeepsInv | src/core/udp.rs:972-1123 | every step of every loop, handler, abort and close keeps the accounting, order, fates and wake invariants |
| Pipeline.SendNeverWaits | src/core/udp.rs:1010-1029 | a limit no larger than the queue means a send after a permit never waits |
| Pipeline.SendNeverWaitsIff | src/core/udp.rs:26-26 | as soon as anything is routable, no run makes a send wait exactly when there is a limit and it is at most the queue capacity |
| Pipeline.WaitingSendGetsThrough | src/core/udp.rs:1010-1123 | in every run, open or closed, a send that waits is let through or told the worker is gone after at most four steps of that worker's dispatch loop |
| Pipeline.ExactPartition | src/core/udp.rs:982-1030 | every received item not in flight is exactly one of unroutable, refused with its worker's counter at the limit, or admitted to the worker it routes to; only a stopped loop abandons one; lookups never fail |
| Pipeline.WorkerIsFifo | src/core/udp.rs:1093-1123 | started, in hand, queued and discarded items are, in order, the admitted ones; queues stay within capacity |
| PipelineServing.CloseEndsServing | src/core/udp.rs:457-457 | whatever happens before and after a close: no further item is received, and a worker starts at most the one handler its dispatch loop had already cleared |
| PipelineServing.WakeStopsWaitingReceiver | src/core/udp.rs:456-464 | closing alone leaves a receive loop waiting on an empty socket however long it runs; the wake stops it in two steps |
| PipelineServing.InactiveReceiverStops | src/core/udp.rs:981-1000 | once server or runtime is inactive, an unblocked receive loop stops within three steps |
| PipelineServing.ClosedDispatchStops | src/core/udp.rs:1103-1109 | a closed dispatch loop with an item to take, or whose sender is gone, stops within two steps |
| PipelineServing.ErrorIsSurvived | src/core/udp.rs:986-992 | an open receive loop is back where it was one step after an error that is not fatal |
| Pipeline.WakeIsNeverServed | src/core/udp.rs:996-999 | the wake datagram is never routed or handed to a handler |
| Pipeline.StoppedPipelineReturnsPermits | src/core/udp.rs:1103-1122 | when loops have stopped and handlers are done every permit is back |
| PipelineServing.FinishReturnsPermit | src/core/udp.rs:1085-1088 | in every run a finishing handler lowers running and active by exactly one |
| PipelineServing.FinishedHandlerLetsItemIn | src/core/udp.rs:1010-1012 | in every run, an item for a full worker is refused, and sent to it if one handler finishes first |
| PipelineServing.AbortedSendReturnsPermit | src/core/udp.rs:1016-1029 | aborting the receive loop in the middle of a send gives the permit back and abandons the item |
| PipelineServing.AbortedDispatchReturnsPermits | src/core/udp.rs:1093-1123 | aborting a waiting dispatch loop discards its queue and gives those permits back |
| PipelineServing.QueueIsDrained | src/core/udp.rs:1103-1122 | an open dispatch loop starts its whole queue, in order, in four steps an item |
| PipelineServing.AllTrafficCanBeServed | src/core/udp.rs:972-1123 | for every traffic there is a run in which each worker starts and finishes exactly what routes to it, in order, and every permit is back |
| PipelineServing.ConfiguredLimitHolds | src/core/concurrency.rs:29-40 | a configured limit of one or more bounds what each worker of each server has queued and running; zero or none means nothing is ever refused |
| PipelineServing.ConfiguredSendNeverWaitsIff | src/core/udp.rs:26-26 | the sends of the UDP and TCP servers never wait exactly for limits from 1 to 4096 |
| PipelineServing.UdpAdmitsByHash | src/core/udp.rs:1004-1029 | in every run a UDP datagram is admitted only to the worker congruent to its flow hash |
| PipelineServing.TcpAdmitsByHash | src/core/tcp.rs:300-316 | in every run a connection is admitted only to the worker after the one congruent to its hash modulo one less |
| PipelineServing.QuicAdmitsById | src/core/quic.rs:392-420 | in every run a QUIC packet is admitted only to the worker its connection ID names |
| Pipeline.UnroutedWorkerStaysIdle | src/core/tcp.rs:289-316 | a worker nothing routes to never queues or starts anything |
| Pipeline.TcpWorkerZeroServesNothing | src/core/tcp.rs:289-316 | with two or more workers simulated TCP never gives worker 0 a connection |
| Pipeline.UnlimitedWorkerGetsItsRoute | src/core/quic.rs:374-420 | without a limit each worker is given exactly the received items that route to it, in order |
| Pipeline.StartedFollowsRoute | src/core/quic.rs:374-420 | without a limit, at every moment of every run, closed or not, what a worker has started is a prefix of the genuine arrivals that route to it |
| Listener.ListenerSafety | src/core/udp.rs:931-969 | in every run handlers start for exactly the accepted items that passed the checks; the counter is the loop's permit plus running handlers; at most one handler starts after close, never the wake datagram's |
| Listener.WaitingListenerServedArrivals | src/core/quic.rs:437-476 | a listener waiting on an empty socket has served exactly what it accepts of all arrivals |
| Listener.StartedFollowsArrivals | src/core/quic.rs:437-476 | at every moment of every run, closed or not, what it has started is a prefix of what it accepts of the genuine arrivals |
| Listener.CloseEndsServing | src/core/udp.rs:932-953 | whatever happens before and after a close, the most that still starts is the handler about to be started |
| Listener.WakeEndsWaitingLoop | src/core/udp.rs:456-464 | a waiting loop ends within two steps of a close and its wake, and its permit is not lost |
| Listener.CloseAloneLeavesWaiting | src/core/udp.rs:456-464 | without the wake it stays where it is, however long it runs |
| Listener.InactiveLoopEnds | src/core/udp.rs:932-953 | once server or runtime is inactive, an unblocked loop ends within two steps and keeps no permit |
| Listener.SixStepsServe | src/core/udp.rs:932-968 | six steps of an open loop with room start the handler of the first accepted item |
| Listener.FiveStepsSkip | src/core/quic.rs:457-461 | five steps drop an item that is not accepted, and its permit with it |
| Listener.FinishReturnsPermit | src/core/udp.rs:1085-1088 | in every run a finishing handler lowers running and active by exactly one |
| Listener.ErrorIsSurvived | src/core/udp.rs:940-946 | an open loop waits as before three steps after an error that is not fatal |
| Listener.AllTrafficCanBeServed | src/core/udp.rs:931-969 | for every traffic there is a run that starts and finishes exactly the handlers of what is accepted, in order, with every permit back |
| Serving.KeptWhereRouted | src/core/quic.rs:500-502 | under either program a packet lands on and is kept by worker w exactly when userspace routes it to w |
| Serving.ShareThenFilterIsRoute | src/core/quic.rs:437-459 | splitting traffic by kernel socket and filtering equals routing it |
| Serving.ServingFollowsRouting | src/core/quic.rs:365-477 | for any two interleavings over the same traffic, however much of it each has been sent and whether or not either was closed, the handlers started by a kernel-selected listener and by the unlimited simulated pipeline are prefixes of the same routed sequence, so one is a prefix of the other |
| Serving.KernelServingRefinesRouting | src/core/quic.rs:365-477 | once both are drained of the same traffic they have started the same handlers in the same order, namely the routed sequence |
| Serving.EveryTrafficIsServedAlike | src/core/quic.rs:365-477 | for every traffic both sides have a run that serves all of it, with the same handlers started for each worker |
| Serving.ConfiguredLimitHolds | src/core/concurrency.rs:29-40 | a configured limit of one or more bounds the running handlers of a kernel-selected listener |
| SocketViews.ViewIsExactFilter | src/core/udp.rs:849-887 | while loop and view exist, delivered plus queued plus the one being handed over are exactly the received items routed to the view; ever after a prefix; queues stay within capacity |
| SocketViews.AllTrafficCanBeDelivered | src/core/udp.rs:849-887 | for every traffic there is a run in which each view reads exactly what routes to it, in order |
| SocketViews.CloseReceivesAtMostOne | src/core/udp.rs:849-887 | whatever happens before and after a close, at most one more item is received |
| SocketViews.WakeEndsLoop | src/core/udp.rs:849-887 | a waiting loop ends within three steps of a close and its wake if the views have room |
| SocketViews.HowTheLoopEnds | src/core/udp.rs:855-862 | an open loop survives a receive error; a closed one and an aborted one end |
| SocketViews.DroppedViewEndsLoop | src/core/udp.rs:870-886 | handing an item to a view that is gone ends the loop |
| SocketViews.DroppedViewStaysEmpty | src/core/udp.rs:876-886 | a dropped view loses its queue and is never given anything again, in any continuation |
| SocketViews.WakeReachesViewIff | src/core/udp.rs:849-887 | since this loop does not re-check after receiving, some run delivers the wake datagram to a view exactly when the routing accepts a one-byte datagram |
| SocketViews.WakeAndTheTwoRoutings | src/core/udp.rs:424-430 | QUIC routing never accepts it and hash routing always does |
| ServerState.UdpServerState.Close | src/core/udp.rs:456-485 | the flag is stored before anything else; every registered socket is woken and then shut down once, every task cancelled once, every registry emptied; every socket registered before, so every socket ever handed out, has then been woken and shut down |
| ServerState.ClosingRetires | src/core/udp.rs:456-474 | a close wakes and afterwards shuts down every socket of either registry |
| ServerState.ClosingCounts | src/core/udp.rs:456-482 | a close wakes and shuts down each socket, and cancels each task, exactly as often as it is registered |
| ServerState.EffectsMatchRegistrations | src/core/udp.rs:456-528 | after any history of calls, each registration of a task or socket is answered by exactly one cancel, or one wake and one shutdown, or still waits for a close |
| ServerState.CloseCancelsEachOnce | src/core/udp.rs:478-482 | after a close each task has been cancelled exactly as often as it was ever registered |
| ServerState.RetiredIffClosedAfter | src/core/udp.rs:456-519 | after any history of registrations and closes a socket has been woken and shut down exactly when some close came after a registration of it |
| ServerState.LateSocketOutlivesClose | src/core/udp.rs:507-519 | registering does not read the flag: a socket first registered after the last close stays in the pool, neither woken nor shut down |
| ServerState.UdpServerState.WakeAndShutDown | src/core/udp.rs:458-465 | all sockets of a registry are woken before any is shut down, each once and in order |
| ServerState.WakesFollowTheFlag | src/core/udp.rs:456-464 | no wake precedes the flag |
| ServerState.TasksCancelledLast | src/core/udp.rs:456-482 | within a close every cancel comes after all wakes and shutdowns |
| ServerState.UdpServerState.ListenerSocket | src/core/udp.rs:530-562 | a closed server refuses, a thread with a socket gets it, another gets some pool socket, an empty pool is an error; a socket handed out is always one that close will reach |
| ServerState.EverySocketHasItsTime | src/core/udp.rs:554-557 | whatever the counter, every pool socket is the one chosen at some time |
| Executor.ExecutorSafety | src/runtime/tokio.rs:163-211 | in every run that issues at most 2^64 ids live tasks are in the handle map, entries of finished tasks have a queued completion, a cancel never precedes its spawn, only cancelled tasks are aborted before the loop ends |
| Executor.StepKeepsInv | src/runtime/tokio.rs:163-234 | every choice of the loop and every outside move keeps the id, queue, map and abort invariants; only issuing an id needs one to be left |
| Executor.ShutdownEndsEveryTask | src/runtime/tokio.rs:207-209 | after the loop every started task has finished or been aborted |
| Executor.DrainedMapIsExact | src/runtime/tokio.rs:87-96 | with no completion waiting the handle map holds exactly the live tasks |
| Executor.CancelTakesEffect | src/runtime/tokio.rs:42-51 | every cancel is queued or has ended its task, unless the loop ended first |
| Executor.EndedTasksStayEnded | src/runtime/tokio.rs:187-203 | an ended or aborted task is never live again, in any continuation |
| Executor.GuaranteesIffIdsUnique | src/runtime/tokio.rs:163-234 | each of these five guarantees holds in all runs that issue at most n ids exactly when n is at most 2^64: with one id more, a stale completion of the first task 1 takes the second task 1 out of the map, and neither cancel nor shutdown reaches it |
| Executor.SecondTaskReaches | src/runtime/tokio.rs:126-223 | the counter, starting at 1 and wrapping at 2^64, gives out id 1 again as its 2^64+1st: one thread that spawns and cancels a task under every other id gets there with nothing left over, and the loop starts a second task 1 while the first one's completion is queued |
| Executor.DiscardingDrops | src/runtime/tokio.rs:87-96 | a cancelled live task is dropped and reports its end exactly if it was ever polled |
| Executor.CurrentThreadExecutor.ParkUntilShutdown | src/runtime/tokio.rs:163-211 | the loop follows the state machine choice by choice, and while at most 2^64 ids are issued it returns with the guarantees above |
| Executor.CurrentThreadExecutor.TakeOneCommand | src/runtime/tokio.rs:187-203 | one command updates tasks and map as specified, and each entry stays filed under its own task |
| Executor.CurrentThreadExecutor.AbortRemaining | src/runtime/tokio.rs:207-209 | every remaining handle is aborted, whatever order the map yields |
| Executor.CurrentThreadExecutor.SpawnTask | src/runtime/tokio.rs:219-234 | a fresh id is queued for spawning, or the call fails once the loop has ended |
| Scatter.ScatterDatagram | src/core/udp.rs:318-328 | the buffers end up holding the scattered payload, for every list of distinct buffers, empty ones included |
| Scatter.OutcomeIsScattered | src/core/udp.rs:318-328 | the loop with its running offset computes the recursive specification |
| Scatter.FillBuffer | src/core/udp.rs:324-326 | one round overwrites the front of one buffer with the next bytes, leaves all others alone and advances the offset |
| Scatter.ScatteredFlat | src/core/udp.rs:318-328 | laid end to end they hold as much of the payload as fits and then exactly their old bytes |
| Scatter.ScatteredSizes | src/core/udp.rs:318-328 | no buffer changes size |
| Scatter.GatherReturnsPayload | src/core/udp.rs:265-281 | the returned length reads the datagram back exactly when the buffers can hold it |
| Scatter.RecvVectored | src/runtime/tokio.rs:309-336 | a vectored receive reports the datagram's length, fitting or not, and fills the buffers as above |

## Left out

- System calls, socket options, `recvmsg` and control messages (src/platform): kernel behaviour that the source does not show.
- Worker thread start-up and joining, the builders that copy configuration fields, and `Display` for errors: they move values and start threads but decide nothing about routing, permits or order.
- The async-std runtime (src/runtime/async_std.rs): it keeps no task ids or handle map and passes its tasks to the `async_executor` crate, whose code is not part of this model; the results of Executor.dfy are about the Tokio runtime only.
- Weak memory orderings: the permit is modelled under sequential consistency.
- The pipeline and listener machines take a permit attempt as one step; its inner loop is the subject of Permit.dfy and PermitLoops.dfy.
- A failing handler spawn: the Tokio runtime's `spawn_local` always succeeds (src/runtime/tokio.rs:53-61).
- Poisoned locks and failing socket clones in the registries: each only returns its error.
- Liveness under a fair scheduler: for the permit and for a waiting send, progress is stated as a bounded number of steps from every reachable state; the loops get serving and ending runs of known length, but nothing is said about a scheduler that starves them.
- The IPv6 flow label and scope id are not part of `SocketAddr`, because the source does not hash them.
- ExecutorSafety: like ShutdownEndsEveryTask, DrainedMapIsExact, CancelTakesEffect and EndedTasksStayEnded it holds for runs that issue at most 2^64 task ids; GuaranteesIffIdsUnique proves that each fails as soon as one more is issued, because the 64-bit counter wraps.
