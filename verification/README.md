# LiNeP verification models

A Dafny model of LiNeP, a scheduler and control-plane protocol, and of its security layer LiNeP-SL, with proofs about
it. `dafny verify dfyconfig.toml` checks everything.

What the program changes step by step is a class or a method with loops here, and each such method is proved to do
exactly what a specification function says; the properties are lemmas about the specification, most of them about whole
runs. Concurrent code is a machine of atomic steps that interleave freely. Cryptographic primitives that the program only
calls are parameters with the few laws the protocol rests on; SHA-256 and HMAC, which it implements, are verified down to
the bytes.

| file | content |
|---|---|
| `MpscQueue.dfy` | the bounded lock-free queue of pending tasks: producers and consumer as interleaved accesses, and the ring in place |
| `Dispatch.dfy`, `Counting.dfy`, `Arithmetic.dfy` | callers, dispatch loop and slot threads of the scheduler; sums over threads; remainders |
| `DispatchProgress.dfy`, `DispatchAnswers.dfy` | the scheduler gets on: how far it is from drained, and that every step brings it nearer; no slot's answer is lost |
| `DispatchQueue.dfy` | the scheduler on its ring, access by access, as a refinement of the scheduler on a sequence |
| `SlotSelection.dfy` | eligibility, score, tie-break and the choice of the best slots |
| `ControlPlane.dfy` | the control-plane router: epochs, sequence numbers, leases, and what old datagrams cannot do |
| `Lease.dfy`, `LeaseExchange.dfy` | lease clients and issuer over a network that loses, repeats and reorders; each call exactly, and that a renewal succeeds |
| `Basics.dfy`, `Wire.dfy`, `Buffers.dfy` | machine words; byte layouts read and written in one place, both ways for every layout; the append buffer and the moving reader |
| `Frames.dfy`, `Requests.dfy`, `OptionOrder.dfy`, `Events.dfy`, `Capabilities.dfy`, `SessionBinds.dfy`, `Codecs.dfy` | header, authentication extension and the envelopes, as layouts and in place |
| `FrameBytes.dfy`, `EnvelopeOutcomes.dfy`, `AnnouncedSizes.dfy` | where every field of a frame lies and which frames open and verify; what the encoders refuse and decoded envelopes promise; what the size check of a registration adds up |
| `Registration.dfy`, `RegistrationValidity.dfy`, `RegistrationCodec.dfy` | the canonical registration envelope, as a grammar and in one pass |
| `RegistrationSession.dfy`, `RegistrationHistory.dfy`, `RegistrationEndpoint.dfy` | the router's end of a worker connection above the session manager; what its registration says, told by what the worker announced; in place |
| `StreamHistories.dfy` | what each operation needs and gives, and the state of a stream told by the history of its session |
| `SessionStreams.dfy`, `SessionAuth.dfy`, `SessionManager.dfy` | stream life cycle and flow control; one end's binding and gap-free authenticated numbering; both in place |
| `SessionLease.dfy` | a connection together with the router it asks: what it is bound to was acknowledged |
| `SessionChannel.dfy` | one direction of an authenticated connection over any number of binds: what is accepted against what was signed |
| `Sha256Standard.dfy`, `Sha256Streams.dfy`, `SlSha256.dfy`, `CoreSha256.dfy` | FIPS 180-4 and RFC 2104, and the two streaming implementations of the program |
| `ReplayWindow.dfy` | the sliding replay window and the stream position tracker |
| `Negotiation.dfy`, `SessionRegistry.dfy`, `RegistryHistory.dfy` | level and suite negotiation with its transcript; the registry of secured sessions; which session names a sender, told by the calls |
| `HandshakeMessages.dfy`, `Handshake.dfy`, `HandshakeSession.dfy` | messages, both roles and whole runs of the SL2 handshake; the session object in place |
| `HandshakeAgreement.dfy`, `HashChain.dfy` | what equal transcript hashes at two ends mean, over any calls and any bytes between them; chains of digests |
| `HandshakeAuthenticity.dfy`, `HandshakeOutcomes.dfy` | what a hello that was accepted proves, and a finished message that was taken; when each call succeeds |
| `GroupSecurity.dfy`, `GroupProvider.dfy`, `GroupHistory.dfy` | execution groups: membership, epochs, protected messages; the provider over whole runs and in place; what past removals and messages say of who is heard |
| `GroupOutcomes.dfy`, `GroupRatchets.dfy`, `GroupSecrets.dfy`, `GroupTranscripts.dfy` | when each operation of a group succeeds; which messages share a generation; where every key comes from and when two are the same; what the hashes of a group say of its past |

## What the code does differently from what one would expect

Where an expectation fails, a lemma gives a run or an input and another says exactly when it holds; where a branch is
never taken, one lemma says so for every run.

- The queue admits capacity 1, and with it loses items (`MpscQueue.OneSlotLosesAnItem`); its order holds exactly for
  capacities above 1 (`MpscQueue.OrderedExactlyAboveOne`).
- `lease.hpp` takes silence after the delivery probe for a confirmed lease; both the acknowledgement and the probe may
  have been lost (`Lease.ActiveWithoutALease`). What an active client presents validates exactly
  when one of its acknowledgements of that lease was delivered (`Lease.HeldLeaseValidatesExactly`).
- `LiNeP/docs/v0_2/CONFORMANCE.md` promises that replayed numbers are rejected. They are between two binds, but a bind
  that is repeated after going stale, or repeated with another key, starts the numbering over under the same binding, and
  then the frames of the earlier numbering verify and are accepted again, in their order (`SessionAuth.StaleRebindReplays`,
  `SessionChannel.RebindReplays`, `SessionChannel.ARunThatAcceptsTwice`). The router lets such a bind through when a
  cooling node recovers (`ControlPlane.SameLeaseValidatesAgain`), and the fresh registration that
  `LiNeP/docs/v0_2/RUNTIME_REGISTRATION.md` demands then may be the old frame
  (`RegistrationSession.OldRegistrationRegistersAgain`). Delivery is in order and without gap exactly if no frame
  numbered 2 or more was signed before under the binding, in the direction and with a key the receiver knows
  (`SessionChannel.DeliversInOrderExactly`); it is so if no restarting bind repeats an earlier binding
  (`SessionChannel.NewBindingsDeliverOnce`).
- Draining can move the acknowledged offset backwards when its 64-bit sum wraps
  (`SessionStreams.ADrainThatFalls`), exactly under the condition of `SessionStreams.DrainFallsExactlyWhenItWraps`.
- Strings longer than their length prefix and payloads longer than the frame do not survive encoding
  (`Wire.TextSurvivesExactlyWhenItFits`, `Frames.OpenOverlong`); the `...Exactly` lemmas of the envelopes give the exact
  condition for each.
- The session-bind decoder ignores the minor version, so its frames are canonical exactly up to that byte
  (`SessionBinds.AnotherVersionDecodes`, `SessionBinds.EncodesBackExactly`).
- A group member that was removed and added again is active and protects messages that no one opens
  (`GroupHistory.ARunNobodyHears`); an active member is heard exactly if it was never removed
  (`GroupHistory.NeverReaddedExactly`, `GroupHistory.MessagesOpenExactly`).
- The tag of a group message does not cover its mode (`GroupSecurity.ModeIsNotCovered`); what opens is what was
  protected exactly when the modes agree on encryption, or encryption leaves the payload as it is
  (`GroupHistory.OpenedWasProtected`).
- Generations wrap: the ratchet of a sender gives the same keys again after exactly 2^32 calls in one epoch
  (`GroupRatchets.GenerationsRepeatExactly`, `GroupSecrets.KeysRepeatExactly`).
- A lease acknowledgement that reports the node unhealthy or unavailable still makes it active; only the next heartbeat
  or status cools it (`ControlPlane.LeaseAckDecides`).
- `LiNeP/README.md` gives other weights for the slot score than the code; the model has the code's.
- A bare handshake header unwraps to the empty payload, which does not wrap (`HandshakeMessages.EmptyUnwrapsOnly`).
- The execution scope of `process_control` is unreachable, because a valid control names a request; therefore a refused
  control changes nothing (`SessionStreams.RefusalChangesNothing`).
- The client's error branch for a lease that changed under it (`Lease.LeaseNeverChangesUnderAProbe`) and the choice among
  several OK answers (`Dispatch.ConsensusNeverReached`) are never taken.

## Model

| member | source | states |
|---|---|---|
| `MpscQueue.PopsInTicketOrder` | LiNeP/src/scheduler/task_queue.hpp:50-84 | for every capacity above 1 and every interleaving of any producers and one consumer: what was popped is exactly the reserved items in ticket order up to the tail, each once, and a push that returned true has its item at its ticket |
| `MpscQueue.RefusesExactlyWhenFull` | LiNeP/src/scheduler/task_queue.hpp:50-72 | a push gives up exactly at a moment when every slot is reserved and not yet released |
| `MpscQueue.FindsExactlyPublished` | LiNeP/src/scheduler/task_queue.hpp:74-84 | a pop finds an item exactly when the oldest unreleased ticket exists and is published; a later published one does not help |
| `MpscQueue.DrainsCompletely` | LiNeP/src/scheduler/task_queue.hpp:50-84 | with no push in progress, as many pops as there are items left return all that was ever reserved, in order |
| `MpscQueue.ReturnedPushComesFirst` | LiNeP/src/scheduler/task_queue.hpp:50-72 | a push that has returned precedes, in ticket order, every push that starts later, through any further interleaving |
| `MpscQueue.StepInv` | LiNeP/src/scheduler/task_queue.hpp:50-84 | every access of every thread keeps the ring invariant: each slot of the live window is free, held by exactly its ticket, or published with the item of its ticket |
| `MpscQueue.OneSlotLosesAnItem` | LiNeP/src/scheduler/task_queue.hpp:41-84 | with capacity 1, which the source admits, a run in which a pushed item is overwritten and lost |
| `MpscQueue.OrderedExactlyAboveOne` | LiNeP/src/scheduler/task_queue.hpp:50-84 | the order guarantee holds in every run exactly for capacities above one |
| `MpscQueue.BoundedMpscQueue.ProducerAccess` | LiNeP/src/scheduler/task_queue.hpp:50-72 | one access of a producer to the ring in place is one producer step of the protocol |
| `MpscQueue.BoundedMpscQueue.ConsumerAccess` | LiNeP/src/scheduler/task_queue.hpp:74-84 | one access of the consumer in place is one consumer step of the protocol |
| `MpscQueue.BoundedMpscQueue.Push` | LiNeP/src/scheduler/task_queue.hpp:50-72 | undisturbed, push appends the item, or returns false and changes nothing exactly when the queue is full |
| `MpscQueue.BoundedMpscQueue.Pop` | LiNeP/src/scheduler/task_queue.hpp:74-84 | undisturbed, pop takes the oldest item, or returns none exactly when the queue is empty |
| `Dispatch.OnePlaceAndBoundedRounds` | LiNeP/src/scheduler/scheduler.cpp:109-309 | in every interleaving of submits, loop and slot threads each submitted task is in exactly one place (a caller, queue, snapshot, a round, or finished), its callback fired at most once, and it was started in at most max(1, max_attempts) rounds |
| `Dispatch.FiredOnceWhenDrained` | LiNeP/src/scheduler/scheduler.cpp:218-309 | once queue and threads are drained every submitted task has had exactly one callback |
| `Dispatch.StepInv` | LiNeP/src/scheduler/scheduler.cpp:109-513 | every step of every thread keeps the invariant that ties rounds, places, budgets and callbacks together |
| `Dispatch.ThreadStepInv` | LiNeP/src/scheduler/scheduler.cpp:439-513 | a slot thread step keeps the invariant of its round, and the round hands its task on only by the one callback or by putting the task back |
| `Dispatch.OkExactlyIfSomeSlotOk` | LiNeP/src/scheduler/scheduler.cpp:293-309 | a round that has an outcome ended OK exactly if some slot answered OK, and then with such an answer |
| `Dispatch.OkIsReported` | LiNeP/src/scheduler/scheduler.cpp:439-513 | an OK answer never goes unreported: when the round is over, the callback has fired with an OK answer of this round |
| `Dispatch.OkCallbackComesFromSlot` | LiNeP/src/scheduler/scheduler.cpp:439-513 | every OK callback carries the answer of a slot of some round of that task |
| `DispatchAnswers.AnswersAreKept` | LiNeP/src/scheduler/scheduler.cpp:439-452 | in every run what the threads of a round have put down or still hold are exactly the answers its slots gave, each as often as it was given |
| `DispatchAnswers.DecidedOnWhatWasGiven` | LiNeP/src/scheduler/scheduler.cpp:439-513 | when all threads of a round have gone, the answers it decided on are exactly those its slots gave, and it ended with OK exactly if one of them was OK, however the threads raced |
| `Dispatch.ConsensusNeverReached` | LiNeP/src/scheduler/scheduler.cpp:453-509 | when the last thread of a round finds the task unfinished no answer is OK: the choice among several OK answers is never taken, and it reports the first answer, tries again, or times out |
| `Dispatch.PlacesKept` | LiNeP/src/scheduler/scheduler.cpp:109-309 | a step moves a task from one place to another; only a submit brings one in and none is lost |
| `DispatchProgress.EveryStepGetsOn` | LiNeP/src/scheduler/scheduler.cpp:109-513 | in every reachable state, whatever network, slots and queue do: a step other than a submit changes nothing or brings the scheduler strictly nearer to the end |
| `DispatchProgress.SettledExactlyWhenDrained` | LiNeP/src/scheduler/scheduler.cpp:218-513 | no such step changes anything exactly when the scheduler is drained: while a task is on its way some thread can take a step |
| `DispatchProgress.RunsSettle` | LiNeP/src/scheduler/scheduler.cpp:109-513 | without further submits a run takes at most as many steps that change anything as its distance says: no retry, refusal or lost race goes on for ever |
| `DispatchProgress.EveryTaskIsAnswered` | LiNeP/src/scheduler/scheduler.cpp:109-513 | from every reachable state there is a way to the end without further submits, at which every submitted task has had exactly one callback |
| `DispatchQueue.OnePlaceOverTheRing` | LiNeP/src/scheduler/scheduler.cpp:109-309 | the same over the real ring, with every access of every push and pop a step of its own: each submitted task is in exactly one place, fires at most once and is started in at most max(1, attempts) rounds |
| `DispatchQueue.FiredOnceOverTheRing` | LiNeP/src/scheduler/scheduler.cpp:218-309 | once the ring and the threads are drained every submitted task has had exactly one callback |
| `DispatchQueue.RingStepIsAQueueStep` | LiNeP/src/scheduler/task_queue.hpp:50-84 | an access to the ring is one step of a queue that is a sequence, or none: a push takes effect with the exchange that reserves its ticket or the load that finds the ring full, a pop with the advance of the tail or the load that finds nothing |
| `DispatchQueue.RingRunsAreQueueRuns` | LiNeP/src/scheduler/scheduler.cpp:109-309 | every run of the scheduler over the ring is a run of the scheduler over the sequence |
| `Dispatch.SharedDispatchState.CompleteIfFirst` | LiNeP/src/scheduler/scheduler.cpp:293-309 | only the first claim sets the outcome |
| `Dispatch.SharedDispatchState.Choose` | LiNeP/src/scheduler/scheduler.cpp:462-490 | the walk over the partial results finds the OK answers in order and picks as the source does |
| `Dispatch.SharedDispatchState.Access` | LiNeP/src/scheduler/scheduler.cpp:439-513 | one access of a slot thread to the shared object in place is one thread step of the protocol |
| `ControlPlane.IngestIsTransactional` | LiNeP/src/v0_2/control_plane.cpp:229-444 | a refused datagram and a duplicate change nothing; a committed one is lexicographically later in (epoch, sequence) than all its node committed before, becomes its latest, and touches no other node |
| `ControlPlane.CopiesAreHarmless` | LiNeP/src/v0_2/control_plane.cpp:229-444 | inserting any number of copies of already committed datagrams anywhere later in a run leaves the final router as it is |
| `ControlPlane.LeasesAreIssuedAndAcknowledged` | LiNeP/src/v0_2/control_plane.cpp:174-444 | in every run: an INVITED, ACTIVE, DEGRADED or COOLING node holds the nonzero token of the latest invitation issued to it, in its present epoch, and past INVITED its acknowledgement of that token was committed in that epoch |
| `ControlPlane.ValidBindingWasAcknowledged` | LiNeP/src/v0_2/control_plane.cpp:484-497 | a binding that validates is the latest lease of its node and was acknowledged in its epoch |
| `ControlPlane.OldEpochsStayInvalid` | LiNeP/src/v0_2/control_plane.cpp:229-497 | once a node has announced a higher epoch no binding of an earlier epoch validates again, whatever follows |
| `ControlPlane.SecondLeaseNeedsCooling` | LiNeP/src/v0_2/control_plane.cpp:174-444 | within an epoch an INVITED, ACTIVE or DEGRADED node never becomes SEEN in one event and its token changes only by going OFFLINE: a second lease in one epoch needs COOLING or OFFLINE first |
| `ControlPlane.SameLeaseValidatesAgain` | LiNeP/src/v0_2/control_plane.cpp:366-393 | two heartbeats make a binding stop validating and validate again, epoch and token unchanged |
| `ControlPlane.CommitsExactly` | LiNeP/src/v0_2/control_plane.cpp:229-298 | a datagram is committed exactly if it names a node and is the first hello of an unknown one, a hello of a higher epoch, or newer in the present epoch and admitted by the node's state |
| `ControlPlane.HelloAnnounces` | LiNeP/src/v0_2/control_plane.cpp:252-333 | a hello announces a node afresh: SEEN, with what it says of itself, a lease token only within its epoch, and no binding of it validates |
| `ControlPlane.LeaseAckDecides` | LiNeP/src/v0_2/control_plane.cpp:335-362 | an acknowledgement is committed exactly for the lease offered to an invited node, with a trunk; then that lease and no other validates, and the node is degraded exactly if it reports so and active otherwise, even if it reports unhealthy |
| `ControlPlane.TelemetryDecides` | LiNeP/src/v0_2/control_plane.cpp:364-428 | a committed heartbeat or status leaves the node cooling exactly if it reports unavailable or unhealthy, degraded on a degraded report, active only on a clean one; its lease then validates exactly if the node is not cooling and the trunk is there |
| `ControlPlane.BadTelemetryCools` | LiNeP/src/v0_2/control_plane.cpp:364-497 | in every run, after a committed heartbeat or status that reports unavailable or unhealthy the node is cooling and no binding of it validates, until it commits telemetry that reports neither or acknowledges a lease |
| `ControlPlane.StaysOutOfService` | LiNeP/src/v0_2/control_plane.cpp:229-525 | the same from any node out of service, over any further datagrams, invitations and sweeps |
| `ControlPlane.PongOnlyShowsLife` | LiNeP/src/v0_2/control_plane.cpp:430-438 | a pong moves the sequence number and the time last seen and nothing else |
| `ControlPlane.SweepTakesSilentNodes` | LiNeP/src/v0_2/control_plane.cpp:499-525 | a sweep takes exactly the nodes out of service that were silent for longer than one of the two limits, and those silent for longer than the second lose their lease; the others stay |
| `ControlPlane.CacheDropsExactly` | LiNeP/src/v0_2/control_plane.cpp:301-413 | cached capabilities are dropped exactly when a known node starts a new epoch or a status reports other ones |
| `ControlPlane.InviteExactly` | LiNeP/src/v0_2/control_plane.cpp:174-202 | a lease is offered exactly to a node that is SEEN, which it invites; the offer carries epoch and token |
| `ControlPlane.ReinviteExactly` | LiNeP/src/v0_2/control_plane.cpp:204-227 | and again, unchanged, exactly while the node is invited in that epoch |
| `ControlPlane.RoutableExactly` | LiNeP/src/v0_2/control_plane.cpp:446-482 | new work is routed to exactly the nodes whose lease validates and that last reported available and not unhealthy |
| `ControlPlane.LessTroubleScoresLower` | LiNeP/src/v0_2/control_plane.cpp:457-468 | a degraded report weighs as much as a hundred waiting tasks and one of these as much as five percent of load: a node with less load, a shorter queue or not degraded where the other is, and in nothing else worse, has the lower score |
| `ControlPlane.ControlPlaneRouter.Invite` | LiNeP/src/v0_2/control_plane.cpp:174-202 | in place: exactly the new router state and the invitation of the specification |
| `ControlPlane.ControlPlaneRouter.InviteAgain` | LiNeP/src/v0_2/control_plane.cpp:204-227 | in place: the same token again, for an INVITED node in the named epoch only, and no change to the lease |
| `ControlPlane.ControlPlaneRouter.IngestDatagram` | LiNeP/src/v0_2/control_plane.cpp:229-444 | in place: exactly the new router state and verdict of the specification the run theorems are about |
| `ControlPlane.ControlPlaneRouter.ValidateTcpSessionBinding` | LiNeP/src/v0_2/control_plane.cpp:484-497 | true exactly for an ACTIVE or DEGRADED node with that epoch and nonzero token, its trunk ready and its port known |
| `ControlPlane.ControlPlaneRouter.SweepStaleNodes` | LiNeP/src/v0_2/control_plane.cpp:499-525 | in place over all nodes: the swept router, and the number of nodes whose state changed |
| `ControlPlane.ControlPlaneRouter.SelectBestCandidate` | LiNeP/src/v0_2/control_plane.cpp:446-482 | a routable node of lowest score, if and only if one is routable; no routable one is less troubled |
| `Lease.OneLeasePerEpoch` | LiNeP/src/v0_2/lease.cpp:390-421 | over a network that loses, repeats and reorders: all invitations for one identity and epoch carry one token and two different such pairs never share one |
| `Lease.ValidBindingIsTheClients` | LiNeP/src/v0_2/lease.cpp:136-193 | a binding the router validates was acknowledged by that identity's client in that epoch and offered to it by this issuer |
| `Lease.ClientAgreesWithRouter` | LiNeP/src/v0_2/lease.cpp:113-193 | a lease a client holds is the one the router holds for it, same token and same epoch |
| `Lease.HeldLeaseValidatesExactly` | LiNeP/src/v0_2/lease.cpp:136-171 | over every run: what a client that holds a lease presents validates at the end exactly when one of its acknowledgements of that lease was delivered; that it counts itself active plays no part |
| `Lease.OnlyAcksValidate` | LiNeP/src/v0_2/lease.cpp:397-421 | nothing but the delivery of its acknowledgement makes a binding validate |
| `Lease.DeliveredAckLasts` | LiNeP/src/v0_2/lease.cpp:397-421 | after an acknowledgement was delivered anywhere in a run its binding validates at the end exactly when the node has not gone on to a higher epoch |
| `Lease.AckActivates` | LiNeP/src/v0_2/lease.cpp:136-171 | however late an acknowledgement arrives, if the node still waits in that epoch it becomes active and the acknowledged binding validates |
| `Lease.LeaseLasts` | LiNeP/src/v0_2/lease.cpp:113-193 | a validated binding goes on validating through any later steps until the client announces a higher epoch |
| `Lease.LeaseNeverChangesUnderAProbe` | LiNeP/src/v0_2/lease.cpp:157-169 | the client's branch for a lease that changed under an acknowledged identity is never taken in any reachable state |
| `Lease.ActiveWithoutALease` | LiNeP/src/v0_2/lease.cpp:155-163 | a run in which the client counts itself active although the router never saw its acknowledgement: silence after the probe does not mean active |
| `Lease.ReachableInv` | LiNeP/src/v0_2/lease.cpp:93-193 | every reachable state of clients, network and router satisfies the protocol invariant |
| `LeaseExchange.RenewalSucceeds` | LiNeP/src/v0_2/lease.cpp:93-193 | from every reachable state, whatever was lost before: an idle client that knows its trunk and renews ends up active with a lease of a higher epoch that validates, if hello, invitation and acknowledgement get through |
| `LeaseExchange.NumbersRise` | LiNeP/src/v0_2/lease.cpp:70-91 | whatever a client goes through, its datagrams bear its identity, their numbers strictly rise and their epochs never fall |
| `LeaseExchange.RequestsExactly` | LiNeP/src/v0_2/lease.cpp:113-134 | an idle client that knows its trunk and has or opens its socket starts over; in any other case a request changes nothing |
| `LeaseExchange.RenewsExactly` | LiNeP/src/v0_2/lease.cpp:188-193 | a renewal by an idle client goes to a higher epoch, the present time if that is higher, and then is a request |
| `LeaseExchange.BeatsExactly` | LiNeP/src/v0_2/lease.cpp:277-283 | a heartbeat goes out exactly from an idle, active, open client, under its identity, epoch and next number |
| `LeaseExchange.TakesExactly` | LiNeP/src/v0_2/lease.cpp:93-111 | a waiting client takes exactly an invitation for its identity and epoch with a token, which is then its lease |
| `LeaseExchange.ServesExactly` | LiNeP/src/v0_2/lease.cpp:397-421 | every hello uses up a token and nothing else does; only a hello is answered |
| `Lease.LeaseClient.constructor` | LiNeP/src/v0_2/lease.cpp:37-51 | identity, epoch and attempts as given, with random numbers, the clock and one attempt in place of zeros; a fresh client |
| `Lease.LeaseClient.WaitInvite` | LiNeP/src/v0_2/lease.cpp:93-111 | finds the first datagram of the window that is an invitation for this identity and epoch with a nonzero token |
| `Lease.LeaseClient.RequestInvite` | LiNeP/src/v0_2/lease.cpp:113-134 | the retry loop is exactly the path of the protocol client that its send outcomes and windows determine |
| `Lease.LeaseClient.AckLease` | LiNeP/src/v0_2/lease.cpp:136-171 | so is the acknowledge-and-probe loop; success means active with the same nonzero token |
| `Lease.LeaseClient.Acquire` | LiNeP/src/v0_2/lease.cpp:173-176 | both loops after one another |
| `Lease.LeaseClient.Renew` | LiNeP/src/v0_2/lease.cpp:188-193 | the epoch strictly rises, and the rest is the protocol client |
| `Lease.LeaseClient.SendHeartbeat` | LiNeP/src/v0_2/lease.cpp:277-283 | a heartbeat goes out exactly from an active open client |
| `Lease.LeaseIssuer.NextLeaseToken` | LiNeP/src/v0_2/lease.cpp:390-395 | every token is one more than the last |
| `Lease.LeaseIssuer.ServeOne` | LiNeP/src/v0_2/lease.cpp:397-421 | one turn of the loop in place is the issuer of the protocol |
| `Lease.LeaseIssuer.ServeLoop` | LiNeP/src/v0_2/lease.cpp:397-421 | the loop in place, over all arrivals, is the issuer of the protocol turn by turn |
| `Sha256Standard.InitialValue` | LiNeP-SL/src/sha256.cpp:29-39 | the initial value is that of FIPS 180-4 section 5.3.3: fractional parts of square roots of the first eight primes |
| `Sha256Standard.RoundConstants` | LiNeP-SL/src/sha256.cpp:8-17 | the 64 constants of the rounds are those of FIPS 180-4 section 4.2.2: fractional parts of cube roots of the first 64 primes |
| `Sha256Standard.PadLength` | LiNeP-SL/src/sha256.cpp:102-126 | the padded message of FIPS 180-4 section 5.1.1 has whole blocks |
| `Sha256Standard.XorTwice` | LiNeP-SL/src/v0_2/group_security.cpp:537-541 | combining a byte twice with the same byte gives it back |
| `Sha256Streams.LengthFieldIsExact` | LiNeP-SL/src/sha256.cpp:102-126 | for every message below 2^61 bytes the length field holds its bit length |
| `Sha256Streams.DigestReady` | LiNeP-SL/src/sha256.cpp:92-126 | when the padded message has been absorbed the chaining value is the digest of the standard |
| `SlSha256.Transform` | LiNeP-SL/src/sha256.cpp:41-90 | one block compressed in place is one application of the compression function of FIPS 180-4 section 6.2.2 |
| `SlSha256.Sha256Context.Update` | LiNeP-SL/src/sha256.cpp:92-100 | absorbs the bytes after all earlier ones, whatever the chunking |
| `SlSha256.Sha256Context.Final` | LiNeP-SL/src/sha256.cpp:102-126 | the digest of everything absorbed is the standard's |
| `SlSha256.Sha256Of` | LiNeP-SL/src/sha256.cpp:128-135 | the one-shot digest is the standard's |
| `SlSha256.HmacSha256` | LiNeP-SL/src/sha256.cpp:137-177 | the code is that of section 2 of RFC 2104 for every key length |
| `CoreSha256.Transform` | LiNeP/src/core/sha256.cpp:29-69 | one block compressed in place is one application of the compression function of FIPS 180-4 section 6.2.2 |
| `CoreSha256.Sha256Context.Update` | LiNeP/src/core/sha256.cpp:84-94 | absorbs the bytes after all earlier ones, whatever the chunking |
| `CoreSha256.Sha256Context.CloseMessage` | LiNeP/src/core/sha256.cpp:96-115 | marker and zeros in the buffer, with an extra block when the length would not fit, are the standard's padding up to the length |
| `CoreSha256.Sha256Context.Final` | LiNeP/src/core/sha256.cpp:96-130 | the digest of everything absorbed is the standard's, hence equal to the other implementation's |
| `CoreSha256.HmacSha256` | LiNeP/src/core/sha256.cpp:132-168 | the code is that of section 2 of RFC 2104 for every key length, hence equal to the other implementation's |
| `ReplayWindow.RunsAgree` | LiNeP-SL/src/v0_2/replay_window.cpp:5-87 | after any operations the bitmap stands for the set of numbers accepted since the last reset |
| `ReplayWindow.UpdateAgrees` | LiNeP-SL/src/v0_2/replay_window.cpp:32-73 | one update of the two-word bitmap is one update of the set, with the same verdict |
| `ReplayWindow.NeverAcceptedTwice` | LiNeP-SL/src/v0_2/replay_window.cpp:5-87 | no number is accepted twice without a reset in between |
| `ReplayWindow.AcceptsExactlyNewInWindow` | LiNeP-SL/src/v0_2/replay_window.cpp:5-30 | a number is accepted exactly when it is nonzero, not accepted since the last reset and above the highest accepted one minus 128 |
| `ReplayWindow.SlidingReplayWindow.CheckSeq` | LiNeP-SL/src/v0_2/replay_window.cpp:5-30 | in place: the verdict of the specification, and nothing changes |
| `ReplayWindow.SlidingReplayWindow.UpdateSeq` | LiNeP-SL/src/v0_2/replay_window.cpp:32-73 | in place: verdict and new bitmap of the specification, word shifts included |
| `ReplayWindow.SlidingReplayWindow.CheckAndUpdate` | LiNeP-SL/src/v0_2/replay_window.cpp:75-81 | in place: the same as an update |
| `ReplayWindow.SlidingReplayWindow.Clear` | LiNeP-SL/src/v0_2/replay_window.cpp:83-87 | the empty window |
| `ReplayWindow.AcceptedPositionsIncrease` | LiNeP-SL/src/v0_2/replay_window.cpp:89-128 | accepted stream positions strictly increase by event, then by fragment, and a new event with fragments starts at fragment zero |
| `ReplayWindow.AdvancesExactly` | LiNeP-SL/src/v0_2/replay_window.cpp:89-128 | a stream position is accepted exactly if it has an event number, every position accepted before precedes it, and it is a later fragment only of an event already begun |
| `ReplayWindow.MonotonicStreamTracker.CheckAndAdvance` | LiNeP-SL/src/v0_2/replay_window.cpp:89-128 | in place: verdict and new position of the specification |
| `Wire.ReadBack` | LiNeP/src/v0_2/envelopes.cpp:9-142 | for every layout, whatever fits is read back exactly as written and nothing behind it is touched |
| `Wire.WriteBack` | LiNeP/src/v0_2/envelopes.cpp:9-142 | for every layout, whatever is read fits, and writing it gives back exactly the bytes it was read from |
| `Wire.TextSurvivesExactlyWhenItFits` | LiNeP/src/v0_2/envelopes.cpp:45-59 | a text survives its length prefix exactly when its length fits it |
| `Wire.WritesApart` | LiNeP/src/v0_2/envelopes.cpp:9-142 | for every layout, two values that are written alike are equal and end at the same place |
| `Buffers.Buffer.PutWord` | LiNeP/src/v0_2/envelopes.cpp:11-43 | the bytes pushed are the little-endian bytes of the number |
| `Buffers.Buffer.PutText` | LiNeP/src/v0_2/envelopes.cpp:45-59 | length prefix and text, both cut to what the prefix can hold |
| `Buffers.Buffer.PutTree` | LiNeP/src/v0_2/envelopes.cpp:363-408 | appending field by field and item by item writes exactly the layout |
| `Buffers.BufferReader.ReadWord` | LiNeP/src/v0_2/envelopes.cpp:66-116 | the number at the offset and the offset behind it, or a refusal exactly when the bytes run short |
| `Buffers.BufferReader.ReadText` | LiNeP/src/v0_2/envelopes.cpp:118-134 | a text behind its length prefix, or a refusal exactly when the bytes run short |
| `Buffers.BufferReader.ReadTree` | LiNeP/src/v0_2/envelopes.cpp:61-142 | moving through the buffer field by field reads exactly what the layout says, and refuses exactly when it does |
| `Buffers.BufferReader.ReadItems` | LiNeP/src/v0_2/envelopes.cpp:485-493 | the counted loop reads exactly the list of the layout |
| `Frames.HeaderReadBack` | LiNeP/src/v0_2/envelopes.cpp:146-173 | a header comes back from its 32 bytes, whatever follows |
| `Frames.HeaderWriteBack` | LiNeP/src/v0_2/envelopes.cpp:146-173 | a decoded header writes back the 32 bytes it came from |
| `Frames.ExtensionReadBack` | LiNeP/src/v0_2/envelopes.cpp:175-193 | an extension comes back from its 24 bytes, whatever follows |
| `Frames.ExtensionWriteBack` | LiNeP/src/v0_2/envelopes.cpp:175-193 | a decoded extension writes back the 24 bytes it came from |
| `Frames.MacInputIsInjective` | LiNeP/src/v0_2/envelopes.cpp:195-250 | frames with the same code input agree in header, number, key, binding, direction and payload |
| `Frames.SignedFrameVerifies` | LiNeP/src/v0_2/envelopes.cpp:267-347 | a signed frame verifies under the same binding, direction and key, carries its number and key, and keeps header (but the flag) and payload |
| `Frames.InputDeterminesFrame` | LiNeP/src/v0_2/envelopes.cpp:310-347 | two frames that verify with the same input and key are the same bytes, for the same binding and direction |
| `Frames.OpenFrame` | LiNeP/src/v0_2/envelopes.cpp:429-450 | the frame the encoders build opens to its stream and payload |
| `Frames.OpenSigned` | LiNeP/src/v0_2/envelopes.cpp:267-308 | a frame opens to the same stream and payload before and after the extension is spliced in |
| `Frames.OpenOverlong` | LiNeP/src/v0_2/envelopes.cpp:409-426 | a payload too long for the length field comes back shorter than it was |
| `FrameBytes.HeaderLayout` | LiNeP/src/v0_2/envelopes.cpp:146-156 | a header is these 32 bytes in this order: magic, version, kind, flags, request, execution, output, length |
| `FrameBytes.ExtensionLayout` | LiNeP/src/v0_2/envelopes.cpp:175-180 | the extension is number, key, two zeros and the code |
| `FrameBytes.CodeLayout` | LiNeP/src/v0_2/envelopes.cpp:195-250 | the code is the first half of the HMAC over header, extension, binding, direction with three zeros, and payload; zero without a key |
| `FrameBytes.OpensExactly` | LiNeP/src/v0_2/envelopes.cpp:429-450 | a frame opens exactly if it has the magic, major version 0, the kind, and as many bytes behind header and extension as its length bytes say; its payload is those bytes and its stream what the header bytes say |
| `FrameBytes.VerifiesExactly` | LiNeP/src/v0_2/envelopes.cpp:267-347 | under a key, a frame verifies with a number other than zero exactly if it is what signing makes of some frame with that number and key |
| `FrameBytes.SignsExactly` | LiNeP/src/v0_2/envelopes.cpp:267-308 | a frame is signed exactly if its length is the one it announces, a key is given and the number is not zero |
| `OptionOrder.SortOrders` | LiNeP/src/v0_2/envelopes.cpp:394-396 | sorting keeps the options and puts them in key order |
| `OptionOrder.DuplicatesAreFound` | LiNeP/src/v0_2/envelopes.cpp:396-401 | the check of equal neighbours after sorting finds exactly the lists with a repeated key |
| `Requests.RoundTrip` | LiNeP/src/v0_2/envelopes.cpp:363-517 | decode after encode gives the request with its options in key order, before and after signing |
| `Requests.RoundTripsExactly` | LiNeP/src/v0_2/envelopes.cpp:363-517 | an encoded request comes back exactly when its texts fit their prefixes and its payload fits the frame |
| `Requests.ParsedFits` | LiNeP/src/v0_2/envelopes.cpp:429-517 | what decodes carries only texts that fit and would be written in as many bytes |
| `Events.ControlRoundTrip` | LiNeP/src/v0_2/envelopes.cpp:693-758 | a control comes back, before and after signing, exactly when its reason fits |
| `Events.ControlIsCanonical` | LiNeP/src/v0_2/envelopes.cpp:693-758 | a control payload that parses is the one its control is written as |
| `Events.EventRoundTrip` | LiNeP/src/v0_2/envelopes.cpp:519-691 | an event comes back, before and after signing, exactly when its texts fit, its counts are within the decoder's limits and its payload fits the frame |
| `Events.ParsedEventFits` | LiNeP/src/v0_2/envelopes.cpp:587-691 | an event payload that parses is exactly the one its event is written as |
| `Capabilities.RoundTrip` | LiNeP/src/v0_2/envelopes.cpp:760-990 | capabilities come back, before and after signing: the older layout is never mistaken for the present one |
| `Capabilities.RoundTripsExactly` | LiNeP/src/v0_2/envelopes.cpp:760-990 | they come back exactly when their texts and lists and the whole payload fit and their decision models are valid and not too many |
| `Capabilities.ParsedFits` | LiNeP/src/v0_2/envelopes.cpp:848-954 | whatever decodes, in either layout, holds only what fits and only valid decision models |
| `EnvelopeOutcomes.RequestsEncodeExactly` | LiNeP/src/v0_2/envelopes.cpp:363-427 | a request is encoded exactly if it names request, execution, profile and model, and its options list at most 65535 stops and extras and no extra twice |
| `EnvelopeOutcomes.RequestsPromise` | LiNeP/src/v0_2/envelopes.cpp:429-517 | a decoded request names request, execution, profile and model, with its extra options in strict key order, and without options it has the defaults |
| `EnvelopeOutcomes.EventsExactly` | LiNeP/src/v0_2/envelopes.cpp:519-691 | an event is encoded exactly if it is of a stream with a number or of the connection and carries the result of its kind; every decoded one does, within the limits on counts |
| `EnvelopeOutcomes.ControlsExactly` | LiNeP/src/v0_2/envelopes.cpp:693-758 | a control is encoded exactly if it names request, execution and kind, and every decoded one does |
| `EnvelopeOutcomes.LimitsExactly` | LiNeP/src/v0_2/envelopes.cpp:587-691 | a meaningful event stays within the decoder's limits exactly with at most 65536 values or 1000 detections |
| `EnvelopeOutcomes.BothLayoutsDecode` | LiNeP/src/v0_2/envelopes.cpp:956-990 | a capabilities frame decodes exactly if its payload is of the present layout or the older one, and for the older only if it is not of the present |
| `Codecs.PutHeader` | LiNeP/src/v0_2/envelopes.cpp:146-156 | in place: exactly the 32 bytes of the layout |
| `Codecs.ReadHeader` | LiNeP/src/v0_2/envelopes.cpp:158-173 | in place: exactly the header of the layout, or none exactly when fewer than 32 bytes are there |
| `Codecs.ReadExtension` | LiNeP/src/v0_2/envelopes.cpp:182-193 | in place: exactly the extension of the layout; a nonzero reserved word is refused |
| `Codecs.ComputeMac` | LiNeP/src/v0_2/envelopes.cpp:195-250 | the input is assembled in the source's order and the code is the first 16 bytes of the HMAC over it, all zero without a key |
| `Codecs.SignEnvelopeBuffer` | LiNeP/src/v0_2/envelopes.cpp:267-308 | overwriting the header and splicing 24 bytes in behind it gives exactly the signed frame, and a refused buffer is left as it was |
| `Codecs.VerifyEnvelopeBuffer` | LiNeP/src/v0_2/envelopes.cpp:310-347 | accepts exactly the frames whose size, flag, reserved word and code are right |
| `Codecs.EncodeRequest` | LiNeP/src/v0_2/envelopes.cpp:363-427 | in place: exactly the request frame, or none where the source refuses |
| `Codecs.RepeatsNeighbour` | LiNeP/src/v0_2/envelopes.cpp:397-401 | the loop over neighbours of sorted options says exactly whether the strict order fails |
| `Codecs.DecodeRequest` | LiNeP/src/v0_2/envelopes.cpp:429-517 | in place: exactly the request the specification decodes |
| `Codecs.EncodeEvent` | LiNeP/src/v0_2/envelopes.cpp:519-585 | in place: exactly the event frame |
| `Codecs.DecodeEvent` | LiNeP/src/v0_2/envelopes.cpp:587-691 | in place: exactly the event the specification decodes |
| `Codecs.EncodeControl` | LiNeP/src/v0_2/envelopes.cpp:693-721 | in place: exactly the control frame |
| `Codecs.DecodeControl` | LiNeP/src/v0_2/envelopes.cpp:723-758 | in place: exactly the control the specification decodes |
| `Codecs.EncodeCapabilities` | LiNeP/src/v0_2/envelopes.cpp:760-844 | in place: exactly the capabilities frame, with its two optional lists |
| `Codecs.DecodeCapabilitiesPayload` | LiNeP/src/v0_2/envelopes.cpp:848-952 | in place: one layout, lists read while bytes remain |
| `Codecs.DecodeCapabilities` | LiNeP/src/v0_2/envelopes.cpp:956-990 | in place: the present layout, and the older one only if that fails |
| `SessionBinds.RoundTripsExactly` | LiNeP/src/v0_2/envelopes.cpp:992-1087 | a valid bind comes back from its frame exactly when the key it names is that of its extension, or the default without one |
| `SessionBinds.EncodesBackExactly` | LiNeP/src/v0_2/envelopes.cpp:992-1087 | a frame that decodes is the one its bind encodes to exactly when its minor version, which the decoder does not look at, is the encoder's |
| `SessionBinds.BindsExactly` | LiNeP/src/v0_2/envelopes.cpp:992-1087 | a bind is encoded exactly if it names node, runtime and token, and every decoded one does |
| `SessionBinds.AnotherVersionDecodes` | LiNeP/src/v0_2/envelopes.cpp:1033-1087 | a concrete frame of version 0.3 that decodes, to a bind that encodes to another frame |
| `SessionBinds.EncodeSessionBind` | LiNeP/src/v0_2/envelopes.cpp:992-1031 | in place: exactly the bind frame |
| `SessionBinds.DecodeSessionBind` | LiNeP/src/v0_2/envelopes.cpp:1033-1087 | in place: exactly the bind the specification decodes, from a frame of exactly its size |
| `Registration.DecodesBack` | LiNeP/src/v0_2/registration.cpp:105-168 | whenever an envelope encodes, its bytes decode to it again: operation, slots, status, reason, nested capabilities and every extension |
| `Registration.DecodesBackSigned` | LiNeP/src/v0_2/registration.cpp:133-168 | so they do after the frame was signed |
| `Registration.EncodesBack` | LiNeP/src/v0_2/registration.cpp:105-168 | every unsigned frame that decodes is the one frame its envelope encodes to, nested capabilities frame and ordered extensions included |
| `Registration.DecodeIsInjective` | LiNeP/src/v0_2/registration.cpp:133-168 | two unsigned frames that decode alike are the same bytes |
| `Registration.ValidSurvives` | LiNeP/src/v0_2/registration.cpp:28-102 | a valid registration announces only capabilities that survive their own frame |
| `EnvelopeOutcomes.RegistrationsExactly` | LiNeP/src/v0_2/registration.cpp:28-168 | an envelope is encoded exactly if it says what its operation may say, its extensions are in order and its body is not too long; and a frame decodes only to envelopes that say what they may |
| `EnvelopeOutcomes.DescriptorsExactly` | LiNeP/src/v0_2/registration.cpp:38-101 | a registration may announce models and profiles, each once, spaces, vision and decision models only for models it has, the latter two exactly if their profile is announced and once a model, all of bounded size |
| `EnvelopeOutcomes.RegistrationFramesExactly` | LiNeP/src/v0_2/registration.cpp:105-168 | an unsigned frame decodes exactly if it is the encoding of some envelope |
| `AnnouncedSizes.PayloadSize` | LiNeP/src/v0_2/registration.cpp:47-92 | the written capabilities take 19 bytes, one for each profile, what the size check adds up for models and spaces, and for the two lists at the end, when they are written, two more than it adds up |
| `AnnouncedSizes.ValidCapabilitiesAreSmall` | LiNeP/src/v0_2/registration.cpp:28-102 | capabilities that pass the size check take less than 65536 bytes with their header, and at most 60 more than it adds up |
| `RegistrationCodec.PutField` | LiNeP/src/v0_2/registration.cpp:18-21 | tag, length and value in place |
| `RegistrationCodec.EncodeRegistration` | LiNeP/src/v0_2/registration.cpp:105-131 | in place, with the size looked at after every extension: exactly the frame of the specification, or none |
| `RegistrationCodec.PutExtensions` | LiNeP/src/v0_2/registration.cpp:120-127 | the loop over extensions refuses exactly where order, size or total length fail |
| `RegistrationCodec.ReadWholeFrame` | LiNeP/src/v0_2/registration.cpp:22-27 | accepts exactly frames of their announced length, of this version and without unknown flags |
| `RegistrationCodec.DecodeFields` | LiNeP/src/v0_2/registration.cpp:138-167 | one pass with position, previous tag and the set of seen tags comes to exactly what parsing, ordering and taking the fields one after the other does |
| `RegistrationCodec.TakeField` | LiNeP/src/v0_2/registration.cpp:145-162 | one field taken in, with the nested frame re-encoded and compared |
| `RegistrationValidity.CheckSpaces` | LiNeP/src/v0_2/registration.cpp:50-59 | the loop accepts exactly lists of valid spaces and adds up their bytes |
| `RegistrationValidity.CheckVision` | LiNeP/src/v0_2/registration.cpp:63-78 | the loop with its set of names accepts exactly valid vision models with distinct names, and adds up bytes and label bytes |
| `RegistrationValidity.CheckDecisions` | LiNeP/src/v0_2/registration.cpp:82-91 | the loop with its set of names accepts exactly valid, advertised decision models with distinct names, and adds up their bytes |
| `RegistrationValidity.CheckModels` | LiNeP/src/v0_2/registration.cpp:94-95 | the loop accepts exactly nonempty, bounded, distinct model names |
| `RegistrationValidity.CheckProfiles` | LiNeP/src/v0_2/registration.cpp:96-100 | the loop accepts exactly known, distinct profiles |
| `RegistrationValidity.CheckEnvelope` | LiNeP/src/v0_2/registration.cpp:28-102 | in place: true exactly for valid envelopes of each operation |
| `RegistrationCodec.DecodeRegistration` | LiNeP/src/v0_2/registration.cpp:133-168 | in place: exactly the envelope the specification decodes |
| `RegistrationSession.RegisteredMeansAuthorized` | LiNeP/src/v0_2/registration.cpp:170-251 | in every run a link that passes for registered is bound to the bind in force, and the capabilities it admits by are valid and were authorized for that bind |
| `RegistrationSession.RegistrationIsOfThisBinding` | LiNeP/src/v0_2/registration.cpp:170-191 | in every run going stale or re-binding, even to the same bind, undoes a registration until a registration is accepted in the binding generation in force; the one accepted may be the old frame again |
| `RegistrationSession.OldRegistrationRegistersAgain` | LiNeP/src/v0_2/registration.cpp:170-251 | the frame that registered the worker right after an authenticated bind registers it again, byte for byte, once that bind went stale and was repeated |
| `RegistrationSession.AdmittedExactly` | LiNeP/src/v0_2/registration.cpp:253-266 | a request goes out exactly when the link is registered and open, not draining, has a free slot, offers profile and model, and the session takes it |
| `RegistrationSession.StreamsStayWithinSlots` | LiNeP/src/v0_2/registration.cpp:253-268 | in every run the live streams never outnumber the slots the worker announced at its best, and a closed link has none |
| `RegistrationSession.ClosedForGood` | LiNeP/src/v0_2/registration.cpp:192-203 | a closed link stays closed, refuses every frame in both directions, and never has a live stream again |
| `RegistrationSession.EffectsAreAuthenticated` | LiNeP/src/v0_2/registration.cpp:198-213 | on an authenticated connection a worker frame that is not refused carried the next number and a valid code for this bind and direction |
| `RegistrationSession.SendAddsWithinSlots` | LiNeP/src/v0_2/registration.cpp:253-268 | a frame to the worker leaves no more live streams than before or than the announced slots, and nothing on a closed link |
| `RegistrationEndpoint.RuntimeRegistrationSession.SynchronizeBinding` | LiNeP/src/v0_2/registration.cpp:170-178 | in place: forgets the registration exactly when state, bind or generation moved |
| `RegistrationEndpoint.RuntimeRegistrationSession.CloseLink` | LiNeP/src/v0_2/registration.cpp:192-196 | in place: closed, not registered, every live stream failed |
| `RegistrationEndpoint.RuntimeRegistrationSession.ReceiveWorkerFrame` | LiNeP/src/v0_2/registration.cpp:198-251 | in place, on the session manager's own fields: exactly link, answer and reply status of the specification |
| `RegistrationEndpoint.RuntimeRegistrationSession.ReceiveLifecycle` | LiNeP/src/v0_2/registration.cpp:210-230 | in place: registration, draining, capacity and deregistration as specified |
| `RegistrationEndpoint.RuntimeRegistrationSession.ReceiveEvent` | LiNeP/src/v0_2/registration.cpp:232-235 | in place: an event is dispatched or closes the link |
| `RegistrationEndpoint.RuntimeRegistrationSession.ReceiveControl` | LiNeP/src/v0_2/registration.cpp:236-240 | in place: a window update is processed, anything else closes the link |
| `RegistrationEndpoint.RuntimeRegistrationSession.ReceiveCapabilities` | LiNeP/src/v0_2/registration.cpp:241-248 | in place: new capabilities are taken only if valid and authorized |
| `RegistrationEndpoint.RuntimeRegistrationSession.SendRouterFrame` | LiNeP/src/v0_2/registration.cpp:253-278 | in place: exactly link and answer of the specification |
| `RegistrationEndpoint.RuntimeRegistrationSession.SendRequest` | LiNeP/src/v0_2/registration.cpp:257-266 | in place: admission as specified |
| `RegistrationEndpoint.RuntimeRegistrationSession.SendControl` | LiNeP/src/v0_2/registration.cpp:267-272 | in place: a cancellation is processed, anything else closes the link |
| `RegistrationHistory.ReceivesExactly` | LiNeP/src/v0_2/registration.cpp:198-251 | a worker frame is taken exactly if it passes authentication and the link is ready for it: a first authorized registration, news of a registered link, its end when no stream is live, events and window updates its streams take, capabilities it is allowed; every other refusal but an unbound link and an unauthorized registration closes the link and fails its streams |
| `RegistrationHistory.RegistrationIsAsAnnounced` | LiNeP/src/v0_2/registration.cpp:170-251 | in every run the slots and capabilities of a registered link are those the worker announced last since it registered, it is draining exactly if the worker said so since, and it has not left; an unregistered open link has none |
| `RegistrationHistory.SendsExactly` | LiNeP/src/v0_2/registration.cpp:253-278 | on a registered link a frame that is not a request, a cancel or a query for capabilities closes it, and nothing else sent does; a cancel does what it does to its stream |
| `RegistrationHistory.RequestsAreRefusedExactly` | LiNeP/src/v0_2/registration.cpp:257-266 | a request is refused while draining or without a free slot, else if it is not offered, and else does what the session says |
| `SessionStreams.SessionsStaySound` | LiNeP/src/v0_2/session.cpp:6-335 | in every session whose counters do not wrap: acknowledged <= produced, the difference within the buffer limit, none outstanding on a terminal stream, and never more live streams than the in-flight limit |
| `SessionStreams.EventsAreOrdered` | LiNeP/src/v0_2/session.cpp:63-132 | on every stream accepted event numbers strictly increase and no event follows the terminal one, wrap or no wrap |
| `SessionStreams.TerminalAbsorbs` | LiNeP/include/linep/v0_2/lifecycle.hpp:25-60 | no path of transitions leads out of the terminal state |
| `SessionStreams.RefusalChangesNothing` | LiNeP/src/v0_2/session.cpp:6-278 | a refused operation leaves every stream as it was |
| `SessionStreams.DrainFallsExactlyWhenItWraps` | LiNeP/src/v0_2/session.cpp:152-164 | a drain moves the acknowledged offset backwards exactly when its 64-bit sum wraps to an offset already produced |
| `SessionStreams.ADrainThatFalls` | LiNeP/src/v0_2/session.cpp:152-164 | such a drain after three operations of any session that admits a request and a byte |
| `SessionStreams.EventKeepsOffsetsExactly` | LiNeP/src/v0_2/session.cpp:100-131 | an accepted non-terminal event keeps acknowledged <= produced exactly when the produced count does not wrap, or the buffer sum wraps with it |
| `SessionStreams.AdmissionAddsOne` | LiNeP/src/v0_2/session.cpp:39-60 | an admitted request adds exactly one live stream and stays within the limit |
| `StreamHistories.HistoryTellsState` | LiNeP/src/v0_2/session.cpp:6-335 | in every session: a stream has ended exactly if its terminal event was accepted or all streams were ended while it was there; else it is to be cancelled exactly if that was asked for; else it is started exactly if an event of it was accepted |
| `StreamHistories.HistoryTellsOutcome` | LiNeP/src/v0_2/session.cpp:89-123 | in every session an ended stream has the outcome that the first operation that ended it announced, and no other stream has one |
| `StreamHistories.BytesAreConserved` | LiNeP/src/v0_2/session.cpp:89-131 | in every session, wrap or no wrap, the bytes a stream has produced are those of the events accepted for it, modulo 2^64 |
| `StreamHistories.AdmitsExactly` | LiNeP/src/v0_2/session.cpp:6-61 | a request is admitted exactly if it is valid, its stream new and the limit not reached, and starts a stream with all its credit; each refusal has its code |
| `StreamHistories.DispatchesExactly` | LiNeP/src/v0_2/session.cpp:63-132 | an event is accepted exactly if it is valid, its stream is live, its number is above the last accepted one and its bytes fit the buffer; each refusal has its code |
| `StreamHistories.CreditMovesExactly` | LiNeP/src/v0_2/session.cpp:89-164 | an acknowledged offset or window update within what was produced raises the offset to it and never lowers it, a drain without wrap adds to it, an end settles it, and nothing else moves it |
| `StreamHistories.CancelCancels` | LiNeP/src/v0_2/session.cpp:166-184 | after a cancel every live stream of the execution is to be cancelled, and nothing else about it or about any other stream has changed; the count is that of the changed streams |
| `StreamHistories.ControlCancelsExactly` | LiNeP/src/v0_2/session.cpp:186-278 | a cancelling control is taken exactly if its stream is there, live and not being cancelled yet |
| `StreamHistories.TransitionsGoForward` | LiNeP/include/linep/v0_2/lifecycle.hpp:25-46 | the life cycle allows exactly the next state, or at once cancellation or the end |
| `StreamHistories.OperationsFollowTheCycle` | LiNeP/include/linep/v0_2/lifecycle.hpp:25-60 | every operation of a session moves a stream only as the life cycle allows |
| `SessionChannel.AcceptedWereSigned` | LiNeP/src/v0_2/session.cpp:347-647 | in every run, over any binds of both ends and any loss, repetition, reordering, alteration or invention of frames: each accepted frame was signed under the binding then in force, in this direction, with the number it was accepted as and a key the receiver knows |
| `SessionChannel.AcceptedExactly` | LiNeP/src/v0_2/session.cpp:472-580 | a frame is accepted exactly if it was signed under the binding in force, in this direction, with the number the receiver waits for and a key it knows - by whichever numbering, so an old frame under the same binding too |
| `SessionChannel.AcceptedIsAPrefix` | LiNeP/src/v0_2/session.cpp:347-647 | in every run: what was accepted between two restarts is, without gap and in order, what was signed behind the first frame of one numbering, if no other numbering under that binding holds an acceptable frame numbered 2 or more; every numbering counts from 1 and none uses 2^32 - 1 |
| `SessionChannel.NewBindingsDeliverOnce` | LiNeP/src/v0_2/session.cpp:347-647 | a run in which no restarting bind, at either end, repeats an earlier binding delivers in order, without gap, and nothing twice |
| `SessionChannel.DeliversInOrderExactly` | LiNeP/src/v0_2/session.cpp:425-647 | right after both ends took a bind under a shared key: every run up to the next restart delivers in order and without gap what was sent after it, exactly if no frame numbered 2 or more was signed before under this binding, in this direction and with a key the receiver knows |
| `SessionChannel.OldFrameIsHeard` | LiNeP/src/v0_2/session.cpp:425-647 | each such earlier frame, whatever its number, is accepted in place of a new one in some run |
| `SessionChannel.RebindReplays` | LiNeP/src/v0_2/session.cpp:347-441 | wherever a frame was heard under a bind, it is heard again once both ends went stale and took that bind once more, though nothing is sent in between |
| `SessionChannel.ARunThatAcceptsTwice` | LiNeP/src/v0_2/session.cpp:347-647 | a whole run from a new connection in which one frame is accepted twice |
| `SessionChannel.ActKeepsInv` | LiNeP/src/v0_2/session.cpp:347-647 | every step of either end, of the network and of other signers keeps the invariant that ties counters, numberings and what was heard |
| `SessionChannel.BindingStarts` | LiNeP/src/v0_2/session.cpp:425-441 | when both ends take a bind that is new to them, whatever happened before, both count from the start under its binding |
| `SessionChannel.BindRestarts` | LiNeP/src/v0_2/session.cpp:359-441 | an authenticated bind with a known key and a valid lease starts the numbering over exactly if the end is unbound, or has that identity and is stale or bound by another bind |
| `SessionChannel.NextNumberIsAccepted` | LiNeP/src/v0_2/session.cpp:472-580 | a frame with the number the receiver waits for is accepted whenever it comes, if it was signed under the binding with a key the receiver knows |
| `SessionChannel.SignedFramesMayArrive` | LiNeP/src/v0_2/session.cpp:582-647 | the assumption of unforgeability lets everything signed under the binding in force arrive, at any time and as often as the network likes |
| `SessionChannel.HonestRunsAccept` | LiNeP/src/v0_2/session.cpp:359-647 | on a new connection under any nonempty key both ends share, once they took the bind, any list of envelopes sent behind the first frame is accepted in full in some run |
| `SessionAuth.AcceptedAgainAfterRebind` | LiNeP/src/v0_2/session.cpp:425-580 | what an end accepted as its first frame is refused when it comes again, and accepted again after any later bind that restarts the numbering under the same binding |
| `SessionAuth.StaleRebindReplays` | LiNeP/src/v0_2/session.cpp:347-441 | the bind in force is such a bind once it went stale, while its lease still validates |
| `SessionAuth.InboundCounts` | LiNeP/src/v0_2/session.cpp:472-580 | a refused frame moves no counter; an accepted one moves only the inbound counter, by one, except at the very last number |
| `SessionAuth.IdentityIsForever` | LiNeP/src/v0_2/session.cpp:359-376 | once bound a connection keeps its identity through every re-bind |
| `SessionAuth.BoundMeansBound` | LiNeP/src/v0_2/session.cpp:359-441 | in every run a bound connection carries a valid bind, and authentication is on where it is required |
| `SessionAuth.NumberingRestartsExactlyOnNewBinds` | LiNeP/src/v0_2/session.cpp:425-441 | numbering and generation start over exactly when the bind is not the one in force |
| `SessionAuth.TakenExactly` | LiNeP/src/v0_2/session.cpp:359-441 | a bind is taken exactly if it is valid, keeps the identity, was not refused by the router, is authenticated where that is required, and then has number 1 and a known key; a refused one changes nothing |
| `SessionAuth.CurrentWasTaken` | LiNeP/src/v0_2/session.cpp:347-441 | in every run of binds and staleness a current connection was made so by a bind with its identity, epoch, token and key that was taken and that no router refused at that moment |
| `SessionAuth.KnownKeysExactly` | LiNeP/src/v0_2/session.cpp:545-562 | while a key is being replaced only the two that take part are known, else every key of the table |
| `SessionAuth.AcceptsExactly` | LiNeP/src/v0_2/session.cpp:472-580 | a frame is accepted exactly if it is a bind, or comes unsigned to an end without authentication, or has the number the end waits for, a key it knows, and verifies under that key for this binding and direction |
| `SessionAuth.SignsOutExactly` | LiNeP/src/v0_2/session.cpp:582-647 | an authenticated end sends the frame signed for its binding under its next number and uses that up, by the current key or else the fallback or any; it refuses, and keeps number and frame, when the frame is not whole, no key is there or its numbers are used up |
| `SessionLease.BoundMeansAcknowledged` | LiNeP/src/v0_2/session.cpp:371-383 | in every run in which the router is asked, whatever reaches the router in between, what a current connection is bound to is a lease of that node in that epoch that was offered to it and acknowledged by it |
| `SessionLease.TakenIsAcknowledged` | LiNeP/src/v0_2/session.cpp:371-441 | a bind the router does not validate is refused and changes nothing; one that is taken names an acknowledged lease |
| `SessionLease.AdmitsExactly` | LiNeP/src/v0_2/session.cpp:6-61 | a request is admitted exactly if it is valid, the connection is current where a lease is required, its stream is new and the limit is not reached |
| `SessionLease.AdmittedMeansAcknowledged` | LiNeP/src/v0_2/session.cpp:6-383 | where a lease is required and the router is asked, every request that is admitted comes over a connection whose lease its node had acknowledged in that epoch |
| `SessionManager.SessionManager.GetActiveStreamCount` | LiNeP/src/v0_2/session.cpp:280-289 | the number of streams that are not terminal |
| `SessionManager.SessionManager.SubmitRequest` | LiNeP/src/v0_2/session.cpp:6-61 | in place: exactly the new streams and answer of the specification |
| `SessionManager.SessionManager.DispatchEvent` | LiNeP/src/v0_2/session.cpp:63-132 | in place: exactly the new streams and answer of the specification |
| `SessionManager.SessionManager.AcknowledgeStreamOffset` | LiNeP/src/v0_2/session.cpp:134-150 | in place: exactly the new streams and answer of the specification |
| `SessionManager.SessionManager.AcknowledgeStreamDrain` | LiNeP/src/v0_2/session.cpp:152-164 | in place, with the 64-bit sum: exactly the new streams and answer of the specification |
| `SessionManager.SessionManager.Cancel` | LiNeP/src/v0_2/session.cpp:166-184 | the loop cancels exactly the live, not yet cancelled streams of the execution and counts them |
| `SessionManager.SessionManager.TerminateAllActiveStreams` | LiNeP/src/v0_2/session.cpp:324-335 | the loop ends exactly the live streams, counts them, and none stays live |
| `SessionManager.SessionManager.ProcessControlEnvelope` | LiNeP/src/v0_2/session.cpp:186-278 | in place, both scopes of the loops included: exactly the new streams and answer of the specification |
| `SessionManager.SessionManager.ProcessSessionBind` | LiNeP/src/v0_2/session.cpp:359-441 | in place, with the router asked: exactly the new binding, counters and answer of the specification |
| `SessionManager.SessionManager.MarkBindingStale` | LiNeP/src/v0_2/session.cpp:347-353 | a bound connection becomes stale, in a new generation |
| `SessionManager.SessionManager.VerifyInboundFrame` | LiNeP/src/v0_2/session.cpp:472-580 | in place: exactly the new counter and answer of the specification |
| `SessionManager.SessionManager.SignOutboundFrame` | LiNeP/src/v0_2/session.cpp:582-647 | in place: exactly the new counter, frame and answer of the specification |
| `Negotiation.NegotiateInOrder` | LiNeP-SL/src/v0_2/negotiation.cpp:106-159 | the loop over the preferred suites finds exactly the outcome that offers and policy determine, error statuses in their order |
| `Negotiation.NegotiationIsFair` | LiNeP-SL/src/v0_2/negotiation.cpp:106-159 | the result does not depend on who proposes; an accepted level is at least what both ends and the policy ask and at most what both can do |
| `Negotiation.RenegotiationAgrees` | LiNeP-SL/src/v0_2/session.cpp:33-49 | negotiating again under the level and suite of an accepted result, as the handshake does to register, gives the same result |
| `Negotiation.AcceptedHasTranscript` | LiNeP-SL/src/v0_2/negotiation.cpp:161-197 | every accepted result has a transcript |
| `Negotiation.TranscriptIsInjective` | LiNeP-SL/src/v0_2/negotiation.cpp:62-197 | the transcript determines both offers, nonces included, and the result |
| `Negotiation.NegotiatesExactly` | LiNeP-SL/src/v0_2/negotiation.cpp:106-159 | two offers and a policy are accepted exactly if all three are well formed and some suite both offer and the policy allows supports the level |
| `Negotiation.TranscribableExactly` | LiNeP-SL/src/v0_2/negotiation.cpp:161-197 | exactly the results that some negotiation of the two offers ends with have a transcript |
| `SessionRegistry.SessionsMoveForward` | LiNeP-SL/src/v0_2/session.cpp:21-130 | over any calls and clocks a session keeps parties, level, suite and transcript, changes its key only with a higher epoch, and once ended stays ended |
| `SessionRegistry.EndedSessionsNameNoSender` | LiNeP-SL/src/v0_2/session.cpp:102-160 | an expired, revoked or closed session never again names a sender |
| `SessionRegistry.OneKeyPerEpoch` | LiNeP-SL/src/v0_2/session.cpp:77-100 | two senders a session named with one epoch have one key, and epochs never fall |
| `SessionRegistry.RegisteredSessionsAreSound` | LiNeP-SL/src/v0_2/session.cpp:21-75 | every registered session lives within both credentials and has a suite that supports its level |
| `RegistryHistory.NamesExactly` | LiNeP-SL/src/v0_2/session.cpp:132-160 | in every run a session names a sender exactly if it was founded, nothing ended it, and at that time it is within the terms last agreed with both ends trusted; the sender is the initiator in the one direction and the responder in the other |
| `RegistryHistory.RecordsAreTold` | LiNeP-SL/src/v0_2/session.cpp:21-130 | in every run the record of a session is that of the proposal that founded it under the terms last agreed; it is active exactly if nothing ended it, and closed exactly if it was closed |
| `RegistryHistory.FoundsExactly` | LiNeP-SL/src/v0_2/session.cpp:21-75 | a session is founded exactly under a new number, by the result of the negotiation of its two offers, for two trusted ends that are those of the offers, and for no longer than either is trusted |
| `RegistryHistory.RotatesExactly` | LiNeP-SL/src/v0_2/session.cpp:77-100 | a rotation is accepted exactly for a session that names senders then, to a higher epoch and another key, for no longer than either end is trusted |
| `RegistryHistory.EndsExactly` | LiNeP-SL/src/v0_2/session.cpp:102-130 | revocation ends exactly what has not ended, closing exactly what was not closed, and a sweep exactly the sessions that are out of force |
| `SessionRegistry.SecuredSessions.EstablishSession` | LiNeP-SL/src/v0_2/session.cpp:21-75 | in place: exactly the new sessions and answer of the specification |
| `SessionRegistry.SecuredSessions.RotateKey` | LiNeP-SL/src/v0_2/session.cpp:77-100 | in place: exactly the new sessions and answer of the specification |
| `SessionRegistry.SecuredSessions.RevokeSession` | LiNeP-SL/src/v0_2/session.cpp:102-109 | in place: exactly the new sessions and answer of the specification |
| `SessionRegistry.SecuredSessions.CloseSession` | LiNeP-SL/src/v0_2/session.cpp:111-118 | in place: exactly the new sessions and answer of the specification |
| `SessionRegistry.SecuredSessions.ExpireSessions` | LiNeP-SL/src/v0_2/session.cpp:120-130 | the loop expires exactly the live sessions whose time has come, and counts them |
| `HandshakeMessages.ClientHelloBothWays` | LiNeP-SL/src/v0_2/sl2_handshake.cpp:134-176 | bytes decode to a client hello and signature if and only if these encode to the bytes |
| `HandshakeMessages.ServerHelloBothWays` | LiNeP-SL/src/v0_2/sl2_handshake.cpp:178-238 | so do a server hello, its result and its signature |
| `HandshakeMessages.FinishedBothWays` | LiNeP-SL/src/v0_2/sl2_handshake.cpp:240-276 | so do both finished messages |
| `HandshakeMessages.WrapBothWays` | LiNeP-SL/src/v0_2/sl2_handshake.cpp:278-322 | bytes unwrap to a payload other than the empty one exactly when it wraps to them and its length fits the length field |
| `HandshakeMessages.EmptyUnwrapsOnly` | LiNeP-SL/src/v0_2/sl2_handshake.cpp:278-322 | the empty payload unwraps from the bare header and nothing else, and wraps to nothing |
| `Handshake.HonestRunAgrees` | LiNeP-SL/src/v0_2/sl2_handshake.cpp:359-875 | an untampered run completes exactly when the offers negotiate, both verifiers accept a peer in order and the session number is nonzero and new; then both ends are active with equal hashes and keys and have registered the same session |
| `HandshakeAgreement.EqualHashesAgree` | LiNeP-SL/src/v0_2/sl2_handshake.cpp:340-875 | over any calls at two ends and any bytes between them: an active initiator and an active responder with equal last hashes absorbed the same messages, hold the same offers, result and keys and registered the same session, if no two of the strings hashed at the two ends share a digest |
| `HandshakeAgreement.DoFollows` | LiNeP-SL/src/v0_2/sl2_handshake.cpp:340-875 | after every call, made in any state, the hashes of an end are those of the messages it absorbed, and its offers, result and keys are those the messages say |
| `HandshakeAuthenticity.ClientHelloWasSigned` | LiNeP-SL/src/v0_2/sl2_handshake.cpp:624-791 | over any calls and any bytes, with unforgeable signatures and no digest collision: the client hello that a responder got past was signed by the holder of its public key in every field, ephemeral key included |
| `HandshakeAuthenticity.ServerHelloWasSigned` | LiNeP-SL/src/v0_2/sl2_handshake.cpp:445-556 | likewise the server hello an initiator got past, in every field, for this client hello and this negotiated result |
| `HandshakeAuthenticity.SameInputSameSigning` | LiNeP-SL/src/v0_2/sl2_handshake.cpp:689-694 | without collisions the signed string fixes role, hello and everything hashed before it |
| `HandshakeAuthenticity.HonestSignaturesAreNoForgeries` | LiNeP-SL/src/v0_2/sl2_handshake.cpp:359-443 | the assumption of unforgeability lets every honest signature through |
| `HandshakeAuthenticity.KeysDependOnSecret` | LiNeP-SL/src/v0_2/sl2_handshake.cpp:877-905 | two of the six keys of two ends are equal exactly if they are the same one of the six, of the same transcript and exchanged secret, unless two of the derivations behind them collide |
| `HandshakeOutcomes.FinishedAgrees` | LiNeP-SL/src/v0_2/sl2_handshake.cpp:558-875 | over any calls and any bytes: if the finished message an active responder took is the one an initiator sent, then, without collisions, both absorbed the same messages up to then and hold the same offers, result and keys |
| `HandshakeOutcomes.StartsExactly` | LiNeP-SL/src/v0_2/sl2_handshake.cpp:359-443 | a handshake starts exactly at an initiator that has not started, with valid local data |
| `HandshakeOutcomes.AnswersExactly` | LiNeP-SL/src/v0_2/sl2_handshake.cpp:624-791 | a client hello is answered exactly by a responder that has not answered, if it can be read, its offer negotiates, its signature verifies, the verifier accepts it and the keys can be exchanged |
| `HandshakeOutcomes.AcceptsExactly` | LiNeP-SL/src/v0_2/sl2_handshake.cpp:445-556 | a server hello is accepted exactly by an initiator that waits for it, if it can be read, its signature verifies over this transcript, the verifier accepts it and the keys can be exchanged |
| `HandshakeOutcomes.ClientFinishedExactly` | LiNeP-SL/src/v0_2/sl2_handshake.cpp:793-875 | the client's finished message is taken exactly if it is the code of the transcript under the initiator's finished key and the session can be registered |
| `HandshakeOutcomes.ServerFinishedExactly` | LiNeP-SL/src/v0_2/sl2_handshake.cpp:558-622 | the server's exactly if it is the code of its transcript under the responder's finished key and the session can be registered |
| `Handshake.FirstFlight` | LiNeP-SL/src/v0_2/sl2_handshake.cpp:359-443 | the client hello always exists and arrives as it was sent |
| `Handshake.SecondFlight` | LiNeP-SL/src/v0_2/sl2_handshake.cpp:624-791 | the responder answers exactly when negotiation and its verifier accept, and its hello arrives as sent |
| `Handshake.ThirdFlight` | LiNeP-SL/src/v0_2/sl2_handshake.cpp:445-556 | the initiator goes on exactly when its verifier accepts, and then has the responder's transcript and keys |
| `Handshake.LastFlights` | LiNeP-SL/src/v0_2/sl2_handshake.cpp:558-875 | the responder finishes exactly when it can register, then the initiator exactly when it can, and then they agree |
| `Handshake.RegistersExactly` | LiNeP-SL/src/v0_2/sl2_handshake.cpp:594-616 | an end registers exactly when the authenticated peer is in order and the session number is new: the second negotiation never stands in the way |
| `Handshake.CallsKeepTheirOrder` | LiNeP-SL/src/v0_2/sl2_handshake.cpp:340-875 | a call out of order fails; a failed call leaves a failed end without keys and secrets and an untouched registry; a successful one leads to the one next state |
| `Handshake.FailureIsForEver` | LiNeP-SL/src/v0_2/sl2_handshake.cpp:340-347 | an end that has failed, or is active and called again, is failed for ever and registers nothing more |
| `HandshakeSession.Sl2HandshakeSession.AbortSession` | LiNeP-SL/src/v0_2/sl2_handshake.cpp:340-347 | in place: keys and secrets wiped, state failed, nothing else changed |
| `HandshakeSession.Sl2HandshakeSession.InitiatorStart` | LiNeP-SL/src/v0_2/sl2_handshake.cpp:359-443 | in place: exactly the end and frame of the specification, or an aborted end |
| `HandshakeSession.Sl2HandshakeSession.InitiatorProcessServerHello` | LiNeP-SL/src/v0_2/sl2_handshake.cpp:445-556 | in place: exactly the end and frame of the specification, or an aborted end |
| `HandshakeSession.Sl2HandshakeSession.InitiatorProcessServerFinished` | LiNeP-SL/src/v0_2/sl2_handshake.cpp:558-622 | in place: exactly the end and registry of the specification, or an aborted end |
| `HandshakeSession.Sl2HandshakeSession.ResponderProcessClientHello` | LiNeP-SL/src/v0_2/sl2_handshake.cpp:624-791 | in place: exactly the end and frame of the specification, or an aborted end |
| `HandshakeSession.Sl2HandshakeSession.ResponderProcessClientFinished` | LiNeP-SL/src/v0_2/sl2_handshake.cpp:793-875 | in place: exactly the end, frame and registry of the specification, or an aborted end; the frame is left in the buffer also when the session then cannot be registered |
| `HandshakeSession.Sl2HandshakeSession.PrepareFinished` | LiNeP-SL/src/v0_2/sl2_handshake.cpp:817-849 | the client's finished message is checked and answered as specified, and the two hashes move on |
| `SlotSelection.StrictWeakOrder` | LiNeP/src/scheduler/score_engine.cpp:63-119 | the comparison by score and tie-break is a strict weak order |
| `SlotSelection.ScoreIsLinear` | LiNeP/src/scheduler/score_engine.cpp:27-61 | the score is the weighted sum of the capped measures, each with its sign |
| `SlotSelection.BeatsIsBetter` | LiNeP/src/scheduler/score_engine.cpp:27-119 | of two slots alike in all else, the one with less load or a shorter queue below the cap, lower latency, fewer errors or timeouts, not busy, not degraded, or more prefix affinity or throughput below the cap comes first |
| `SlotSelection.TiesDecide` | LiNeP/src/scheduler/score_engine.cpp:63-71 | at equal scores the shorter queue comes first, then the lower latency, then the one not used for longer |
| `SlotSelection.CandidatesAreUsable` | LiNeP/src/scheduler/score_engine.cpp:8-26 | a slot of another kind, not active, alive and ready, in error, loading, too hot, overloaded, with a full queue, silent for too long or for ever, or cooling down is no candidate |
| `SlotSelection.FirstIsUnbeaten` | LiNeP/src/scheduler/score_engine.cpp:91-133 | no candidate beats the slot chosen first |
| `SlotSelection.SelectBestSlots` | LiNeP/src/scheduler/score_engine.cpp:91-133 | eligible slots of the asked type, no two of one worker, best first, min(k, workers with an eligible slot) of them, and every eligible slot left out is no better than its worker's chosen one or than all k chosen |
| `SlotSelection.Collect` | LiNeP/src/scheduler/score_engine.cpp:104-113 | exactly the eligible slots of the asked type, each once |
| `SlotSelection.SortCandidates` | LiNeP/src/scheduler/score_engine.cpp:115-119 | the same candidates in an order the comparison allows |
| `SlotSelection.TakeFirstOfEachWorker` | LiNeP/src/scheduler/score_engine.cpp:121-132 | the walk over sorted candidates takes the first of each worker until k are taken |
| `GroupSecurity.AddedOk` | LiNeP-SL/src/v0_2/group_security.cpp:171-248 | an addition keeps the group in order, raises the epoch by one and makes the endpoint active |
| `GroupSecurity.RemovedOk` | LiNeP-SL/src/v0_2/group_security.cpp:250-314 | a removal keeps the group in order, raises the epoch by one, and leaves the endpoint inactive and without leaf secret |
| `GroupSecurity.RoleUpdatedOk` | LiNeP-SL/src/v0_2/group_security.cpp:316-359 | a role change keeps the group in order and its epoch |
| `GroupSecurity.RekeyedOk` | LiNeP-SL/src/v0_2/group_security.cpp:361-430 | a rekey keeps the group in order and raises the epoch by one |
| `GroupSecurity.ClosedOk` | LiNeP-SL/src/v0_2/group_security.cpp:432-446 | closing keeps the group in order and its epoch, zeroes the epoch secret and leaves no leaf secret and no ratchet |
| `GroupSecurity.CryptTwice` | LiNeP-SL/src/v0_2/group_security.cpp:530-543 | decrypting what was encrypted gives the text back, in both modes |
| `GroupSecurity.ProtectedMessageOpens` | LiNeP-SL/src/v0_2/group_security.cpp:475-713 | in any state of the same epoch a protected message opens to its payload exactly when its sender was never removed and added again and its number is new to the window |
| `GroupSecurity.AuthInputIsInjective` | LiNeP-SL/src/v0_2/group_security.cpp:58-86 | messages with the same tag input agree in group, epoch, sender, trust domain, subject, class, number, generation and body digest |
| `GroupSecurity.ReaddedMembersAreNotHeard` | LiNeP-SL/src/v0_2/group_security.cpp:475-631 | a member removed and added again is active and protects messages of every mode, class, payload and number, and each is refused as from a member that is not active |
| `GroupSecurity.ModeIsNotCovered` | LiNeP-SL/src/v0_2/group_security.cpp:58-86 | a message under another mode is judged the same and opens to what that mode makes of its body: the tag does not cover the mode |
| `GroupSecurity.OpensToItsPayloadExactly` | LiNeP-SL/src/v0_2/group_security.cpp:530-543 | a body protected under one mode opens under another to its payload exactly when both modes encrypt or neither does, or encryption leaves the payload as it is |
| `GroupProvider.GroupsStayOk` | LiNeP-SL/src/v0_2/group_security.cpp:96-446 | in every run, in a running group, each active endpoint is listed active once and exactly the active ones have a leaf secret and a ratchet |
| `GroupProvider.ChangeKeepsGroup` | LiNeP-SL/src/v0_2/group_security.cpp:171-591 | a successful operation raises the epoch by exactly one if it adds, removes or rekeys, and not at all otherwise |
| `GroupProvider.EpochsPinDownGroups` | LiNeP-SL/src/v0_2/group_security.cpp:171-591 | in every run epochs never fall, a closed group never runs again, and a group that still runs in an earlier epoch of the run has the same secrets and members, roles aside |
| `GroupProvider.MessagesOpenAllThroughTheirEpoch` | LiNeP-SL/src/v0_2/group_security.cpp:475-713 | over a whole run: a message protected at any step opens at the end to its payload, while the epoch lasts, exactly when its sender was never removed and added again and its number is new to the window |
| `GroupHistory.NeverReaddedExactly` | LiNeP-SL/src/v0_2/group_security.cpp:171-314 | in every run: once an endpoint was removed its first entry is never active again, and for an active endpoint the first entry is the active one exactly if it was never removed |
| `GroupHistory.MessagesOpenExactly` | LiNeP-SL/src/v0_2/group_security.cpp:475-713 | over a whole run: a message protected at any step opens at the end to its payload, while the epoch lasts, exactly when its sender had not been removed before that step and its number is new to the window |
| `GroupHistory.ARunNobodyHears` | LiNeP-SL/src/v0_2/group_security.cpp:494-631 | a concrete run: a member joins, leaves, joins again and speaks; its message exists and is refused |
| `GroupHistory.OpenedWasProtected` | LiNeP-SL/src/v0_2/group_security.cpp:593-713 | with unforgeable tags and no digest collisions, whatever opens at the end of a run is, but for its mode, a message its sender protected in it, with its class, number, generation, body and tag, and opens to that payload exactly when the modes agree on encryption or encryption leaves the payload as it is |
| `GroupHistory.SentMessagesAreTagged` | LiNeP-SL/src/v0_2/group_security.cpp:475-591 | the assumption of unforgeability lets every honest message through |
| `GroupRatchets.GenerationsRepeatExactly` | LiNeP-SL/src/v0_2/group_security.cpp:475-591 | in every run, two messages of one sender in one epoch have the same generation exactly if the turns of its ratchet from one to the other are a multiple of 2^32 |
| `GroupRatchets.StreamsRepeatExactly` | LiNeP-SL/src/v0_2/group_security.cpp:510-543 | two messages of one epoch have the same derivation input for key and key stream exactly if one sender protected both and a multiple of 2^32 turns lies between them |
| `GroupRatchets.RatchetCountsTurns` | LiNeP-SL/src/v0_2/group_security.cpp:510-511 | through an epoch a ratchet moves by one, modulo 2^32, for each call that finds its sender, even one that then fails |
| `GroupSecrets.KeysRepeatExactly` | LiNeP-SL/src/v0_2/group_security.cpp:475-591 | in the whole life of a group, through all its epochs, two messages share their key or their key stream exactly if one sender protected both in one epoch and a multiple of 2^32 turns lies between them, and no key is a key stream; without collisions among the derivations they go back to |
| `GroupSecrets.EqualKeysEqualOrigins` | LiNeP-SL/src/v0_2/group_security.cpp:96-591 | without collisions a message key determines sender, generation, founding secret, every change with its entropy up to its epoch, and the entropy of the sender's leaf |
| `GroupSecrets.SecretsTellLineage` | LiNeP-SL/src/v0_2/group_security.cpp:96-446 | in every run the epoch secret and the leaf secrets of a group are those derived from its founding secret, the transcript and entropy of every change, and the entropy of each member's addition or last rekey |
| `GroupSecrets.SentWithItsKeys` | LiNeP-SL/src/v0_2/group_security.cpp:505-591 | every message in a run is tagged with the key, and if confidential encrypted with the key stream, that the lineage of its group gives its sender and generation |
| `GroupSecrets.PurposesApart` | LiNeP-SL/src/v0_2/group_security.cpp:96-591 | no derivation purpose can be taken for another, whatever context follows it |
| `GroupTranscripts.HashesTellHistory` | LiNeP-SL/src/v0_2/group_security.cpp:106-446 | in every run transcript and state hash of a group are the digest chains of its founding, its joins, removals and rekeys with their epochs, and the roles given since |
| `GroupTranscripts.EqualHashesEqualPasts` | LiNeP-SL/src/v0_2/group_security.cpp:106-446 | over any two runs, without collisions: groups with one transcript were founded alike and went through the same changes one for one, and with one state hash their members were also given the same roles since |
| `GroupProvider.AcceptedAtMostOnce` | LiNeP-SL/src/v0_2/group_security.cpp:593-713 | over a whole run no number of a sender is accepted twice in one epoch of a group |
| `GroupProvider.RunsKeepWindows` | LiNeP-SL/src/v0_2/group_security.cpp:638-712 | over a whole run every replay window stands for exactly the numbers accepted from its sender in its epoch |
| `GroupProvider.ReferenceGroupProvider.Create` | LiNeP-SL/src/v0_2/group_security.cpp:96-169 | in place: exactly the new groups of the specification |
| `GroupProvider.ReferenceGroupProvider.Add` | LiNeP-SL/src/v0_2/group_security.cpp:171-248 | in place, with the member loop: exactly the new groups of the specification |
| `GroupProvider.ReferenceGroupProvider.Remove` | LiNeP-SL/src/v0_2/group_security.cpp:250-314 | in place, with the member loop: exactly the new groups of the specification |
| `GroupProvider.ReferenceGroupProvider.UpdateRole` | LiNeP-SL/src/v0_2/group_security.cpp:316-359 | in place, with the member loop: exactly the new groups of the specification |
| `GroupProvider.ReferenceGroupProvider.Rekey` | LiNeP-SL/src/v0_2/group_security.cpp:361-430 | in place, with the member loop: exactly the new groups of the specification |
| `GroupProvider.ReferenceGroupProvider.Close` | LiNeP-SL/src/v0_2/group_security.cpp:432-446 | in place: exactly the new groups of the specification |
| `GroupProvider.ReferenceGroupProvider.Protect` | LiNeP-SL/src/v0_2/group_security.cpp:475-591 | in place, with the XOR loop: exactly the new ratchet and message of the specification |
| `GroupProvider.ReferenceGroupProvider.Unprotect` | LiNeP-SL/src/v0_2/group_security.cpp:593-713 | in place, with the XOR loop: exactly the new window, verdict and payload of the specification |
| `GroupProvider.FindActive` | LiNeP-SL/src/v0_2/group_security.cpp:494-500 | the loop finds the first active entry of the endpoint |
| `GroupProvider.FindFirst` | LiNeP-SL/src/v0_2/group_security.cpp:619-625 | the loop finds the first entry of the endpoint, whatever its standing |
| `GroupProvider.Encrypt` | LiNeP-SL/src/v0_2/group_security.cpp:530-543 | the loop combines each byte with the repeated key stream |
| `GroupOutcomes.CreatesExactly` | LiNeP-SL/src/v0_2/group_security.cpp:96-169 | a group is made exactly for a new number, with kind and suite, by an active coordinator, its only member |
| `GroupOutcomes.AddsExactly` | LiNeP-SL/src/v0_2/group_security.cpp:171-248 | a member is added exactly to a running group in which it is not active, as its last entry as of the new epoch, and nobody else's entry changes |
| `GroupOutcomes.RemovesExactly` | LiNeP-SL/src/v0_2/group_security.cpp:250-314 | exactly an active member of a running group can be removed, and of the active ones it alone is none afterwards |
| `GroupOutcomes.UpdatesRoleExactly` | LiNeP-SL/src/v0_2/group_security.cpp:316-359 | exactly an active member of a running group gets another role, and nothing else of the members changes |
| `GroupOutcomes.RekeysExactly` | LiNeP-SL/src/v0_2/group_security.cpp:361-430 | exactly an active member of a running group can rekey it, and of the leaf secrets only its own changes |
| `GroupOutcomes.ClosesExactly` | LiNeP-SL/src/v0_2/group_security.cpp:432-446 | every group that is not closed can be closed and keeps its members |
| `GroupOutcomes.ProtectsExactly` | LiNeP-SL/src/v0_2/group_security.cpp:475-591 | a message comes about exactly for an active member of a running group, a mode, a class and nonzero numbers |
| `GroupOutcomes.ConfidentialIsEncrypted` | LiNeP-SL/src/v0_2/group_security.cpp:530-543 | a confidential body gives its payload back byte for byte under the key stream; in the other mode it is the payload |
| `GroupOutcomes.OpensExactly` | LiNeP-SL/src/v0_2/group_security.cpp:593-713 | a message opens exactly in its running group and epoch, from a sender whose first entry is active, with a number new to the window and the tag its sender's key makes of it |
| `GroupOutcomes.RefusesExactly` | LiNeP-SL/src/v0_2/group_security.cpp:593-640 | the refusals in their order: no such group, not running, an earlier epoch, a later one, a sender never listed, one whose first entry is not active |

## Left out

Assumptions of the model:

- Memory is sequentially consistent, and queue tickets, lease tokens, control sequence numbers, generations and group epochs do not wrap; 64-bit offsets, 32-bit frame numbers, the message ratchets and the byte counters of SHA-256 do, where the source lets them.
- Scores and latencies are real numbers; floats in envelopes are their 32-bit words; text is bytes.
- Sockets, threads, clocks, randomness and entropy are parameters or choices of the environment: transport outcomes, datagram loss and order, arrival times, slots found by the loop, spurious compare-exchange failures.
- Signatures, key agreement and the identity verifier of the handshake are parameters: key agreement is symmetric, what is signed with a key verifies with its partner. Their calls, and the hash calls of the group provider, do not fail for lack of a provider.
- The authenticated channel takes the code as unforgeable: a frame that verifies under the key the receiver would check it with has the input of something that was signed: in this direction by anyone, before or during the run and under any binding, or in the other direction. The keys at both ends stay as they are during a run; `SessionChannel.DeliversInOrderExactly` is for ends that share the key the sender signs with. In the same way the authenticity of group messages takes their tags as unforgeable and their digests as free of collisions, and that of the hellos their signatures. Where digests, codes or derived keys are taken as free of collisions, that is a premise about the strings of the run at hand, not about the function.
- The runs of clients and issuer have one client per identity and no sweeps of the router; the runs of the router alone do.
- Whether a vision result is well formed, and whether a worker is authorized, are parameters.
- Error answers are their codes (or 0 where the source sets none); categories and messages are dropped.
- `std::sort` is any arrangement its comparison allows; for options, whose keys are distinct whenever the encoder goes on, that is one arrangement.

Weaker than the source, on purpose:

- HandshakeSession.Sl2HandshakeSession.InitiatorStart: after a failed call, of this or of the other four, only role, state, keys and secrets are stated; what else the object still holds is never looked at again.
- SlotSelection.SortCandidates: an insertion sort stands for `std::sort`; only what the comparison guarantees is stated.
- Codecs.EncodeRequest: the options are sorted by a function, not by an in-place library sort.

Not modelled:

- The scheduler's slot table: heartbeats, busy flags, cooldowns, expiry, and the transport itself; consensus by embeddings, which is never reached.
- The wall-clock timeouts of tasks.
- The fixed-layout control datagram with its checksum, and the V0.1 framing.
- The lease client's keepalive thread, its socket handling and its bind over a connection; the capability cache queries of the router.
- Getters of the session manager, its key table update, and `receive_worker`, which reads one frame from a socket and passes it on.
- `group_security_manager`, which passes every call on to the provider, and the group's creation and update times, tree hash and counts.
- Authorization, governance records, SL1 to SL4 of V0.1, plane authentication, the C interface, language bindings, demos and conformance drivers.
