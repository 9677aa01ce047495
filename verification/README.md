# Verification of the confort exclusion core

confort lets many tests, in one process or in several processes connected to a beacon server, share
Docker containers. This project models the parts that decide whether that is safe, and proves what they
promise:

- **The container-lock protocol** (`AcquireQueue`, `AcquireControllers`, `LockObjects`, `Lockers`,
  `Controls`, `Protocol*`, `SoloRuns`, `UseRuns`). A request names several containers. A FIFO controller
  decides when it may start; a lock phase takes one weighted semaphore per container, an init gate lets one request run the
  container's init function under an exclusive lock that is downgraded afterwards, and a failure rolls
  everything back. The objects are modelled as classes whose methods contain the original loops. The
  interleavings are modelled as a transition system (`Protocol`): a step is one critical section, a step
  that would block is not enabled, and the results hold for every run, with every cancellation, refused
  lock, failing init and panic. `UseRuns.UseAlone` ties the two together: a call on the objects, made
  while nobody else moves, is a run of the protocol's steps with the same queue, weights and gates.
- **The beacon sessions** (`BeaconSessions`, `AcquireSessions`, `SessionBalances`, `SessionInputs`,
  `SessionOutcomes`, `SessionGates`, `RemoteControls`, `RemoteRuns`, `LocalTraces`): the same locks over message streams, for
  every stream of messages, and the comparison of the remote control with the local one.
- **The Docker undo log** (`DockerUndo`, `DockerPolicies`, `DockerTakeOver`): what a namespace opens, hands
  out and registers for removal under each resource policy, and what its release leaves behind.
- **Unique values** (`UniqueValues`, `RandomStrings`): the value stores with any number of clients, and the
  random string loop.

`Basics`, `LockValues` and `MapSums` hold what the others share.

The main results are `ProtocolSafety.Reachable` and what follows from it in `ProtocolRuns`,
`ProtocolLiveness`, `ProtocolGates` and `ProtocolUsers`; `Controls.LockForContainerUse` and
`UseRuns.UseAlone`; `RemoteRuns.RemoteExactly`; `SessionBalances.SessionBalance` and
`SessionOutcomes.SessionEnds`; `BeaconSessions.ServedExactly` and `ReturnsExactly`; `DockerUndo.ReleaseRestores` and `DockerTakeOver.TakeOverExactly`;
`UniqueValues.DistributedUniqueness`; `RandomStrings.StringFunc`.

## What the code does not do

Where the code does less than its documentation or its shape suggests, the model follows the code, a lemma
shows the failing family, and another one says exactly when the property does hold.

- A request cancelled while it waits stays in the queue with its keys (internal/exclusion/acquire.go:36-40).
  A request is finished at the end of a run if and only if it was not cancelled while waiting and no chain
  of key conflicts leads from it back to one that was: `ProtocolLiveness.FinishedExactly`, `CancelledBlocks`,
  and `CancelBlocksRun` for any two requests in conflict.
- The rollback of a multi-key acquisition does not re-open a gate it has won
  (internal/exclusion/acquire.go:62-78), so that the init of that container is never started again.
  A key's gate can be leaked only by a request that asks for its init together with another key, and every
  such request has a run that leaks it: `ProtocolGates.NoMixNoLeak`, `MixCanLeak`, `LeakIsForever`. The
  server leaks a gate exactly when the answer cannot be sent, or the stream ends or names a key that was
  not requested while results are awaited and before one of that key: `SessionGates.GatesLeftShut`,
  `ClientGone`.
- "Performed only once per container" (confort.go:671-676) does not mean that a user of the container finds
  it initialised. A request that asked for init finds it so if and only if, when it came to the gate, it won
  it, or an init had succeeded, or the winner then on its way reported success before the request was
  granted the key: `ProtocolUsers.UsersSeeInitExactly`. The two ways to miss it are
  `ProtocolGates.PassedBehindFailure`, for every key, and `ProtocolUsers.UsedBehindLeak`, for every request
  that can leak a gate.
- The server's init loop compares its counter with a set that shrinks
  (internal/beacon/server/beacon.go:253, 266). It reads only half of the results, rounded up. The remote
  control makes the calls of some local run, over some order of the gates won and with some outcome of the
  inits that the client did not run, if and only if the inits that succeed before the first failure are at
  most that half, or the first key that the server has left over is one whose init did not succeed:
  `RemoteRuns.RemoteExactly`. With more successes than half, some success is always reported as a failure:
  `RemoteRuns.SuccessLost`, `RemoteControls.EarlyRelease`.
- The server returns without releasing if and only if the init phase is over and the next message is not a
  release (internal/beacon/server/beacon.go:295-298), or an init result names a key that was not requested
  while results are awaited, which dereferences a nil entry (265): `SessionBalances.SessionBalance`, with
  `RejectedFamily` and `CrashedFamily` for every valid request.
- The server lets a client take a success back, which re-opens the gate of an initialised container. That
  needs a request that has won three gates, and every such request can do it: `SessionGates.ReopenedExactly`,
  `ReopeningNeedsThree`, `ThreeCanReopen`.
- A take-over release fails, and leaves the network behind, if and only if a container was attached to the
  network that the namespace did not obtain (backend.go:148-153): `DockerTakeOver.TakeOverExactly`,
  `ForeignKeepsNetwork`, `ForeignFamily`.
- A namespace that creates its network and then cannot inspect it or resolve the host address leaves the
  network behind (backend.go:124-146): `DockerUndo.OpenFailure`.

## Model

| member | source | states |
|---|---|---|
| AcquireControllers.AcquireController.Proceed | internal/exclusion/acquire.go:137-167 | the walk with its growing wait set starts exactly the entries that share no key with an entry before them, and changes nothing else |
| AcquireControllers.AcquireController.Claim | internal/exclusion/acquire.go:153-161 | the inner loop adds all keys of an entry to the wait set and reports a conflict if and only if one was there before |
| AcquireControllers.AcquireController.Find | internal/exclusion/acquire.go:118-135 | an entry is found by its ticket, or is no longer in the queue |
| AcquireControllers.AcquireController.Accept | internal/exclusion/acquire.go:101-112 | a request goes to the back of the queue; exact start flags and acceptance order are kept; nobody who was started is stopped |
| AcquireControllers.AcquireController.RemoveLockedKey | internal/exclusion/acquire.go:114-127 | the reported key, or with the last key the entry, leaves the queue; exactness, order and all other start flags are kept |
| AcquireControllers.AcquireController.Remove | internal/exclusion/acquire.go:129-135 | the entry leaves the queue, also if it has left before; exactness, order and all other start flags are kept |
| AcquireControllers.AcceptedKeeps | internal/exclusion/acquire.go:101-112 | accepting keeps "started if and only if disjoint from everyone before" and never reverts a flag |
| AcquireControllers.KeyLockedKeeps | internal/exclusion/acquire.go:114-127 | reporting a locked key keeps the same invariant |
| AcquireControllers.RemovedKeeps | internal/exclusion/acquire.go:129-135 | withdrawing a request keeps the same invariant |
| AcquireQueue.ScheduledExact | internal/exclusion/acquire.go:137-167 | one pass over a queue whose started entries are disjoint from their predecessors makes the flags exact |
| AcquireQueue.ExactUnique | internal/exclusion/acquire.go:137-167 | exactness determines the flags: two exact queues with the same entries are equal |
| AcquireQueue.ShrunkSound | internal/exclusion/acquire.go:118-124 | taking a key away never puts a started entry into conflict |
| AcquireQueue.DroppedSound | internal/exclusion/acquire.go:132 | taking an entry away never puts a started entry into conflict |
| LockObjects.KeyedLock.Lock | internal/exclusion/keyedlock.go:22-25 | the exclusive lock succeeds if and only if the context lives and nobody holds the key, and takes the whole weight |
| LockObjects.KeyedLock.RLock | internal/exclusion/keyedlock.go:43-46 | the shared lock succeeds if and only if the context lives and one unit is free, and takes one unit |
| LockObjects.KeyedLock.Unlock | internal/exclusion/keyedlock.go:27-33 | gives the whole weight back; requires the key to be known and the weight to be held, where the code panics |
| LockObjects.KeyedLock.Downgrade | internal/exclusion/keyedlock.go:35-41 | gives back all but one unit in one step |
| LockObjects.KeyedLock.RUnlock | internal/exclusion/keyedlock.go:48-54 | gives one unit back |
| LockObjects.ContainerLock.SetInitResult | internal/exclusion/locker.go:68-78 | success downgrades a shared winner once, failure re-opens the gate; the semaphore keeps exactly the weight of the lock, which stays releasable |
| LockObjects.ContainerLock.Release | internal/exclusion/locker.go:80-86 | gives back exactly the weight the lock stands for |
| LockObjects.BalancedRelease | internal/exclusion/locker.go:68-86 | whatever results are set, however often, they and one release give back exactly the weight taken, never more |
| Lockers.Locker.LockOne | internal/exclusion/locker.go:97-152 | the lock function of one key: a fresh lock in the mode asked for, won through the gate or not; refused if and only if the context ended or there is no room, and then nothing is taken and the gate is as before |
| Lockers.Locker.LockPhase | internal/exclusion/acquire.go:42-61 | after the lock phase each key is exactly as its own outcome says, and only the refused keys are still queued |
| Lockers.Locker.ReleaseAll | internal/exclusion/acquire.go:65-77 | every lock obtained is given back; all weights are as before the request |
| Lockers.Locker.LockAll | internal/exclusion/acquire.go:42-81 | all keys or none: succeeds if and only if no key refuses; either way the queue is as before the request; a failure leaves no weight, and leaves shut exactly the gates its other keys won |
| Lockers.Locker.AcquireContainerLock | internal/exclusion/locker.go:165-178 | a request gives up if and only if it conflicts with the queue, is granted if and only if moreover no key refuses; weights, gates and queue afterwards in all three cases |
| AcquireQueue.AcceptedStarts | internal/exclusion/acquire.go:101-167 | a new request starts at once if and only if nobody in the queue wants one of its keys |
| Controls.FirstFailure | internal/exclusion/control.go:59-68 | the first gate winner whose init fails; every winner before it succeeds |
| Controls.InitLoop | internal/exclusion/control.go:59-68 | for any iteration order: inits run up to and including the first failure, that error is kept, later winners are reported as failed, each winner once and nobody else, and every semaphore holds its lock's weight |
| Controls.RunInits | internal/exclusion/control.go:59-73 | without a failure all locks are kept, shared winners downgraded; with one every weight is as before the request; gates of successful inits stay closed, all others re-open |
| Controls.LockForContainerUse | internal/exclusion/control.go:47-74 | the whole call: which of the four results it has, in terms of queue, semaphores, gates and init outcomes before it, and the queue, weights and gates after it; a failed use takes no weight, the first init error is returned, successful inits are preserved |
| UseRuns.UseAlone | internal/exclusion/control.go:47-74 | on objects that mirror the last state of any run, the call goes on with steps of one new request and leaves objects that mirror the state they lead to: same queue, weights and gates, and the request in use, cancelled or finished as the call returned |
| SoloRuns.LockEach | internal/exclusion/acquire.go:42-61 | the steps of a lock phase alone: every key that is not to be refused and has room is held in its mode, the gates of the winners shut |
| SoloRuns.UnlockEach | internal/exclusion/acquire.go:62-87 | the steps of a rollback or release alone: the request ends finished with no weight, gates untouched |
| UseRuns.InitEach | internal/exclusion/control.go:59-68 | the steps of the init loop alone, in the control's order: inits run up to the first failure, the others are skipped and their gates re-open |
| ProtocolQueue.StartedMeans | internal/exclusion/acquire.go:137-167 | in a state whose queue mirrors the requests, a started request shares no pending key with an earlier one |
| ProtocolQueue.UnblockedStarts | internal/exclusion/acquire.go:137-167 | conversely a queued request that shares no pending key with an earlier one is started |
| ProtocolQueue.AcceptKeepsQueue | internal/exclusion/acquire.go:101-112 | after an arrival the queue lists exactly the requests that still want keys, in acceptance order, with exact flags |
| ProtocolQueue.NotifyKeepsQueue | internal/exclusion/acquire.go:114-127 | the same after a key is reported as locked |
| ProtocolQueue.UndoKeepsQueue | internal/exclusion/acquire.go:62-63 | the same after a failed request is withdrawn |
| ProtocolSafety.ShapeKept | internal/exclusion/locker.go:97-159 | every step keeps the states of a request's keys in agreement with its phase and modes |
| ProtocolSafety.OrderKept | internal/exclusion/acquire.go:114-167 | every step keeps: once a request has begun, no earlier request still wants one of its keys |
| ProtocolSafety.WeightKept | internal/exclusion/keyedlock.go:20-54 | every step keeps: a semaphore's weight is the sum over the live locks on its key and at most 2^63-1 |
| ProtocolSafety.GateKept | internal/exclusion/locker.go:68-128 | every step keeps: a gate is closed exactly for a success, a live winner or a leak, and there is one winner at most |
| ProtocolSafety.InvKept | internal/exclusion/acquire.go:29-87 | every step keeps the conjunction of all these |
| ProtocolSafety.Reachable | internal/exclusion/acquire.go:29-167 | the conjunction holds in every state of every run |
| ProtocolRuns.ReaderWriterSafety | internal/exclusion/keyedlock.go:20-54 | two requests that hold one key at the same time both hold it shared, one unit each |
| ProtocolRuns.NoOverRelease | internal/exclusion/keyedlock.go:27-54 | in every run a release or downgrade finds its semaphore and at least the weight it gives back |
| ProtocolRuns.GrantExactly | internal/exclusion/keyedlock.go:22-46 | a waiting request can take its key if and only if nobody holds it (exclusive, or winner of the gate), or all holders are readers (shared) |
| ProtocolRuns.OneLocker | internal/exclusion/acquire.go:114-167 | at most one request is in the lock phase of a key, so the semaphore has at most one waiter |
| ProtocolRuns.GateUncontended | internal/exclusion/locker.go:103-115 | nobody reaches a gate while the body of its Do is running |
| ProtocolRuns.HoldersAreEarlier | internal/exclusion/acquire.go:29-81 | whoever holds a key that a lock goroutine waits for was accepted before it: waiting is acyclic |
| ProtocolRuns.GrantedInOrder | internal/exclusion/acquire.go:114-167 | in every run requests obtain a key in acceptance order, shared or exclusive, each once |
| ProtocolRuns.RunGrows | internal/exclusion/acquire.go:29-87 | along a run pending keys only shrink, and what was obtained, freed, initialised, failed or leaked stays so |
| ProtocolRuns.OneInitAtATime | internal/exclusion/control.go:59-68 | a name has at most one init in progress, and nobody else holds its key then |
| ProtocolRuns.InitSucceedsOnce | internal/exclusion/locker.go:68-78 | after an init of a name has succeeded no init of it starts, ends or is skipped, in any run |
| ProtocolRuns.AtomicDowngrade | internal/exclusion/locker.go:68-86 | while a gate winner holds its key, anyone else is granted it only after the winner's init succeeded and only shared, with the winner still holding one unit |
| ProtocolRuns.HoldsUntil | internal/exclusion/keyedlock.go:35-41 | a winner's lock is held without interruption until its unlock, exclusively until its init succeeds |
| ProtocolRuns.AllOrNothing | internal/exclusion/acquire.go:42-87 | in every run a granted request holds every key in exactly its mode, a finished one holds nothing, and neither is queued |
| ProtocolLiveness.MeasureDrops | internal/exclusion/acquire.go:29-81 | every step but an arrival uses up the measure |
| ProtocolLiveness.LockerMoves | internal/exclusion/acquire.go:42-81 | if a request is in its lock phase somebody can move: itself, or by descent an earlier request that holds what it wants |
| ProtocolLiveness.HolderMoves | internal/exclusion/control.go:59-73 | a request past its lock phase can always move |
| ProtocolLiveness.WhoIsLeft | internal/exclusion/acquire.go:36-40 | where nothing can move, everybody is finished, cancelled, or waiting behind such a request |
| ProtocolLiveness.NoDeadlock | internal/exclusion/acquire.go:29-81 | if nobody was cancelled while waiting, a state where nothing can move has finished every request, freed every semaphore and queues only empty key sets |
| ProtocolLiveness.FinishedExactly | internal/exclusion/acquire.go:29-81 | where a run cannot go on, a request is finished if and only if it was not cancelled while waiting and no chain of conflicts leads from it to one that was |
| ProtocolLiveness.Drains | internal/exclusion/acquire.go:29-87 | from any reachable state a run without arrivals has at most six steps per request and seven per key, and then everything is finished, unlocked and dequeued unless somebody was cancelled while waiting |
| ProtocolLiveness.CancelBlocksRun | internal/exclusion/acquire.go:36-40 | for any two requests in conflict, the run in which the first is cancelled and the second waits where nothing can move |
| ProtocolLiveness.CancelledBlocks | internal/exclusion/acquire.go:36-40 | behind a cancelled request a conflicting one never begins, in any continuation |
| ProtocolGates.GateMeaning | internal/exclusion/locker.go:97-152 | in every run a gate is closed exactly when an init has succeeded, its winner has not reported yet, or it was leaked; the cases with a winner exclude the others |
| ProtocolUsers.UsersSeeInitExactly | internal/exclusion/control.go:47-74 | in every run a request that asked for init and was handed its locks finds a completed init if and only if at the gate it won, or an init had succeeded, or the winner then on its way reported success before the request's grant |
| ProtocolUsers.DecidedAtGrant | internal/exclusion/locker.go:130-152 | what a request that won no gate finds was decided when it was granted the key |
| ProtocolUsers.UsedBehindLeak | internal/exclusion/locker.go:103-135 | for every request that can leak a gate, a run in which another one, shared or exclusive, uses the container behind the leaked gate though no init has ever ended |
| ProtocolGates.UsersSeeInit | internal/exclusion/control.go:47-74 | a consequence in terms of the key's history: a completed init is found if no init of that key has failed and its gate was not leaked |
| ProtocolGates.PassedBehindFailure | internal/exclusion/locker.go:105-135 | for every key a run in which a request that asked for init uses the container though no init has succeeded |
| ProtocolGates.NoMixNoLeak | internal/exclusion/acquire.go:62-78 | a gate is leaked only if some request asked for its init together with another key |
| ProtocolGates.MixCanLeak | internal/exclusion/acquire.go:62-78 | every such request has a run that leaks the gate without any init having succeeded |
| ProtocolGates.LeakIsForever | internal/exclusion/locker.go:153-157 | a leaked gate stays closed and its init is never started again |
| BeaconSessions.Serve | internal/beacon/server/beacon.go:20-175 | the three session loops, over their own variables, compute the session machine |
| BeaconSessions.SessionSafety | internal/beacon/server/beacon.go:20-175 | for every trace: never two locks, never an unlock of a lock not held, answers alternate, a lock is held exactly when the last accepted operation was lock, nothing is held on return |
| BeaconSessions.NextRuns | internal/beacon/server/beacon.go:28-62 | which single turn keeps a session running, and what it holds then |
| BeaconSessions.ServedExactly | internal/beacon/server/beacon.go:20-175 | a session is still running if and only if nothing was aborted or refused and lock and unlock alternate on equal keys; then it has answered every operation |
| BeaconSessions.ReturnsExactly | internal/beacon/server/beacon.go:28-62 | the handler returns without an error if and only if the stream ends and everything before its end was clean and paired; with an error on every other trace on which it returns |
| BeaconSessions.CallsNamed | internal/beacon/server/beacon.go:83-117 | a running session has taken and given back, one by one, exactly the locks that its messages name |
| AcquireSessions.InitLoop | internal/beacon/server/beacon.go:251-276 | the loop over the shrinking map of winners computes the init phase, whose end, leftovers and number of messages `SessionOutcomes.PhaseOf` gives in terms of the messages |
| AcquireSessions.FailLeft | internal/beacon/server/beacon.go:277-281 | every leftover is reported as failed, in iteration order |
| AcquireSessions.ServeOne | internal/beacon/server/beacon.go:218-299 | the handling of one granted request computes the calls and the outcome that `SessionOutcomes` and `SessionBalances` characterise |
| AcquireSessions.Handle | internal/beacon/server/beacon.go:177-301 | the handler loop computes the session that `SessionOutcomes.SessionEnds` and `SessionBalances.SessionBalance` characterise |
| SessionBalances.ServeBalanced | internal/beacon/server/beacon.go:243-299 | from no net weight on, a request ends with no net weight in any semaphore, or stranded with exactly the weight of each lock it was granted, whatever results were reported |
| SessionBalances.ResultsOwe | internal/exclusion/locker.go:68-86 | repeated, contradictory and irrelevant results keep the weight taken equal to what the locks stand for |
| SessionInputs.RejectedExactly | internal/beacon/server/beacon.go:290-298 | a request is rejected if and only if the answer was sent, at most one gate was won, its result, if any, came first, and the next message is not a release |
| SessionInputs.CrashedExactly | internal/beacon/server/beacon.go:260-266 | the handler crashes if and only if the answer was sent and, with only successes of requested keys before it and fewer of them than winners left, a result names a key that was not requested |
| SessionOutcomes.PhaseOf | internal/beacon/server/beacon.go:251-276 | the init phase ends in one place, by its counter or at the first awaited message that is not a success, with these winners left and this many messages read |
| SessionOutcomes.FailedExactly | internal/beacon/server/beacon.go:243-294 | a request ends the handler with an error, its locks released, if and only if the answer cannot be sent, the stream ends or breaks while a result or the release is awaited, or the message awaited as a result is neither a result nor a release |
| SessionOutcomes.ContinuesExactly | internal/beacon/server/beacon.go:270-299 | the handler goes on after reading so many messages if and only if the answer was sent and they end in an early release, a failure or the counter with winners left over, or the release at the end |
| SessionOutcomes.OpensExactly | internal/beacon/server/beacon.go:181-221 | which requests are taken: no empty key, only the four operations, and the locker grants them |
| SessionOutcomes.GrantsAre | internal/beacon/server/beacon.go:199-216 | the mode of each lock by its operation, and the gate it won |
| SessionOutcomes.SessionEnds | internal/beacon/server/beacon.go:177-301 | the session returns without an error if and only if the stream ends at a head of its loop; otherwise it was refused there or ends as its last request does |
| SessionBalances.SessionBalance | internal/beacon/server/beacon.go:177-301 | for every stream: no net weight in any semaphore at any head of the loop, and none on return unless the messages of the last request strand its locks as above; then exactly their weight |
| SessionBalances.RejectedFamily | internal/beacon/server/beacon.go:290-298 | for every valid request that wins no gate and every message but a release: rejected, with every key still locked |
| SessionBalances.CrashedFamily | internal/beacon/server/beacon.go:260-266 | for every valid request that wins a gate and every foreign key: a crash, with every key still locked |
| SessionGates.GatesLeftShut | internal/beacon/server/beacon.go:243-286 | a winner's result is never reported if and only if the answer cannot be sent, or the stream ends or names a foreign key while results are awaited and with no result of that winner before |
| SessionGates.ClientGone | internal/beacon/server/beacon.go:254-258 | for every grant with a winner, the stream that ends at once releases the locks and leaves the gate shut |
| SessionGates.ReopenedExactly | internal/beacon/server/beacon.go:260-269 | success and failure of one winner are both reported if and only if a failure of it is read after its success while results are awaited |
| SessionGates.ReopeningNeedsThree | internal/beacon/server/beacon.go:253-266 | that takes three gates won |
| SessionGates.ThreeCanReopen | internal/beacon/server/beacon.go:253-266 | and every winner of three or more can have its gate re-opened so |
| RemoteControls.WireModes | internal/exclusion/control.go:180-199 | the operation sent for each key makes the server ask for exactly the mode the caller asked for |
| RemoteControls.RunInits | internal/exclusion/control.go:220-248 | the client's loop sends one result per init it runs, stops at the first failure, and otherwise ends with a release |
| RemoteControls.ServerReads | internal/beacon/server/beacon.go:252-276 | how many of the client's results the server reads: up to the first failure, but no more than half of the winners, rounded up |
| RemoteControls.LeftoversInOrder | internal/beacon/server/beacon.go:277-281 | the leftovers are reported in the order in which the server comes to them |
| RemoteRuns.RemoteRefinesLocal | internal/beacon/server/beacon.go:243-300 | the composed client and server make the calls of a local run that agrees with every init the client ran, if the successes before the first failure are at most half of the gates won, rounded up, or the server's first leftover did not succeed; in the first case the successes reported are the client's |
| RemoteRuns.RemoteExactly | internal/exclusion/control.go:179-249 | and if and only if: some order of the gates won and some outcome of the inits not run by the client give these calls exactly under that condition |
| LocalTraces.LocalTrace | internal/exclusion/control.go:59-68 | the local run of that comparison is the control's: for every iteration order and outcome its loop reports exactly those results, and runs as many inits as the client |
| RemoteRuns.RemoteSession | internal/exclusion/control.go:179-249 | the same for the whole stream of one remote request, and how the stream ends with at most one gate won |
| RemoteRuns.RemoteDiverges | internal/beacon/server/beacon.go:253-281 | otherwise no order of the gates won and no outcome that agrees with what the client ran makes these calls |
| RemoteRuns.SuccessLost | internal/beacon/server/beacon.go:253-281 | with more successes than half, some init that succeeded is reported as failed |
| RemoteControls.EarlyRelease | internal/beacon/server/beacon.go:277-287 | with two or more gates won and all inits successful, the server has no weight in any semaphore while results and the release are still to come |
| DockerUndo.DockerBackend.Namespace | backend.go:102-164 | opening computes the world and namespace that `DockerPolicies.OpenExactly` and `DockerUndo.OpenFailure` characterise |
| DockerPolicies.OpenExactly | backend.go:102-164 | opening succeeds if and only if the networks can be listed, the host is found, and the network, if it exists, is allowed by the policy, or else can be made and inspected; under the error policy it never takes one that exists |
| DockerUndo.DockerNamespace.CreateContainer | backend.go:292-436 | obtaining computes the namespace, world and result that `DockerPolicies` and `DockerUndo.ObtainGives` characterise |
| DockerPolicies.ObtainExactly | backend.go:311-413 | a call succeeds if and only if the container is known and agrees, or exists and is usable under the policy by image, configuration, state and connection, or can be pulled and created |
| DockerPolicies.ObtainAttaches | backend.go:380-408 | an existing container is connected to the namespace's network only, a new one to the networks of its configuration |
| DockerPolicies.Ownership | backend.go:355-413 | under the error policy every container of a namespace is one it created; under the others one that existed is unchanged; a paused or stopped one is never handed out |
| DockerUndo.DockerNamespace.Release | backend.go:528-538 | every registered undo runs exactly once, last first, whatever fails; an error is returned if and only if some undo fails |
| DockerUndo.ObtainGives | backend.go:292-436 | a failed call changes nothing; a successful one gives an existing container of that name and image on the namespace's network, and a repetition gives the same one and changes nothing |
| DockerUndo.CallsGive | backend.go:427-434 | after any calls every container of the namespace exists under its name and identifier |
| DockerUndo.ObtainUndoes | backend.go:415-426 | under error and reuse the undo of a call is its exact inverse |
| DockerUndo.ReleaseRestores | backend.go:102-164 | under error and reuse, after any calls, repeated and failed ones included, a release whose calls get through ends in exactly the networks, containers and attachments before the namespace was opened |
| DockerUndo.OpenFailure | backend.go:124-146 | a failed opening changes Docker if and only if the network was created and then not inspected or the host not resolved |
| DockerUndo.UnwoundRemoves | backend.go:528-538 | after a release every resource with an undo is gone and nothing was added |
| DockerUndo.ReusableRemovesNothing | backend.go:415-426 | reusable removes no network, no container and no attachment that existed before, whichever calls get through |
| DockerPolicies.ReusableExactly | backend.go:415-426 | under reusable a release whose calls get through succeeds and leaves every network and container, and exactly the attachments that existed before and those of its own containers |
| DockerTakeOver.TakeOverExactly | backend.go:148-153 | with all calls getting through, a take-over release succeeds if and only if every container attached to the network before has been obtained by the namespace; always if the network is its own |
| DockerTakeOver.TakeOverRemovesAll | backend.go:415-426 | under that condition take-over removes the network and every container of the namespace, also those that existed before |
| DockerTakeOver.TakeOverRemovesEach | backend.go:415-421 | a container of the namespace whose removal gets through is gone, also where the network's removal fails |
| DockerTakeOver.ForeignKeepsNetwork | backend.go:148-153 | with somebody else's container on the network, the release fails and network and attachment stay, whichever calls get through |
| DockerTakeOver.ForeignFamily | backend.go:102-164 | every network with a container on it has such a namespace |
| DockerUndo.PreexistingKept | backend.go:415-426 | error and reuse keep every network, container and attachment that existed before, whichever calls get through |
| DockerUndo.NetworkRemovedLast | backend.go:148-153 | a created network is removed last, when no container is attached, so that its removal succeeds if all others did |
| UniqueValues.Generator.Generate | unique/unique.go:141-159 | the first draw that is neither retryable nor a value returned before decides: a value is returned and kept, an error ends the call, none in `retry` draws exhausts it; the map is exactly the set of values returned, which are pairwise distinct |
| UniqueValues.ValueStore.TryStore | internal/beacon/server/unique.go:20-36 | a value is accepted if and only if it was not stored before, and is stored afterwards |
| UniqueValues.UniqueValueServer.StoreUniqueValue | internal/beacon/server/unique.go:38-44 | a request reaches the store it names, made on first use, and no other |
| UniqueValues.GenerateGlobal | unique/unique.go:169-191 | the client's loop over its draws is a run of the client steps, and its answer and the stores are decided by the first draw that is neither retryable nor answered as taken; requests carried out with their answer lost included |
| UniqueValues.InvKept | internal/beacon/server/unique.go:20-44 | every step of every client keeps: answers are stored and differ after rendering, tries stay within the limit |
| UniqueValues.DistributedUniqueness | unique/unique.go:169-191 | over every interleaving of any clients, lost answers included, values returned from one store are pairwise distinct whatever the rendering maps together, each within `retry` tries |
| RandomStrings.StringFunc | unique/unique.go:195-223 | from its end the string spells, as lower-case letters, upper-case letters and digits, the first `n` groups below 62 of the stream that has ten six-bit groups of every draw, low bits first; no draw is taken after the one that holds the last of them |
| RandomStrings.StreamAt | unique/unique.go:199-211 | group `10 * d + i` of the stream is `(draws[d] / 64^i) % 64`, and there are ten for every draw |

## Left out

- gRPC transport, generated messages, health checks, addresses, lock files and commands: plumbing; the sessions start from the messages of internal/beacon/proto/beacon.proto:73-90 as a datatype.
- Docker client calls, image build and pull, exec, ports, waiting and host address resolution: each is a success flag of the environment; Docker is its networks, containers and attachments.
- Starting a container: a container obtained keeps the run state it had, so that "restored" does not speak of it.
- config_consistency.go: its comparisons are one success flag, which also stands for consistency not being asked for.
- The internals of the semaphore, once-gate and errgroup libraries: a semaphore grants what fits, a gate is closed or open, a lock phase ends when all its goroutines have.
- Option handling in confort.go and unique/unique.go, among it the retry count: thin configuration code.
- Real time and scheduler fairness: enabled steps and a decreasing measure take their place.
- Interference with Docker by other programs while a namespace is in use, except that undo calls may fail.
- Lockers.Locker.AcquireContainerLock: runs while nobody else moves, so that a call that would wait for ever is one whose context ends; the interleavings are those of `Protocol`, of which such a call is one run (`UseRuns.UseAlone`). The keys of a request are tried in the order of a sequence, which stands for any iteration order, and an entry keeps its container lock by value.
- Lockers.Locker.LockPhase: takes the keys one after another where the source has one goroutine per key; the error group's cancellation of the other goroutines is part of the set of cancelled keys, which may be any set.
- Lockers.Locker.LockAll: likewise one goroutine, with nobody else moving.
- Controls.LockForContainerUse: likewise alone; which error a failing lock returns is not modelled, only that it is none of the init errors.
- The lock state in the answer of an acquire session: only which gates were won is kept of it, which is all the client reads.
- Several beacon sessions over one locker: the sessions speak of one stream, and whether its requests are granted and which gates they win is the environment's choice; what requests do to each other is in `Protocol`.
- RemoteRuns.RemoteRefinesLocal: the stream does not break during the init phase; broken streams are in `SessionGates` and `SessionBalances`.
- UniqueValues.GenerateGlobal: alone with the server; other clients move in the clients' transition system.
- RandomStrings.StringFunc: the random source is the sequence of its draws, long enough for the string; with a source that never yields enough letters the loop does not end.
- The global namespace mutex and the build and setup locks of the local control: single calls of a mutex or of `KeyedLock`.
