# Verified model of the Constitutional Swarm authority

A Dafny model of the parts of Constitutional Swarm whose correctness is a matter of protocol,
state and arithmetic, with the properties they promise proved for every input and every run.
`dafny verify dfyconfig.toml` checks the whole project.

- **Authority IPC** (`Json`, `Transcript`, `RpcClient`, `ServingLoop`, `RpcProtocol`, `Framing`).
  Signed responses, the sequence-numbered client, the serving loop of the authority child and the
  framing of the byte stream, composed with a network that may drop, replay, reorder and inject.
- **Outbox recovery** (`Contention`, `OutboxMonitor`). Which failures count as lock waits, and the
  backoff state machine over every event history.
- **Controlled boot** (`ControlledBoot`, `Lifecycle`, `LifecycleHandle`). Spawning, observer start,
  component death and close with a failure injected at every point: first as a state machine over
  values, then as objects that share sockets, each method proved equal to its step. `Handover` joins
  it with the protocol: endpoints move to children while the network and the authority act.
- **Byzantine census** (`Binomial`, `ClopperPearson`, `Wilson`, `Census`). Binomial tails, two
  bisections, the score interval and the verdict, over exact reals.
- **Artifact store** (`Artifact`, `Store`, `ArtifactStore`) and **capability registry**
  (`Capability`), both on `Indexing`: dictionaries of lists kept beside a log.
- **Script kernels**: the TLA+ value parser and trace matcher (`TlaText`, `TlaValues`,
  `TlaRoundTrip`, `TraceMatch`), the rate pacer (`Pacer`) and best-of-k selection (`BestOfK`).

Objects that the program updates in place are classes. Their methods are proved against functions
on values, and the run-level theorems are about those functions. Digests and signatures are
symbolic terms: digests do not collide, and a signature names its key and the value it signs.
Clocks, delays, guards, child processes, operating-system failures and the network are inputs.
Floating point is modelled by exact reals.

## Promises that do not hold

Where the code does less than it promises, the model follows the code, a lemma shows an input, and
another lemma gives the exact condition.

- The client's and the authority's counters are not always equal while the client is usable: a
  frame injected on the channel moves only one of them (`RpcProtocol.InjectionBreaksLockstep`). A
  run keeps them in step exactly when the authority takes a frame off a channel only while its
  client waits on a call not counted yet, or is past use (`RpcProtocol.LockstepIffTimely`, and
  `Handover.LockstepIffTimely` across endpoint transfers).
- A lock wait can end the authority. The backoff is computed as a float times a power of two and
  overflows at the 1025th wait without a success (`OutboxMonitor.LockWaitsAloneEndTheAuthority`,
  `OutboxMonitor.SurvivalCondition`).
- A spawn that fails before the scheduler is used hands the endpoint back and invites a retry, but
  the exit stack then closes that same socket, so no retry can start
  (`Lifecycle.RollbackRestores`, `Lifecycle.RolledBackSpawnNeverStarts`); a handle can still start
  exactly when it is ready with an open endpoint (`Lifecycle.CanStartIff`). A socket pair that
  cannot be created strands the handle in a starting phase (`Lifecycle.StrandedIff`,
  `Lifecycle.FailedSocketPairStrands`).
- Poisoning is not permanent for a client that is closed while its endpoint is away
  (`RpcClient.CloseWhileDetachedIsUndone`). It can be undone exactly then
  (`RpcClient.PoisonIsUndoneIff`), and no run of the lifecycle closes a client in that state
  (`Lifecycle.LockFreeFacts`).
- An ungoverned publication can reach a sealed store, because the sealed check and the store are
  separate lock regions (`Stores.SealCanBeOvertaken`, `Stores.LatePublicationIff`), and a port bound
  to the empty workflow is asked for nothing (`Stores.EmptyWorkflowIsNotVouchedFor`).
- A read without a workflow fetches the artifact and asks for its visibility in separate lock
  regions. When the empty workflow is bound in between while the artifact is unrevoked, and the
  artifact is hidden at the question, no moment in between answers as the read does
  (`Stores.UnscopedReadCanTear`). Otherwise some moment does (`Stores.UnscopedReadIsAtomicIff`), so
  always when only named workflows are bound (`Stores.NamedWorkflowsNeverTear`). A read in a
  workflow is always atomic (`Stores.ScopedReadIsAtomic`).
- A preference for cheap or fast capabilities does not always pick the cheapest or fastest one: a
  cost or latency of zero earns no bonus, so a free capability loses against any priced one
  (`Capabilities.FreeIsPassedOver`, `Capabilities.PreferredIsLeastIff`).
- A printed TLA+ function whose first argument and last result are sets is parsed as one set
  (`TlaRoundTrip.SetKeyIsMisread`, `TlaRoundTrip.ParseUndoesPrintIff`).
- Stopping at the first resolved candidate can lose the applied flag unless the harness resolves
  only what it applied (`BestOfK.EarlyStopCanDiffer`, `BestOfK.EarlyStopIff`).

## Model

| member | source | states |
|---|---|---|
| `Transcripts.SignedResponse` | src/constitutional_swarm/authority_ipc.py:120-145 | a response is signed exactly when one of result and error is given, and what is signed verifies for its transcript with exactly that result or error |
| `Transcripts.SignThenVerify` | src/constitutional_swarm/authority_ipc.py:120-207 | every response signed for a transcript is accepted under that transcript, with exactly the signed outcome |
| `Transcripts.VerifyPinsSignedBody` | src/constitutional_swarm/authority_ipc.py:171-207 | whatever passes verification is one body signed by that key for exactly the expected transcript, and its outcome is what the caller gets |
| `Transcripts.NoCrossTranscriptReplay` | src/constitutional_swarm/authority_ipc.py:177-190 | a response signed for one transcript is rejected under every other one |
| `Transcripts.TranscriptComparisonIsNumeric` | src/constitutional_swarm/authority_ipc.py:177-190 | the tuple comparison alone would accept a Boolean as sequence number one; only the signature excludes it |
| `Contention.IsTransientContention` | src/constitutional_swarm/authority_service.py:647-681 | terminates on every exception graph, cyclic ones included, and is true exactly when the error is a recovery error with a cause and everything reachable from that cause is SQLITE_BUSY |
| `Contention.MaskedFailureIsFatal` | src/constitutional_swarm/authority_service.py:656-681 | a busy error that masks another failure is not transient, even in a cycle |
| `Contention.BusyIff` | src/constitutional_swarm/authority_service.py:647-653 | busy are exactly the operational errors whose code is 5 plus a multiple of 256, of either sign; 6 (SQLITE_LOCKED) and its extensions never are |
| `OutboxMonitor.OutboxRecoveryMonitor.constructor` | src/constitutional_swarm/authority_service.py:701-705 | starts healthy and without failures, with the first run due one interval later |
| `OutboxMonitor.OutboxRecoveryMonitor.RequestRunNow` | src/constitutional_swarm/authority_service.py:707-709 | makes recovery due at once and changes nothing else |
| `OutboxMonitor.OutboxRecoveryMonitor.IsDue` | src/constitutional_swarm/authority_service.py:711-712 | true exactly when the clock has reached the scheduled time |
| `OutboxMonitor.OutboxRecoveryMonitor.RecordSuccess` | src/constitutional_swarm/authority_service.py:755-768 | clears the failure count and schedules the normal interval |
| `OutboxMonitor.OutboxRecoveryMonitor.RecordResult` | src/constitutional_swarm/authority_service.py:731-753 | a stalled outbox keeps the failure count, a drained one clears it |
| `OutboxMonitor.OutboxRecoveryMonitor.RecordTransient` | src/constitutional_swarm/authority_service.py:770-800 | counts the wait, doubles the delay up to the cap, escalates from the tenth wait on, and overflows beyond 1024 waits |
| `OutboxMonitor.OutboxRecoveryMonitor.RunOnce` | src/constitutional_swarm/authority_service.py:720-729 | one attempt refines one step of the history semantics, including the attempts that end the authority |
| `OutboxMonitor.StallIff` | src/constitutional_swarm/authority_service.py:731-739 | a run stalls exactly when it delivered nothing and left something pending; every other finished run is a success |
| `OutboxMonitor.CountsAreExact` | src/constitutional_swarm/authority_service.py:701-800 | over every history the failure count is the number of lock waits since the last success; stalls never reset it |
| `OutboxMonitor.HealthBoundsCount` | src/constitutional_swarm/authority_service.py:714-718 | ok means no failures, backing_off one to nine, escalated at least ten |
| `OutboxMonitor.DueIsEarliest` | src/constitutional_swarm/authority_service.py:701-800 | over every history the next run is due one second after the last success or stall, or after the backoff of the wait count, or at the earliest request since, whichever comes first |
| `OutboxMonitor.DueIff` | src/constitutional_swarm/authority_service.py:707-712 | recovery is due at a moment exactly when the last attempt or a request since allows it |
| `OutboxMonitor.SurvivalCondition` | src/constitutional_swarm/authority_service.py:691-697 | the authority survives a history exactly when nothing failed for another reason and no success-free stretch holds more than 1024 lock waits |
| `OutboxMonitor.LockWaitsAloneEndTheAuthority` | src/constitutional_swarm/authority_service.py:770-800 | 1025 lock waits in a row end the authority, 1024 do not: the documented promise that a lock wait never does is false |
| `OutboxMonitor.TotalDelayClosedForm` | src/constitutional_swarm/authority_service.py:105-107 | k waits in a row schedule 2^k - 1 seconds up to five waits and 31 + 30(k - 5) beyond |
| `OutboxMonitor.PunctualWaitsSchedule` | src/constitutional_swarm/authority_service.py:770-800 | a run of punctual waits is scheduled exactly by that total |
| `RpcClient.JsonClient.constructor` | src/constitutional_swarm/authority_service.py:1212-1231 | a bound child channel starts at sequence zero, unpoisoned, with its endpoint attached |
| `RpcClient.JsonClient.PoisonClient` | src/constitutional_swarm/authority_service.py:1131-1134 | poisons the client and closes its endpoint |
| `RpcClient.JsonClient.AuthenticatedRpc` | src/constitutional_swarm/authority_service.py:1136-1178 | an envelope without canonical encoding is refused and touches nothing; otherwise the client and the outcome are those of one call: counter, request sent, verdict on the answer, poisoning on every failure |
| `RpcClient.JsonClient.Close` | src/constitutional_swarm/authority_service.py:1180-1185 | closes the endpoint, if it is held, and poisons the client |
| `RpcClient.JsonClient.DetachSocket` | src/constitutional_swarm/authority_service.py:1187-1195 | gives the endpoint away only when it is held and unpoisoned, and leaves the client unusable |
| `RpcClient.JsonClient.ReattachSocket` | src/constitutional_swarm/authority_service.py:1197-1203 | takes an endpoint back only when none is held, and makes the client usable again |
| `RpcClient.JsonClient.Exchange` | src/constitutional_swarm/authority_service.py:1148-1178 | under the number just counted the reply is judged, and any failure poisons the client |
| `RpcClient.EnvelopeIsInjective` | src/constitutional_swarm/authority_service.py:1137-1143 | the digest that a reply answers names the operation and the whole request |
| `RpcClient.CounterCountsCalls` | src/constitutional_swarm/authority_service.py:1136-1205 | over every life of a client its counter is the number of calls that were not refused, and a call is refused exactly when the client is poisoned or holds no socket |
| `RpcClient.NextNumberCompletes` | src/constitutional_swarm/authority_service.py:1144-1178 | an authentic reply completes the call exactly when it carries the next number of the channel, and condemns the client otherwise |
| `RpcClient.ConsecutiveRepliesComplete` | src/constitutional_swarm/authority_service.py:1144-1178 | a client stays usable through any number of authentic replies exactly when they carry consecutive numbers |
| `RpcClient.CondemnedForever` | src/constitutional_swarm/authority_service.py:1131-1203 | after a failed exchange no sequence of calls, closes and transfers makes the client usable, and no later call sends or returns anything |
| `RpcClient.FailedExchangeCondemns` | src/constitutional_swarm/authority_service.py:1136-1178 | every exchange that fails other than by a signed error condemns the client |
| `RpcClient.TransferIsExclusive` | src/constitutional_swarm/authority_service.py:1187-1203 | at most one side holds the endpoint |
| `RpcClient.CloseWhileDetachedIsUndone` | src/constitutional_swarm/authority_service.py:1180-1203 | a client closed while its endpoint is away becomes usable again on reattachment |
| `RpcClient.PoisonIsUndoneIff` | src/constitutional_swarm/authority_service.py:1131-1203 | some sequence of operations makes a poisoned client usable again exactly when its endpoint is away |
| `ServingLoop.TurnRecordsFrame` | src/constitutional_swarm/authority_child.py:467-567 | a turn records at most one frame, on its own channel, with the next number of that channel |
| `ServingLoop.ChannelStaysOpenIff` | src/constitutional_swarm/authority_child.py:469-567 | a turn keeps its channel exactly when the frame was a request or malformed and something was sent for it, or signing the reply ended the child; every other channel is unchanged, and the recorded reply is what was sent |
| `ServingLoop.FaultIsNamed` | src/constitutional_swarm/authority_child.py:473-496 | the reply to an unreadable frame names its fault |
| `ServingLoop.TurnKeepsDropped` | src/constitutional_swarm/authority_child.py:543-567 | a channel that the log says was dropped is not open |
| `ServingLoop.TurnKeepsOrder` | src/constitutional_swarm/authority_child.py:467-574 | one turn keeps every counter equal to the frames taken off its channel and leaves no commit unpublished before the next request |
| `ServingLoop.IdleRecoveryKeepsOrder` | src/constitutional_swarm/authority_child.py:573-574 | the recovery between rounds keeps the same invariant |
| `ServingLoop.SettledCommitsAreOrdered` | src/constitutional_swarm/authority_child.py:505-574 | in a log with every commit settled, recovery follows each successful commit before any later request on any channel, and only after the reply was sent or the channel was dropped |
| `ServingLoop.AuthorityLoop.constructor` | src/constitutional_swarm/authority_child.py:462-467 | all three channels open, all counters zero |
| `ServingLoop.AuthorityLoop.RunRecoveryIfDue` | src/constitutional_swarm/authority_child.py:568-574 | recovery runs exactly when it is due and touches no channel |
| `ServingLoop.AuthorityLoop.ServeFrameError` | src/constitutional_swarm/authority_child.py:473-500 | a frame error is counted and answered; an oversized frame or a failed reply drops the channel |
| `ServingLoop.AuthorityLoop.ServeRequestFrame` | src/constitutional_swarm/authority_child.py:505-572 | a request is counted, dispatched, answered, dropped or fatal, and followed by recovery when due, as the turn specifies whose channel `ServingLoop.ChannelStaysOpenIff` and whose record `ServingLoop.TurnRecordsFrame` determine |
| `ServingLoop.AuthorityLoop.ServeConnection` | src/constitutional_swarm/authority_child.py:469-572 | one readable connection refines one turn of the loop |
| `ServingLoop.AuthorityLoop.ServeRound` | src/constitutional_swarm/authority_child.py:468-574 | one round: the readable connections that are still there, in order, until the child stops, then the idle recovery |
| `ServingLoop.AuthorityLoop.Serve` | src/constitutional_swarm/authority_child.py:467-574 | for every script of rounds the loop ends in the specified state, with counters consistent, every commit published before the next request, dropped channels closed and no channel opened |
| `ServingLoop.RoundsAreSafe` | src/constitutional_swarm/authority_child.py:467-574 | over every script of rounds the counters are the frames taken off each channel, every commit is answered and published before the next request, a dropped channel stays closed, and no channel opens |
| `ServingLoop.ClosedIsNotRead` | src/constitutional_swarm/authority_child.py:467-567 | once a channel is gone, no script of rounds takes another frame off it |
| `ServingLoop.RecoveryFollows` | src/constitutional_swarm/authority_child.py:568-574 | a recovery is made exactly when the monitor says it is due, and is the next attempt of its history |
| `ServingLoop.RoundRecoversIff` | src/constitutional_swarm/authority_child.py:573-574 | a round ends with a recovery exactly when one is due then and the child still runs, also when nothing was readable |
| `ServingLoop.LoopFollowsMonitor` | src/constitutional_swarm/authority_child.py:462-574 | over every script the monitor is the replay of a history with one request per commit and one attempt per recovery in the log, and a replay that ended has stopped the child |
| `RpcProtocol.CallIsAskThenReceive` | src/constitutional_swarm/authority_service.py:1136-1178 | between calls, a whole call of a usable client is the two protocol steps: it leaves the client and the outcome that asking and then receiving leave, and nothing else changes |
| `RpcProtocol.VerifiedComesFromFrame` | src/constitutional_swarm/authority_ipc.py:148-207 | whatever the network delivers, a response that verifies is the authority's reply to this request, as the frame with this number on this channel |
| `RpcProtocol.StepKeepsInv` | src/constitutional_swarm/authority_service.py:1136-1178 | every step of clients, network and authority keeps the protocol invariant |
| `RpcProtocol.ReachableInv` | src/constitutional_swarm/authority_child.py:467-567 | the invariant holds in every reachable state of a network that drops, replays, reorders and injects |
| `RpcProtocol.NthCallIsNthFrame` | src/constitutional_swarm/authority_service.py:1136-1178 | in every run the n-th call of a client either returns what the handler returned for that same request as the n-th frame of that channel, or a signed error, or leaves the client condemned |
| `RpcProtocol.CallsArePrefixOfFrames` | src/constitutional_swarm/authority_child.py:471-506 | the calls of an unpoisoned client are a prefix of the frames taken off its channel, each with the reply sent for that frame, so the authority never falls behind |
| `RpcProtocol.InjectionBreaksLockstep` | src/constitutional_swarm/authority_child.py:471-474 | one injected frame moves the authority counter past that of a client that stays usable: equality of the counters is not an invariant |
| `RpcProtocol.TurnInStepIff` | src/constitutional_swarm/authority_child.py:471-506 | from a state in lockstep a turn keeps the counters in step exactly when it is timely: the connection breaks, or the caller is past use, or the caller waits on a call not counted yet |
| `RpcProtocol.CallerInStep` | src/constitutional_swarm/authority_service.py:1136-1178 | sending a request and receiving anything at all keep the counters in step |
| `RpcProtocol.LockstepIffTimely` | src/constitutional_swarm/authority_service.py:1136-1178 | a run stays in lockstep after each of its actions exactly when every turn of the authority is timely |
| `RpcProtocol.HonestExchangeCompletes` | src/constitutional_swarm/authority_service.py:1136-1178 | when request and reply are delivered, the call completes with the handler's outcome and both sides are in lockstep again |
| `Handover.ClientsStay` | src/constitutional_swarm/authority_service.py:3505-3545 | a child that received an endpoint keeps it: no later operation hands it to another one |
| `Handover.OperateKeepsSystem` | src/constitutional_swarm/authority_service.py:3505-3545 | a lifecycle operation, transfer included, leaves counters and calls as they are: the fresh client of the child starts where the silent one stood |
| `Handover.NoCallPrecedesTransfer` | src/constitutional_swarm/authority_service.py:2709-2720 | in every joint run of lifecycle and protocol, under any network, nothing was called on a channel before its transfer, and the n-th call of a child is the n-th frame of its channel |
| `Handover.LockstepIffTimely` | src/constitutional_swarm/authority_service.py:3505-3545 | a joint run of lifecycle operations, transfers and network actions stays in lockstep exactly when every turn of the authority is timely |
| `Handover.TransferKeepsLockstep` | src/constitutional_swarm/authority_service.py:4001-4016 | in every joint run with timely turns both counters are zero until the transfer and agree between calls after it |
| `Framing.PackRoundTrip` | src/constitutional_swarm/authority_ipc.py:98-102 | a four-byte length header decodes to the length it encodes |
| `Framing.HeaderIsBigEndian` | src/constitutional_swarm/authority_ipc.py:98-102 | the most significant byte of the length comes first |
| `Framing.Connection.RecvExact` | src/constitutional_swarm/authority_ipc.py:72-80 | for every chunking, returns exactly the next bytes of the stream or fails because it ended |
| `Framing.Connection.SendFrame` | src/constitutional_swarm/authority_ipc.py:94-98 | appends header and payload, or refuses an oversized value and sends nothing |
| `Framing.Connection.RecvFrame` | src/constitutional_swarm/authority_ipc.py:101-110 | refines reading one frame from the byte stream, with its four outcomes |
| `Framing.Connection.RecvAll` | src/constitutional_swarm/authority_ipc.py:72-110 | however the bytes are cut, the frames sent are the frames received, in order, when the decoder accepts each of them, and nothing after them is touched |
| `Framing.FrameRoundTrip` | src/constitutional_swarm/authority_ipc.py:94-110 | reading stops right after a sent frame and yields the value sent exactly when the decoder accepts its encoding |
| `Framing.RefusedIff` | src/constitutional_swarm/authority_ipc.py:101-108 | a frame is too large exactly when its header announces more than the limit, with only the header consumed, and incomplete exactly when the stream ends inside its header or its payload |
| `Framing.SentFrameIsRefusedIff` | src/constitutional_swarm/authority_ipc.py:94-104 | a reader with its own limit refuses exactly the sent frames above it |
| `Framing.ReadLandsOnBoundary` | src/constitutional_swarm/authority_ipc.py:101-110 | a complete frame, readable or not, leaves the reader on the next boundary |
| `Framing.BadFramesDropChannel` | src/constitutional_swarm/authority_child.py:471-504 | oversized and truncated frames drop the channel |
| `Framing.OpenMeansOnBoundary` | src/constitutional_swarm/authority_child.py:471-504 | after any sequence of frame outcomes the channel is gone or its next read starts on a boundary |
| `ControlledBoot.BuildableIff` | src/constitutional_swarm/authority_isolation.py:38-87 | exactly which phase and consumed flag give a record that all checks accept |
| `Lifecycle.LifecycleSafety` | src/constitutional_swarm/authority_service.py:3403-3590 | in every run of spawns, observer starts, deaths, polls and closes with a failure injected anywhere: every boot record is acceptable, each endpoint has one owner, publishable evidence comes only through a ready observer, a started scheduler never changes its kind, failed and closed are absorbing |
| `Lifecycle.LockFreeFacts` | src/constitutional_swarm/authority_service.py:3414-3427 | whenever the lock is free, closed holds exactly in a terminal phase, at most one executor and one observer were ever admitted, the supervisor called nothing on the transferable channels, and no client was ever closed while its endpoint was away |
| `Lifecycle.RunInv` | src/constitutional_swarm/authority_service.py:3385-3590 | the lifecycle invariant holds after every run |
| `Lifecycle.SpawnInv` | src/constitutional_swarm/authority_service.py:3461-3545 | spawning keeps the lifecycle invariant at every failure point |
| `Lifecycle.StartObserverInv` | src/constitutional_swarm/authority_service.py:3846-3912 | starting the observer keeps the lifecycle invariant at every failure point |
| `Lifecycle.CloseInv` | src/constitutional_swarm/authority_service.py:3559-3590 | closing keeps the lifecycle invariant |
| `Lifecycle.RefreshInv` | src/constitutional_swarm/authority_service.py:3385-3401 | a liveness poll keeps the lifecycle invariant |
| `Lifecycle.ComponentFailedInv` | src/constitutional_swarm/authority_service.py:3403-3412 | a component death keeps the lifecycle invariant |
| `Lifecycle.CallbacksAreIgnored` | src/constitutional_swarm/authority_service.py:3403-3453 | the close callbacks made while a cleanup runs change nothing |
| `Lifecycle.DeathEnds` | src/constitutional_swarm/authority_service.py:3403-3427 | a component death fails every handle that has not ended: failed, closed, both slots empty, the consumed flag kept; and changes nothing in a terminal phase |
| `Lifecycle.PollEndsIff` | src/constitutional_swarm/authority_service.py:3385-3401 | a poll fails the handle so exactly when the authority, the scheduler or an admitted observer is dead, and changes nothing otherwise |
| `Lifecycle.CloseEnds` | src/constitutional_swarm/authority_service.py:3559-3590 | a close ends closed or failed by whether everything could be released, with both slots empty; closing again keeps the record |
| `Lifecycle.RunEnds` | src/constitutional_swarm/authority_service.py:3385-3412 | no run with a component death, a close or a poll of a dead authority or scheduler in it ends in a phase that is not terminal or still holds an endpoint |
| `Lifecycle.OneActivation` | src/constitutional_swarm/authority_service.py:2866-2923 | a second activation of the scheduler hands over nothing and admits nobody |
| `Lifecycle.SpawnRefusals` | src/constitutional_swarm/authority_service.py:3461-3485 | exactly why a spawn is refused; the refusal for a starting observer is never seen |
| `Lifecycle.ObserverRefusals` | src/constitutional_swarm/authority_service.py:3846-3870 | exactly why an observer start is refused, and that a refusal changes nothing |
| `Lifecycle.GoodTrailIsLegal` | src/constitutional_swarm/authority_service.py:3461-3590 | every change of phase in a run follows an edge of the phase graph |
| `Lifecycle.PublishableThroughObserver` | src/constitutional_swarm/authority_service.py:3474-3483 | a publishable started phase is preceded by a ready observer and by the publishable starting phase |
| `Lifecycle.FinalPhasesStay` | src/constitutional_swarm/authority_service.py:3403-3411 | failed and closed are followed by nothing else, and a started scheduler only by a terminal phase |
| `Lifecycle.SpawnSucceedsIff` | src/constitutional_swarm/authority_service.py:3461-3530 | exactly when a spawn starts the scheduler |
| `Lifecycle.CanStartIff` | src/constitutional_swarm/authority_service.py:3461-3545 | some later run starts the scheduler exactly when it is started already, or the handle is ready and its execution endpoint is open |
| `Lifecycle.ObserverStartsIff` | src/constitutional_swarm/authority_service.py:3846-3912 | exactly when an observer start admits the observer |
| `Lifecycle.ObserverRollbackIff` | src/constitutional_swarm/authority_service.py:3892-3911 | an observer start restores the whole handle exactly when it fails before the endpoint is detached with the controller key still at its source; every other failure fails it, on record with whether the key was consumed |
| `Lifecycle.RollbackRestores` | src/constitutional_swarm/authority_service.py:3536-3545 | a spawn that fails before the scheduler is used restores the identical boot record and every other field, except that the exit stack has closed the reattached endpoint |
| `Lifecycle.RolledBackSpawnNeverStarts` | src/constitutional_swarm/authority_service.py:3500-3545 | after a spawn that was rolled back no later run of the handle ever reaches a started phase: the retry it invites cannot work |
| `Lifecycle.StrandedIff` | src/constitutional_swarm/authority_service.py:3500-3502 | a spawn strands the handle exactly when the handle was ready, every component was alive, all arguments were in order and the socket pair could not be created |
| `Lifecycle.FailedSocketPairStrands` | src/constitutional_swarm/authority_service.py:3500-3502 | from that failure on every run keeps the starting record or ends in a terminal phase |
| `Lifecycle.StrandedStaysStranded` | src/constitutional_swarm/authority_service.py:3474-3485 | no run leads from a starting phase to anything but a terminal phase |
| `Lifecycle.TerminalStays` | src/constitutional_swarm/authority_service.py:3559-3590 | no run changes the boot record of a handle in a terminal phase |
| `LifecycleHandle.DormantScheduler.Activate` | src/constitutional_swarm/authority_service.py:2866-2923 | one activation at most, marked used before and transferred after the descriptors are sent |
| `LifecycleHandle.AuthorityServiceHandle.constructor` | src/constitutional_swarm/authority_service.py:3264-3299 | the handle starts ready with both endpoints held |
| `LifecycleHandle.AuthorityServiceHandle.CleanupOwned` | src/constitutional_swarm/authority_service.py:3429-3453 | closes both channels, poisoning their clients and closing the sockets they hold, and forgets them |
| `LifecycleHandle.AuthorityServiceHandle.FailLifecycle` | src/constitutional_swarm/authority_service.py:3414-3427 | on the heap objects, failing equals the failing step of the model and closes both channels |
| `LifecycleHandle.AuthorityServiceHandle.OnComponentFailed` | src/constitutional_swarm/authority_service.py:3403-3412 | a component death is ignored in a terminal phase; otherwise it fails the handle and closes both channels |
| `LifecycleHandle.AuthorityServiceHandle.RefreshLiveness` | src/constitutional_swarm/authority_service.py:3385-3401 | a poll equals the polling step of the model |
| `LifecycleHandle.AuthorityServiceHandle.CloseHandle` | src/constitutional_swarm/authority_service.py:3559-3590 | closing, also twice and after a failure, equals the closing step of the model, and the first close closes both channels |
| `LifecycleHandle.AuthorityServiceHandle.SendEndpoint` | src/constitutional_swarm/authority_service.py:3507-3521 | the activation call, at each of its failure points |
| `LifecycleHandle.AuthorityServiceHandle.AdmitExecutor` | src/constitutional_swarm/authority_service.py:3522-3533 | from the accepted activation to the admitted executor |
| `LifecycleHandle.AuthorityServiceHandle.Recover` | src/constitutional_swarm/authority_service.py:3536-3545 | the except block of a spawn |
| `LifecycleHandle.AuthorityServiceHandle.ExitStack` | src/constitutional_swarm/authority_service.py:3501-3506 | the exit stack closes the shared socket object, also when the client was just given it back |
| `LifecycleHandle.AuthorityServiceHandle.SpawnExecutor` | src/constitutional_swarm/authority_service.py:3461-3545 | spawning on heap objects, with the aliased socket, equals the spawning step of the model |
| `LifecycleHandle.AuthorityServiceHandle.StartObserverTransaction` | src/constitutional_swarm/authority_service.py:3846-3912 | the observer transaction on heap objects equals its step of the model |
| `LifecycleHandle.AuthorityServiceHandle.AbortObserverStart` | src/constitutional_swarm/authority_service.py:3892-3911 | the except block of the observer transaction |
| `LifecycleHandle.AuthorityServiceHandle.AdmitObserver` | src/constitutional_swarm/authority_service.py:3882-3891 | watching, announcing and checking the started observer once more |
| `Binomial.BinomCdf` | src/constitutional_swarm/byzantine_census.py:141-164 | the loop, its shortcuts and its clamp all compute the probability of at most x successes, and the clamp never acts |
| `Binomial.SumIsAtMost` | src/constitutional_swarm/byzantine_census.py:154-164 | the sum of binomial terms is the probability defined trial by trial |
| `Binomial.ChooseIsFactorialRatio` | src/constitutional_swarm/byzantine_census.py:156-160 | the factorial coefficients count what the recursion over trials counts |
| `Binomial.AtMostGrows` | src/constitutional_swarm/byzantine_census.py:141-164 | more allowed successes, larger probability |
| `Binomial.AtMostShrinks` | src/constitutional_swarm/byzantine_census.py:141-164 | likelier successes, smaller probability of few of them |
| `ClopperPearson.BisectBound` | src/constitutional_swarm/byzantine_census.py:167-191 | the hundred-step loop computes the recursive bisection of its tail test |
| `ClopperPearson.ClopperPearsonInterval` | src/constitutional_swarm/byzantine_census.py:204-208 | both bounds, with the exact ends for no and for all tampered |
| `ClopperPearson.BisectionsNeverCross` | src/constitutional_swarm/byzantine_census.py:167-191 | after every number of steps the brackets of two independent bisections are the same or ordered, and so are the bounds they return |
| `ClopperPearson.IntervalIsOrdered` | src/constitutional_swarm/byzantine_census.py:204-208 | for every sample and confidence the interval is ordered and lies in [0, 1] |
| `ClopperPearson.BoundsGrowWithCount` | src/constitutional_swarm/byzantine_census.py:204-208 | one more tampered node in the same sample lowers neither bound |
| `ClopperPearson.IntervalsNest` | src/constitutional_swarm/byzantine_census.py:204-208 | more confidence, wider interval |
| `ClopperPearson.BisectFindsCrossing` | src/constitutional_swarm/byzantine_census.py:167-191 | the bisection separates the two sides of its test to within half of the last bracket |
| `ClopperPearson.BoundsAreExact` | src/constitutional_swarm/byzantine_census.py:204-208 | below the lower bound this many tampered nodes are too unlikely, above the upper bound this few are, and between the bounds neither is, up to 2^-101 |
| `ClopperPearson.TooHighIsRare` | src/constitutional_swarm/byzantine_census.py:204-208 | the counts whose interval lies below the true fraction have together at most half of the probability the confidence leaves |
| `ClopperPearson.TooLowIsRare` | src/constitutional_swarm/byzantine_census.py:204-208 | so have the counts whose interval lies above it |
| `ClopperPearson.CoverageHolds` | src/constitutional_swarm/byzantine_census.py:204-208 | coverage: for every sample size, confidence and true fraction, the interval, widened by 2^-101, contains the fraction with at least the stated confidence |
| `Wilson.IntervalIsRegion` | src/constitutional_swarm/byzantine_census.py:194-201 | before the clamps the interval is exactly the set of fractions the score test accepts |
| `Wilson.ScoreIsRegion` | src/constitutional_swarm/byzantine_census.py:194-201 | the clamps never act, the interval contains the observed fraction and is the whole acceptance region |
| `Wilson.AcceptsIsRegion` | src/constitutional_swarm/byzantine_census.py:194-201 | the region is what the score test accepts: the count lies within z standard deviations of its expectation |
| `Wilson.ScoreGrowsWithCount` | src/constitutional_swarm/byzantine_census.py:194-201 | one more tampered node in the same sample lowers neither bound |
| `Wilson.ScoresNest` | src/constitutional_swarm/byzantine_census.py:194-201 | a larger quantile, a wider interval |
| `Census.Check` | src/constitutional_swarm/byzantine_census.py:250-264 | accepts exactly the samples and parameters in their domains |
| `Census.Estimate` | src/constitutional_swarm/byzantine_census.py:211-288 | the first violated domain check is reported; otherwise the observed fraction, an ordered interval inside [0, 1] and the verdict. The returned Wilson interval holds exactly the fractions the score test accepts and its verdict is safe or violated exactly when all of them are below, or at or above, the threshold; the returned exact interval and verdict satisfy both tail equations up to the last bracket |
| `Census.VerdictNeverImproves` | src/constitutional_swarm/byzantine_census.py:271-276 | for either method one more tampered node never moves the verdict toward safe |
| `Census.WilsonVerdictMeaning` | src/constitutional_swarm/byzantine_census.py:271-276 | safe exactly when every accepted fraction is below the threshold, violated exactly when every one is at or above it |
| `Census.ClopperPearsonVerdictMeaning` | src/constitutional_swarm/byzantine_census.py:271-276 | what a safe and a violated exact verdict rule out |
| `Census.WrongVerdictsAreRare` | src/constitutional_swarm/byzantine_census.py:271-276 | for every sample size and true fraction beyond the slack, the exact method reports safe above the threshold, or violated below it, with probability at most half of what the confidence leaves |
| `Census.Pool` | src/constitutional_swarm/byzantine_census.py:317-329 | counts each agent once with its last verdict, and refuses a trust report anywhere |
| `Census.FromDecisions` | src/constitutional_swarm/byzantine_census.py:291-341 | a trust report anywhere is refused; otherwise the full estimate with the same meaning, or its first refusal, for the number of agents and of those whose last verdict is tampered |
| `Indexing.AppendedIndexes` | src/constitutional_swarm/capability.py:60-62 | appending to the list of an entry's key keeps the index the filter of the longer sequence |
| `Capabilities.CapabilityRegistry.constructor` | src/constitutional_swarm/capability.py:48-52 | an empty registry with empty, correct indexes |
| `Capabilities.CapabilityRegistry.Register` | src/constitutional_swarm/capability.py:54-62 | replaces the agent at the end of the order; both indexes are exactly the filters of all entries again |
| `Capabilities.CapabilityRegistry.UnregisterAgent` | src/constitutional_swarm/capability.py:64-77 | removes the agent; both indexes are exactly the filters of the remaining entries, with no empty list left |
| `Capabilities.Drop` | src/constitutional_swarm/capability.py:73-77 | one inner step of the removal clears one key |
| `Capabilities.CapabilityRegistry.FindByDomain` | src/constitutional_swarm/capability.py:79-82 | the lookup equals filtering every agent in order |
| `Capabilities.CapabilityRegistry.FindByName` | src/constitutional_swarm/capability.py:84-87 | the case-insensitive lookup equals filtering every agent in order |
| `Capabilities.CapabilityRegistry.FindBest` | src/constitutional_swarm/capability.py:89-122 | with a domain the indexed search returns the first best of a scan of every agent; an empty domain counts as none |
| `Capabilities.BestAt` | src/constitutional_swarm/capability.py:113-122 | the maximum is the first of the best scores |
| `Capabilities.FirstBestIsUnique` | src/constitutional_swarm/capability.py:113-122 | there is one first best |
| `Capabilities.MatchesIff` | src/constitutional_swarm/capability.py:26-36 | a capability matches exactly when the lower-cased requirement is part of its lower-cased name, domain, description or one of its tags |
| `Capabilities.PreferredIsLeastIff` | src/constitutional_swarm/capability.py:113-122 | with one preference the winner has the least cost, or latency, exactly when every candidate has a positive one, or none has and the first is the least |
| `Capabilities.FreeIsPassedOver` | src/constitutional_swarm/capability.py:113-122 | a free capability loses against any priced one when cheap ones are preferred |
| `Capabilities.ReplayIsSurviving` | src/constitutional_swarm/capability.py:54-77 | after any history the roster holds exactly the registrations no later operation about the agent overrides, in order |
| `Artifacts.FreezeFreezes` | src/constitutional_swarm/artifact.py:66-71 | freezing makes a value immutable all the way down exactly when it holds no arbitrary object, which no canonical value does, and keeps it canonical or not |
| `Artifacts.FrozenIff` | src/constitutional_swarm/artifact.py:66-71 | frozen means that nothing reachable inside, at any depth, is a list, a dictionary or an arbitrary object |
| `Artifacts.CanonicalIff` | src/constitutional_swarm/artifact.py:29-63 | accepted as canonical means that everything reachable inside is encodable: finite numbers, text keys, no arbitrary object |
| `Artifacts.ThawThenFreeze` | src/constitutional_swarm/artifact.py:66-79 | thawing a frozen value and freezing it again gives it back |
| `Artifacts.RoundTripIff` | src/constitutional_swarm/artifact.py:66-79 | freezing and thawing gives a value back exactly when it holds dictionaries and lists only |
| `Artifacts.ConstructedIsWellFormed` | src/constitutional_swarm/artifact.py:113-119 | what the constructor accepts is frozen and canonical |
| `Artifacts.RebuildIsIdentity` | src/constitutional_swarm/artifact.py:121-134 | rebuilding an artifact from its canonical dictionary gives an equal artifact |
| `Artifacts.HashIsInjective` | src/constitutional_swarm/artifact.py:121-139 | two artifacts have the same content hash exactly when they are equal in every field |
| `Stores.RunIsSound` | src/constitutional_swarm/artifact.py:192-405 | in every interleaving of lock regions log, entries, digests, seals and capabilities agree |
| `Stores.StepGrows` | src/constitutional_swarm/artifact.py:192-405 | every step keeps what was there, and a refused one changes nothing |
| `Stores.RunGrows` | src/constitutional_swarm/artifact.py:192-405 | in every run log, artifacts, digests, revocations, seals and the first guard of each workflow only grow |
| `Stores.RevokedStaysHidden` | src/constitutional_swarm/artifact.py:353-367 | once revoked, an artifact is in no later answer, whatever the guards say |
| `Stores.RevocationIff` | src/constitutional_swarm/artifact.py:353-367 | a revocation is accepted exactly in an unsealed store, or with the capability of its workflow, and then adds exactly its key |
| `Stores.RevokedIff` | src/constitutional_swarm/artifact.py:353-367 | in every run the revoked keys are exactly those of the accepted revocations |
| `Stores.RevocationHides` | src/constitutional_swarm/artifact.py:211-244 | from an accepted revocation on, no read by key, without a workflow, or by task, domain or agent returns the artifact |
| `Stores.ArtifactIff` | src/constitutional_swarm/artifact.py:275-305 | in every run what is stored under a key is what exactly one accepted publication stored there |
| `Stores.GuardIff` | src/constitutional_swarm/artifact.py:192-209 | in every run the guard of a workflow is the one its first binding named |
| `Stores.VisibleIff` | src/constitutional_swarm/artifact.py:211-244 | in every run a read in a workflow returns an artifact exactly when some step stored it there, no accepted step revoked it, and the guard first bound, if any, answers that it allows it |
| `Stores.VerifyAcrossIff` | src/constitutional_swarm/artifact.py:417-429 | in every run an integrity check succeeds exactly when the artifact was stored by its first lock region and is visible at its second |
| `Stores.VisibleIsIntact` | src/constitutional_swarm/artifact.py:417-429 | without anything in between, the check succeeds exactly on the visible artifacts |
| `Stores.TamperingIsDetected` | src/constitutional_swarm/artifact.py:417-429 | an artifact put in the place of a visible one passes the check exactly when it is equal to it |
| `Stores.ReadAcross` | src/constitutional_swarm/artifact.py:332-351 | a read that fetches at one moment of a run and asks at a later one returns an artifact exactly when it was stored by the fetch and is visible at the question; without a workflow it is withheld exactly when a governed artifact had the id at the fetch |
| `Stores.ScopedReadIsAtomic` | src/constitutional_swarm/artifact.py:332-351 | a read in a workflow answers as one read at the question or, when the artifact was stored in between, as one at the fetch |
| `Stores.UnscopedReadIsAtomicIff` | src/constitutional_swarm/artifact.py:332-351 | a read without workflow answers as one read at some moment from its fetch to its question, except exactly when the ungoverned artifact it found is hidden at the question and the empty workflow was bound in between while that artifact was unrevoked |
| `Stores.NamedWorkflowsNeverTear` | src/constitutional_swarm/artifact.py:332-351 | while the empty workflow is not bound, every read without workflow answers as one read at some moment in between |
| `Stores.UnscopedReadCanTear` | src/constitutional_swarm/artifact.py:332-351 | that exception happens: the guard of the newly bound empty workflow denies, the read misses, and no moment from fetch to question answers so: the artifact is found before and withheld after |
| `Stores.UnscopedGet` | src/constitutional_swarm/artifact.py:332-351 | a read without workflow is withheld exactly when a governed artifact has the id, and otherwise reads the ungoverned one; several matches never happen |
| `Stores.QueryIsExact` | src/constitutional_swarm/artifact.py:369-391 | a task, domain or agent query answers with exactly the stored, unrevoked, allowed artifacts with that value |
| `Stores.ShownCounts` | src/constitutional_swarm/artifact.py:431-436 | the number shown is the number of visible keys |
| `Stores.ShownConcat` | src/constitutional_swarm/artifact.py:211-239 | answers come in the order of the keys asked for |
| `Stores.PortIsConfined` | src/constitutional_swarm/artifact.py:275-291 | now and later a port can revoke in no other workflow, and its capability is refused for publishing there exactly when that workflow has a name |
| `Stores.StoredIff` | src/constitutional_swarm/artifact.py:275-305 | a publication is stored exactly when the workflow is empty or capability and guard vouch for it, the key is new and the artifact has a canonical form |
| `Stores.WatchersAreAdded` | src/constitutional_swarm/artifact.py:393-415 | in every run the watchers of a scope and key are the accepted registrations for them, in order |
| `Stores.BindIff` | src/constitutional_swarm/artifact.py:192-209 | a binding is refused exactly when the workflow is sealed under another id |
| `Stores.BoundPortWorks` | src/constitutional_swarm/artifact.py:192-305 | the capability a binding hands out is accepted ever after for revoking and publishing, and a vouched, new, canonical publication is stored and calls the watchers of its task and then those of its domain |
| `Stores.GovernedWereVouchedFor` | src/constitutional_swarm/artifact.py:275-305 | in every run each artifact of a named workflow was published with its capability while its guard allowed it |
| `Stores.EmptyWorkflowIsNotVouchedFor` | src/constitutional_swarm/artifact.py:280-291 | a port bound to the empty workflow publishes without capability or guard |
| `Stores.SealedIffBound` | src/constitutional_swarm/artifact.py:192-209 | the store is sealed exactly from the first binding on |
| `Stores.LatePublicationIff` | src/constitutional_swarm/artifact.py:257-273 | an ungoverned publication whose check passed reaches a sealed store exactly when a workflow is bound between its check and its store |
| `Stores.SealCanBeOvertaken` | src/constitutional_swarm/artifact.py:257-273 | that interleaving stores an artifact an unscoped read finds and no revocation can reach |
| `Stores.SealedUngovernedCannotBeRevoked` | src/constitutional_swarm/artifact.py:353-367 | in a sealed store the revocation of an ungoverned key never changes unless the empty workflow is bound |
| `ArtifactStores.TwoPhasesShow` | src/constitutional_swarm/artifact.py:211-239 | collecting under the lock and asking guards outside it shows exactly the visible artifacts |
| `ArtifactStores.ArtifactStore.constructor` | src/constitutional_swarm/artifact.py:175-186 | an empty store with empty, correct indexes |
| `ArtifactStores.ArtifactStore.BindGoverned` | src/constitutional_swarm/artifact.py:192-209 | binding, rebinding and conflict; the first guard stays |
| `ArtifactStores.ArtifactStore.PublishDeferred` | src/constitutional_swarm/artifact.py:275-305 | stores in the dictionary and all four indexes, or refuses and changes nothing; the callbacks are those of the task, then those of the domain |
| `ArtifactStores.ArtifactStore.PublishUngoverned` | src/constitutional_swarm/artifact.py:264-273 | refused in a sealed store, otherwise stored under the empty workflow |
| `ArtifactStores.ArtifactStore.RevokeArtifact` | src/constitutional_swarm/artifact.py:353-358 | refused in a sealed store, otherwise marks the key |
| `ArtifactStores.ArtifactStore.RevokeProjected` | src/constitutional_swarm/artifact.py:360-367 | marks the key only with the capability of the workflow |
| `ArtifactStores.ArtifactStore.AddWatcher` | src/constitutional_swarm/artifact.py:393-405 | appends the watcher; a sealed store demands a workflow |
| `ArtifactStores.ArtifactStore.Snapshot` | src/constitutional_swarm/artifact.py:211-222 | the stored, unrevoked keys with their guards, in order |
| `ArtifactStores.ArtifactStore.Resolve` | src/constitutional_swarm/artifact.py:224-239 | keeps what its guard allows; a guard that raises refuses |
| `ArtifactStores.ArtifactStore.GetByTask` | src/constitutional_swarm/artifact.py:369-375 | the publication log filtered by task and visibility, in order: exactly the visible artifacts of the workflow with that task |
| `ArtifactStores.ArtifactStore.GetByDomain` | src/constitutional_swarm/artifact.py:377-383 | the publication log filtered by domain and visibility, in order: exactly the visible artifacts of the workflow with that domain |
| `ArtifactStores.ArtifactStore.GetByAgent` | src/constitutional_swarm/artifact.py:385-391 | the publication log filtered by agent and visibility, in order: exactly the visible artifacts of the workflow with that agent |
| `ArtifactStores.ArtifactStore.Count` | src/constitutional_swarm/artifact.py:431-436 | the number of visible keys |
| `ArtifactStores.ArtifactStore.FetchArtifact` | src/constitutional_swarm/artifact.py:336-348 | the first lock region selects the key and takes the artifact stored under it |
| `ArtifactStores.ArtifactStore.FinishRead` | src/constitutional_swarm/artifact.py:349-351 | the second region asks for visibility and hands out an equal copy of what was fetched |
| `ArtifactStores.ArtifactStore.GetArtifact` | src/constitutional_swarm/artifact.py:332-351 | with nothing in between, the two regions are one read of the publication log |
| `ArtifactStores.ArtifactStore.Verify` | src/constitutional_swarm/artifact.py:417-429 | compares the digest of what is stored with the sealed one, whatever the state of the store; in a store that nobody tampered with, true exactly for visible keys |
| `TlaText.NormalizedNeat` | scripts/run_tlc_expected_witness.py:68-69 | normalising leaves text with single inner spaces alone |
| `TlaText.StripOuterParentheses` | scripts/run_tlc_expected_witness.py:72-88 | the loop strips exactly the enclosing pairs: the result is enclosed by none and has no outer white space |
| `TlaText.SplitTopLevel` | scripts/run_tlc_expected_witness.py:91-132 | the scanning loop computes the split of its specification |
| `TlaText.Rejoin` | scripts/run_tlc_expected_witness.py:91-132 | putting the separators back between the unstripped pieces gives the text |
| `TlaText.SplitIsSound` | scripts/run_tlc_expected_witness.py:91-132 | the pieces rejoin to the text; each but the last closes every quote, parenthesis, brace and tuple it opens; no piece can be split further |
| `TlaRoundTrip.SplitEntry` | scripts/run_tlc_expected_witness.py:91-147 | a printed entry splits at its arrow into its argument and its result |
| `TlaRoundTrip.SplitEntries` | scripts/run_tlc_expected_witness.py:91-140 | a printed function splits into exactly its entries |
| `TlaRoundTrip.SplitMembers` | scripts/run_tlc_expected_witness.py:135-139 | a printed set is read as the set of its member texts |
| `TlaRoundTrip.ParseOfFunc` | scripts/run_tlc_expected_witness.py:135-148 | a printed function is read entry by entry, unless it looks like one set |
| `TlaRoundTrip.ParseUndoesPrintIff` | scripts/run_tlc_expected_witness.py:135-151 | every printed value, however nested, parses to what it stands for exactly when no function reached through results has a set as first argument and as last result |
| `TlaRoundTrip.SetKeyIsMisread` | scripts/run_tlc_expected_witness.py:135-139 | a function from one singleton set to another is read as a set |
| `TraceMatch.TraceIsCompleteAndOrdered` | scripts/run_tlc_expected_witness.py:178-238 | accepts exactly the traces numbered from one that start at the initial predicate and contain the five milestones at some strictly increasing later states |
| `TraceMatch.MilestoneOrder` | scripts/run_tlc_expected_witness.py:192-238 | of all traces that reach five of the milestones one by one, the one that commits root, child and leaf, revokes e2 and rejects c2 is the only one accepted |
| `TraceMatch.CommittedIff` | scripts/run_tlc_expected_witness.py:199-213 | a commit counts exactly with the expected node, commit, executor and attempt, an accepted commit, a governed node and a committed decision |
| `TraceMatch.RevokedIff` | scripts/run_tlc_expected_witness.py:217-225 | a revocation counts exactly when it made e2 ineligible at epoch 1 |
| `TraceMatch.RejectedIff` | scripts/run_tlc_expected_witness.py:229-238 | a rejection counts exactly when it denied c2 and recorded it as denied by revocation |
| `TraceMatch.FirstHit` | scripts/run_tlc_expected_witness.py:199-213 | the first state from the cursor on that satisfies the milestone |
| `TraceMatch.Pass` | scripts/run_tlc_expected_witness.py:198-227 | one milestone of the scan extends the leftmost choice, or none exists |
| `TraceMatch.Advance` | scripts/run_tlc_expected_witness.py:197-213 | taking the first state that fits keeps the choice leftmost |
| `TraceMatch.GiveUp` | scripts/run_tlc_expected_witness.py:214-238 | when the scan finds nothing more, no choice of all milestones exists |
| `Pacer.MeasureLoop` | experiments/apcc-1/run_qualification_live.py:650-675 | the loop computes the run of its specification for every behaviour of the environment |
| `Pacer.PacerTheorem` | experiments/apcc-1/run_qualification_live.py:656-675 | operation k never starts before t0 + k/rate, also after a resynchronisation; at most rate * duration + 1 attempts; every attempt completes or fails |
| `Pacer.BurstBound` | experiments/apcc-1/run_qualification_live.py:668-675 | after a delay of any length the pacer catches up by at most one second of beats: an operation more than rate * (w + 1) places later starts at least w seconds later |
| `Pacer.GridIsKeptIff` | experiments/apcc-1/run_qualification_live.py:668-675 | the schedule stays on its grid exactly as long as no operation leaves the loop more than a second behind |
| `Pacer.InstantRun` | experiments/apcc-1/run_qualification_live.py:656-675 | with instantaneous operations every attempt the bound allows is made |
| `Pacer.ExhaustedIff` | experiments/apcc-1/run_qualification_live.py:876-893 | some environment exhausts the node space exactly when there is time for an operation and there are at most rate * duration nodes |
| `Pacer.ConfiguredSpaceSuffices` | experiments/apcc-1/run_qualification_live.py:35-40 | at rate 10 for 30 seconds no environment exhausts 400 nodes; at most 301 attempts |
| `BestOfK.Scan` | scripts/run_mc_swarm.py:190-208 | stops at the first resolved candidate and keeps the first of the best scores seen |
| `BestOfK.SelectWinner` | scripts/run_mc_swarm.py:178-221 | the winner is the first lexicographic maximum of the evaluated candidates; evaluated and unevaluated add up to all; no candidates is an error |
| `BestOfK.EarlyStopIff` | scripts/run_mc_swarm.py:178-208 | stopping early gives the winner and flags of a full evaluation exactly when nothing resolves, the first resolved patch applied, or no resolved patch applied |
| `BestOfK.ResolvedMeansApplied` | scripts/run_mc_swarm.py:204-208 | with a harness that resolves only what it applied, stopping early is always harmless |
| `BestOfK.EarlyStopCanDiffer` | scripts/run_mc_swarm.py:204-208 | otherwise it can lose the applied flag |
| `BestOfK.WinnerResolvesIff` | scripts/run_mc_swarm.py:178-221 | the winner resolves exactly when some candidate does, and then one evaluated candidate resolves |
| `BestOfK.WinnerFlags` | scripts/run_mc_swarm.py:178-221 | what the applied and patch flags of the winner say about all candidates |
| `BestOfK.Summarize` | scripts/run_mc_swarm.py:250-300 | the running totals are the tally of what each instance adds; an instance without candidates ends the run |
| `BestOfK.TallyIsTotals` | scripts/run_mc_swarm.py:250-300 | every candidate is counted once, as evaluated or unevaluated, and the winner totals count the instances with a resolving, an applied and a generated patch |

## Left out

- Cryptography, JSON encoding and SHA-256 themselves: digests and signatures are ideal terms, and the sorting of mapping items in canonical JSON is not modelled.
- Floating-point rounding in the census, the backoff and the pacer; the only float effect kept is the overflow of the backoff. The normal quantile and the square root of the Wilson interval are inputs that satisfy their defining equations.
- Watcher threads, process joins and the order in which a cleanup closes what it owns; a cleanup failure is one input of a close.
- Sockets' timeouts and the `select` order: every order of readable channels is a possible script of the serving loop.
- The handlers behind the authority's requests, the SQLite and PostgreSQL stores, and the governed commit protocol.
- Guards that call back into the store: a guard is asked outside the lock when reading, but under the store's non-reentrant lock when publishing.
- Delivery of watcher callbacks, redispatch after a crash and the summary statistics of the artifact store, which would only add easy members.
- Metadata values that contain themselves, which the constructor of an artifact rejects.
- Listing methods of the capability registry (`get_agent_capabilities`, `agents`, `domains`, `summary`); lower-casing is a parameter.
- The regular expressions that cut a model-checker log into numbered states, and the checks on the rest of that log; the matcher is modelled on the parsed states.
- Printed tuples, records and empty functions of TLA+, which the parser returns as text.
- Percentiles, wall-clock totals and the baselines of the live qualification other than the paced loop and its node space.
- Generating candidates, running the harness and the rates derived from the best-of-k totals.
- LifecycleHandle.AuthorityServiceHandle.CleanupOwned: models the two transferable channels only, because executors, observers, the dormant scheduler, the administration client and the authority process have no state that the lifecycle reads back; their close callbacks change nothing (`Lifecycle.CallbacksAreIgnored`).
