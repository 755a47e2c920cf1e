/** The controlled-boot lifecycle (authority_service.py, `AuthorityServiceHandle` and
    `_start_authority_observer_transaction`).

    Every operation runs under the lifecycle lock, so any interleaving of threads is a sequence
    of operations.  Operating-system calls and child processes are inputs that say whether each
    step works; every point at which an operation can fail is one of them.
 */
module Lifecycle {
  import opened JsonTerms
  import opened RpcClient
  import opened ControlledBoot

  datatype Alive = Alive(authority: bool, scheduler: bool, observer: bool)

  /** Who holds an endpoint: the supervisor's client, the running operation, a child. */
  datatype Holders = Holders(supervisor: bool, transit: bool, child: bool)

  predicate AtMostOne(o: Holders) {
    !(o.supervisor && o.transit) && !(o.supervisor && o.child) && !(o.transit && o.child)
  }

  predicate ExactlyOne(o: Holders) {
    AtMostOne(o) && (o.supervisor || o.transit || o.child)
  }

  /** The current boot record is `Boot(phase, Some(consumed))`. */
  datatype Mark = Mark(phase: Phase, consumed: bool)

  function Plain(p: Phase): Mark {
    Mark(p, ObserverPhase(p))
  }

  /** One assignment to the state, seen from outside the lock-protected code. */
  datatype Snap = Snap(mark: Mark, exec: Holders, status: Holders)

  datatype Trail = Begins | Then(before: Trail, now: Snap)

  datatype Handle = Handle(
    mark: Mark,
    closed: bool,
    exec: Option<Client>,             // `_execution_channel`
    status: Option<Client>,           // `_status_signing_channel`
    execTransit: bool,                // detached and held by the running operation
    statusTransit: bool,
    schedulerClient: Option<Client>,  // bound by the scheduler child to the transferred endpoint
    observerClient: Option<Client>,
    used: bool,                       // the dormant scheduler's one activation
    transferred: bool,
    executors: nat,
    observers: nat,
    closedAway: bool,                 // a cleanup closed a client whose endpoint was away
    trail: Trail)

  /** A freshly bound client that has called nothing. */
  predicate Untouched(c: Client) {
    c.sequence == 0 && !c.poisoned && c.socket.Attached?
  }

  const BOUND := Client(0, false, Attached(true))

  predicate Holds(slot: Option<Client>) {
    slot.Some? && slot.value.socket.Attached?
  }

  function SnapOf(h: Handle): Snap {
    Snap(h.mark, Holders(Holds(h.exec), h.execTransit, h.schedulerClient.Some?),
         Holders(Holds(h.status), h.statusTransit, h.observerClient.Some?))
  }

  function Note(h: Handle): Handle {
    h.(trail := Then(h.trail, SnapOf(h)))
  }

  function Created(): Handle {
    Note(Handle(Plain(AuthorityReady), false, Some(BOUND), Some(BOUND), false, false, None, None,
                false, false, 0, 0, false, Begins))
  }

  function SetPhase(h: Handle, p: Phase): Handle {
    Note(h.(mark := Plain(p)))
  }

  predicate Away(slot: Option<Client>) {
    slot.Some? && slot.value.socket.Detached?
  }

  /** `_cleanup_owned_locked` as far as the handle's own fields go.  What it closes besides calls
      back into `_component_failed`, which does nothing then: see `CallbacksAreIgnored`. */
  function Cleanup(h: Handle): Handle {
    Note(h.(exec := None, status := None, closedAway := h.closedAway || Away(h.exec) || Away(h.status)))
  }

  /** `_fail_lifecycle_locked` */
  function Fail(h: Handle, flag: Option<bool>): Handle {
    var consumed := if flag.None? then h.mark.consumed else flag.value;
    Cleanup(Note(h.(mark := Mark(Failed, consumed), closed := true)))
  }

  /** `_component_failed`, which also ends an executor's or observer's close callback. */
  function ComponentFailed(h: Handle): Handle {
    if Terminal(h.mark.phase) then h else Fail(h, None)
  }

  /** `_refresh_liveness_locked` */
  function Refresh(h: Handle, alive: Alive): Handle {
    if Terminal(h.mark.phase) then h
    else if !alive.authority || !alive.scheduler || (h.observers > 0 && !alive.observer) then Fail(h, None)
    else h
  }

  // ------------------------------------------------------------ spawn_executor

  datatype Activation =
    | FailsBeforeUse        // identity missing, or the activation message cannot be built
    | FailsBeforeTransfer   // marked used, descriptors not sent
    | FailsAfterTransfer    // descriptors sent, readiness missing or wrong
    | Activates

  datatype HealthCheck =
    | Healthy
    | Breaks      // the exchange fails: the executor closes itself and reports to the handle
    | BadReply    // an answer arrives but is refused

  datatype SpawnInput = SpawnInput(
    alive: Alive, sourceExists: bool, schedulerKnown: bool, argumentsOk: bool, socketpairOk: bool,
    activation: Activation, health: HealthCheck)

  datatype Outcome = Done | Refuses(why: string) | Raises

  function StartingPhase(p: Phase): Phase {
    if p.AuthorityReady? then SchedulerStartingNonpublishable else SchedulerStartingPublishable
  }

  function StartedPhase(p: Phase): Phase {
    if p.AuthorityReady? then SchedulerStartedNonpublishable else SchedulerStartedPublishable
  }

  function CloseSocket(slot: Option<Client>): Option<Client> {
    if slot.Some? && slot.value.socket.Attached? then Some(slot.value.(socket := Attached(false))) else slot
  }

  /** The `except` block of `spawn_executor`, then the exit stack, which closes the socket that
      the block may have reattached. */
  function AbortSpawn(h: Handle, prior: Phase, socketOpen: bool): Handle {
    var back := if h.transferred || h.exec.None? then h
                else Note(h.(exec := Some(Reattach(h.exec.value, socketOpen).0), execTransit := false));
    var settled := if !back.used then SetPhase(back, prior)
                   else Fail(if back.transferred then back.(exec := None) else back, None);
    Note(settled.(exec := CloseSocket(settled.exec)))
  }

  /** Descriptors of a closed socket cannot be sent, and a used scheduler cannot be activated. */
  function Effective(h: Handle, a: Activation, socketOpen: bool): Activation {
    if h.used || a.FailsBeforeUse? then FailsBeforeUse
    else if !socketOpen then FailsBeforeTransfer
    else a
  }

  function Activate(h: Handle, i: SpawnInput, prior: Phase, socketOpen: bool): (Handle, Outcome) {
    match Effective(h, i.activation, socketOpen)
    case FailsBeforeUse => (AbortSpawn(h, prior, socketOpen), Raises)
    case FailsBeforeTransfer => (AbortSpawn(h.(used := true), prior, socketOpen), Raises)
    case FailsAfterTransfer => (AbortSpawn(Transferred(h), prior, socketOpen), Raises)
    case Activates => AfterActivation(Transferred(h), i.health, prior, socketOpen)
  }

  /** The executor handle is built and must answer a health check before it is admitted. */
  function AfterActivation(h: Handle, health: HealthCheck, prior: Phase, socketOpen: bool): (Handle, Outcome) {
    var handed := Note(h.(exec := None));
    match health
    case Healthy => (SetPhase(handed.(executors := handed.executors + 1), StartedPhase(prior)), Done)
    case Breaks => (AbortSpawn(ComponentFailed(handed), prior, socketOpen), Raises)
    case BadReply => (AbortSpawn(handed, prior, socketOpen), Raises)
  }

  /** The scheduler child holds the endpoint and binds a fresh client to it. */
  function Transferred(h: Handle): Handle {
    Note(h.(used := true, transferred := true, execTransit := false, schedulerClient := Some(BOUND)))
  }

  function Spawn(h: Handle, i: SpawnInput): (Handle, Outcome) {
    var now := Refresh(h, i.alive);
    var phase := now.mark.phase;
    if now.closed then (now, Refuses("authority_unavailable"))
    else if phase.ObserverStarting? then (now, Refuses("observer_starting"))
    else if !phase.AuthorityReady? && !phase.ObserverReady? then (now, Refuses("execution_channel_already_composed"))
    else if i.sourceExists || !i.schedulerKnown then (now, Refuses("ISOLATION_UNAVAILABLE"))
    else if !i.argumentsOk then (now, Raises)
    else if now.exec.None? then (now, Refuses("execution_channel_already_composed"))
    else Launch(now, i)
  }

  /** Everything after the checks: the phase moves before the endpoint does. */
  function Launch(h: Handle, i: SpawnInput): (Handle, Outcome)
    requires h.exec.Some?
  {
    var starting := SetPhase(h, StartingPhase(h.mark.phase));
    if !i.socketpairOk then (starting, Raises)
    else
      var (client, transfer) := Detach(h.exec.value);
      if transfer.Refused? then (starting, Raises)
      else Activate(Note(starting.(exec := Some(client), execTransit := true)), i, h.mark.phase, h.exec.value.socket.isOpen)
  }

  // --------------------------------------------------- start_authority_observer

  datatype ObserverStart =
    | FailsBeforeDetach
    | FailsAfterDetach      // the status endpoint is closed again
    | FailsAfterHandover    // the observer child holds the endpoint, its attestation is refused
    | WatcherFails
    | Starts

  /** `sourceGone`: when the transaction fails, no file is left at the controller key's path. */
  datatype ObserverInput = ObserverInput(start: ObserverStart, sourceGone: bool, alive: Alive)

  function AbortObserver(h: Handle, i: ObserverInput): Handle {
    if h.status.Some? && !i.sourceGone then SetPhase(h, AuthorityReady) else Fail(h, Some(i.sourceGone))
  }

  function StartObserver(h: Handle, i: ObserverInput): (Handle, Outcome) {
    var phase := h.mark.phase;
    if !phase.AuthorityReady? then
      (h, Refuses(if phase.ObserverStarting? || phase.ObserverReady? then "observer_already_started"
                  else if Terminal(phase) then "ISOLATION_UNAVAILABLE"
                  else "observer_must_precede_scheduler"))
    else
      var starting := SetPhase(h, ObserverStarting);
      if i.start.FailsBeforeDetach? || h.status.None? || Detach(h.status.value).1.Refused? then
        (AbortObserver(starting, i), Raises)
      else HandOver(Note(starting.(status := None, statusTransit := true)), i)
  }

  /** The transaction from the point where the status endpoint is detached. */
  function HandOver(h: Handle, i: ObserverInput): (Handle, Outcome) {
    if i.start.FailsAfterDetach? then (AbortObserver(Note(h.(statusTransit := false)), i), Raises)
    else AfterHandover(Note(h.(statusTransit := false, observerClient := Some(BOUND))), i)
  }

  /** The observer child holds the endpoint; its attestation is still to be accepted. */
  function AfterHandover(h: Handle, i: ObserverInput): (Handle, Outcome) {
    if i.start.FailsAfterHandover? then (AbortObserver(h, i), Raises)
    else Admit(h.(observers := h.observers + 1), i)
  }

  /** The observer is owned; it is watched, announced and checked once more. */
  function Admit(h: Handle, i: ObserverInput): (Handle, Outcome) {
    if i.start.WatcherFails? then (AbortObserver(h, i), Raises)
    else
      var ready := Refresh(SetPhase(h, ObserverReady), i.alive);
      if ready.mark.phase.Failed? then (AbortObserver(ready, i), Raises) else (ready, Done)
  }

  // ---------------------------------------------------------------------- close

  /** `cleanupOk`: no resource refuses to be released. */
  function Close(h: Handle, cleanupOk: bool): (Handle, Outcome) {
    if h.closed then
      if h.mark.phase.Failed? then (Cleanup(h), if cleanupOk then Done else Raises) else (h, Done)
    else
      var consumed := h.mark.consumed;
      var cleaned := Cleanup(Note(h.(closed := true, mark := Mark(Closing, consumed))));
      if cleanupOk then (Note(cleaned.(mark := Mark(Closed, consumed))), Done)
      else (Note(cleaned.(mark := Mark(Failed, consumed))), Raises)
  }

  // ----------------------------------------------------------------- invariants

  /** Every assignment to the phase, in the order the code can make it. */
  predicate Edge(p: Phase, q: Phase) {
    || p == q
    || (q.Failed? && !p.Closed?)
    || (q.Closing? && !Terminal(p))
    || (p.Closing? && q.Closed?)
    || (p.AuthorityReady? && (q.ObserverStarting? || q.SchedulerStartingNonpublishable?))
    || (p.ObserverStarting? && (q.AuthorityReady? || q.ObserverReady?))
    || (p.ObserverReady? && q.SchedulerStartingPublishable?)
    || (p.SchedulerStartingNonpublishable? && (q.AuthorityReady? || q.SchedulerStartedNonpublishable?))
    || (p.SchedulerStartingPublishable? && (q.ObserverReady? || q.SchedulerStartedPublishable?))
  }

  /** Each endpoint has one holder; none once the handle fails or closes, and possibly none for
      the status endpoint while an observer start is failing. */
  predicate OneOwner(s: Snap) {
    && AtMostOne(s.exec) && AtMostOne(s.status)
    && (!Terminal(s.mark.phase) ==> ExactlyOne(s.exec))
    && (!Terminal(s.mark.phase) && !s.mark.phase.ObserverStarting? ==> ExactlyOne(s.status))
  }

  /** A recorded state is an acceptable boot record with owned endpoints. */
  predicate GoodSnap(s: Snap) {
    Buildable(s.mark.phase, s.mark.consumed) && OneOwner(s)
  }

  predicate GoodTrail(t: Trail) {
    match t
    case Begins => true
    case Then(Begins, s) => GoodSnap(s) && s.mark.phase.AuthorityReady?
    case Then(before, s) => GoodTrail(before) && GoodSnap(s) && Edge(before.now.mark.phase, s.mark.phase)
  }

  /** The trail is legal and ends with the current record. */
  ghost predicate Trailed(h: Handle) {
    h.trail.Then? && GoodTrail(h.trail) && h.trail.now.mark == h.mark
  }

  /** What the fields say about each other, also while an operation runs. */
  ghost predicate Fields(h: Handle) {
    && GoodSnap(SnapOf(h))
    && (!Terminal(h.mark.phase) ==> h.mark == Plain(h.mark.phase))
    && (h.closed <==> Terminal(h.mark.phase))
    && h.executors <= 1 && h.observers <= 1
    && (h.exec.Some? ==> h.exec.value.sequence == 0)
    && (h.status.Some? ==> h.status.value.sequence == 0 && h.status.value.socket.Attached?)
    && (h.schedulerClient.Some? ==> h.schedulerClient.value == BOUND && h.transferred)
    && (h.observerClient.Some? ==> h.observerClient.value == BOUND)
    && (h.transferred ==> h.used)
    && !h.closedAway
  }

  ghost predicate Linked(h: Handle) {
    Trailed(h) && Fields(h)
  }

  /** What holds whenever the lock is free. */
  ghost predicate Inv(h: Handle) {
    && Linked(h)
    && !h.execTransit && !h.statusTransit && !Away(h.exec)
    && !h.mark.phase.ObserverStarting? && !h.mark.phase.Closing?
    && (match h.mark.phase
        case AuthorityReady =>
          && h.exec.Some? && Untouched(h.exec.value) && h.status == Some(BOUND)
          && !h.used && h.executors == 0 && h.observers == 0 && h.observerClient.None?
        case ObserverReady =>
          && h.exec.Some? && Untouched(h.exec.value) && h.status.None?
          && !h.used && h.executors == 0 && h.observers == 1 && h.observerClient.Some?
        case SchedulerStartedNonpublishable =>
          h.exec.None? && h.transferred && h.schedulerClient.Some? && h.executors == 1 && h.observers == 0
        case SchedulerStartedPublishable =>
          h.exec.None? && h.transferred && h.schedulerClient.Some? && h.executors == 1 && h.observers == 1
        case SchedulerStartingNonpublishable => h.executors == 0 && h.observers == 0 && !h.used
        case SchedulerStartingPublishable => h.executors == 0 && h.observers == 1 && !h.used
        case _ => h.exec.None? && h.status.None?)
  }

  // ------------------------------------------------------- every step keeps them

  /** Recording a state that follows along an edge keeps the trail legal. */
  lemma NoteTrails(h: Handle, next: Handle)
    requires Trailed(h) && next.trail == h.trail
    requires GoodSnap(SnapOf(next)) && Edge(h.mark.phase, next.mark.phase)
    ensures Trailed(Note(next))
  {
  }

  lemma SetPhaseLinked(h: Handle, p: Phase)
    requires Linked(h) && !Terminal(p) && !h.closed && Edge(h.mark.phase, p)
    requires p.ObserverStarting? || ExactlyOne(SnapOf(h).status)
    ensures Linked(SetPhase(h, p))
  {
    NoteTrails(h, h.(mark := Plain(p)));
  }

  lemma CleanupLinked(h: Handle)
    requires Linked(h) && h.closed && !Away(h.exec)
    ensures Linked(Cleanup(h))
  {
    NoteTrails(h, h.(exec := None, status := None));
  }

  /** Taking on a terminal record. */
  lemma EndLinked(h: Handle, m: Mark)
    requires Linked(h) && Terminal(m.phase) && Edge(h.mark.phase, m.phase) && Buildable(m.phase, m.consumed)
    ensures Linked(Note(h.(mark := m, closed := true)))
  {
    NoteTrails(h, h.(mark := m, closed := true));
  }

  lemma FailLinked(h: Handle, flag: Option<bool>)
    requires Linked(h) && !h.mark.phase.Closed? && !Away(h.exec)
    ensures Linked(Fail(h, flag))
    ensures Fail(h, flag).mark.phase.Failed? && Fail(h, flag).closed
    ensures Fail(h, flag).exec.None? && Fail(h, flag).status.None?
  {
    var m := Mark(Failed, if flag.None? then h.mark.consumed else flag.value);
    EndLinked(h, m);
    CleanupLinked(Note(h.(mark := m, closed := true)));
  }

  /** While a cleanup runs the phase is terminal, so the close callbacks of the executor and the
      observer it closes change nothing. */
  lemma CallbacksAreIgnored(h: Handle)
    requires Linked(h) && h.closed
    ensures ComponentFailed(h) == h && ComponentFailed(Cleanup(h)) == Cleanup(h)
  {
  }

  lemma CreatedInv()
    ensures Inv(Created())
  {
  }

  lemma ComponentFailedInv(h: Handle)
    requires Inv(h)
    ensures Inv(ComponentFailed(h))
  {
    if !Terminal(h.mark.phase) {
      FailLinked(h, None);
    }
  }

  lemma RefreshInv(h: Handle, alive: Alive)
    requires Inv(h)
    ensures Inv(Refresh(h, alive))
  {
    if !Terminal(h.mark.phase) {
      FailLinked(h, None);
    }
  }

  lemma CloseInv(h: Handle, cleanupOk: bool)
    requires Inv(h)
    ensures Inv(Close(h, cleanupOk).0)
  {
    if h.closed {
      CleanupLinked(h);
    } else {
      var m := Mark(Closing, h.mark.consumed);
      var closing := Note(h.(closed := true, mark := m));
      EndLinked(h, m);
      CleanupLinked(closing);
      EndLinked(Cleanup(closing), Mark(if cleanupOk then Closed else Failed, m.consumed));
    }
  }

  /** The state of a handle in the middle of `spawn_executor`, with the endpoint detached. */
  ghost predicate Spawning(h: Handle, prior: Phase) {
    && Linked(h) && !h.statusTransit
    && (prior.AuthorityReady? || prior.ObserverReady?)
    && h.mark.phase == StartingPhase(prior)
    && h.executors == 0 && h.observers == (if prior.ObserverReady? then 1 else 0)
    && (prior.AuthorityReady? ==> h.status == Some(BOUND) && h.observerClient.None?)
    && (prior.ObserverReady? ==> h.status.None? && h.observerClient.Some?)
    && (h.transferred <==> h.schedulerClient.Some?)
    && (h.execTransit <==> !h.transferred)
    && (!h.transferred ==> h.exec == Some(Client(0, true, Detached)))
  }

  lemma AbortSpawnInv(h: Handle, prior: Phase, socketOpen: bool)
    requires Spawning(h, prior) || (h.transferred && h.exec.None? && Inv(h) && h.mark.phase.Failed?)
    ensures Inv(AbortSpawn(h, prior, socketOpen))
    ensures
      var after := AbortSpawn(h, prior, socketOpen);
      if h.used then after.mark.phase.Failed?
      else after.mark == Plain(prior) && after.exec == Some(Client(0, false, Attached(false)))
  {
    var back := if h.transferred || h.exec.None? then h
                else Note(h.(exec := Some(Reattach(h.exec.value, socketOpen).0), execTransit := false));
    assert Linked(back);
    if !back.used {
      SetPhaseLinked(back, prior);
    } else {
      var given := if back.transferred then back.(exec := None) else back;
      assert Linked(given);
      FailLinked(given, None);
    }
  }

  lemma TransferredLinked(h: Handle, prior: Phase)
    requires Spawning(h, prior) && !h.transferred
    ensures Spawning(Transferred(h), prior)
  {
  }

  lemma ActivateInv(h: Handle, i: SpawnInput, prior: Phase, socketOpen: bool)
    requires Spawning(h, prior) && !h.used
    ensures Inv(Activate(h, i, prior, socketOpen).0)
  {
    match Effective(h, i.activation, socketOpen)
    case FailsBeforeUse => AbortSpawnInv(h, prior, socketOpen);
    case FailsBeforeTransfer => AbortSpawnInv(h.(used := true), prior, socketOpen);
    case FailsAfterTransfer =>
      TransferredLinked(h, prior);
      AbortSpawnInv(Transferred(h), prior, socketOpen);
    case Activates =>
      TransferredLinked(h, prior);
      var handed := Note(Transferred(h).(exec := None));
      assert Spawning(handed, prior);
      match i.health
      case Healthy => SetPhaseLinked(handed.(executors := 1), StartedPhase(prior));
      case Breaks =>
        FailLinked(handed, None);
        AbortSpawnInv(ComponentFailed(handed), prior, socketOpen);
      case BadReply => AbortSpawnInv(handed, prior, socketOpen);
  }

  lemma DetachedIsSpawning(h: Handle)
    requires Inv(h) && (h.mark.phase.AuthorityReady? || h.mark.phase.ObserverReady?)
    ensures Detach(h.exec.value).1.Moved?
    ensures
      var starting := SetPhase(h, StartingPhase(h.mark.phase));
      Spawning(Note(starting.(exec := Some(Detach(h.exec.value).0), execTransit := true)), h.mark.phase)
  {
    SetPhaseLinked(h, StartingPhase(h.mark.phase));
  }

  lemma LaunchInv(h: Handle, i: SpawnInput)
    requires Inv(h) && (h.mark.phase.AuthorityReady? || h.mark.phase.ObserverReady?)
    ensures Inv(Launch(h, i).0)
  {
    var phase := h.mark.phase;
    SetPhaseLinked(h, StartingPhase(phase));
    if i.socketpairOk {
      var starting := SetPhase(h, StartingPhase(phase));
      DetachedIsSpawning(h);
      ActivateInv(Note(starting.(exec := Some(Detach(h.exec.value).0), execTransit := true)), i, phase, h.exec.value.socket.isOpen);
    }
  }

  lemma SpawnInv(h: Handle, i: SpawnInput)
    requires Inv(h)
    ensures Inv(Spawn(h, i).0)
  {
    RefreshInv(h, i.alive);
    var now := Refresh(h, i.alive);
    if now.mark.phase.AuthorityReady? || now.mark.phase.ObserverReady? {
      LaunchInv(now, i);
    }
  }

  /** In the middle of the observer transaction. */
  ghost predicate Observing(h: Handle) {
    && Linked(h) && !h.execTransit && !h.statusTransit && !Away(h.exec)
    && (h.mark.phase.ObserverStarting? || h.mark.phase.Failed?)
    && (h.status.Some? ==>
          && h.mark.phase.ObserverStarting? && h.status == Some(BOUND) && h.observers == 0 && h.observerClient.None?
          && h.exec.Some? && Untouched(h.exec.value) && !h.used && h.executors == 0)
  }

  lemma AbortObserverInv(h: Handle, i: ObserverInput)
    requires Observing(h)
    ensures Inv(AbortObserver(h, i))
    ensures h.status.Some? && !i.sourceGone ==> AbortObserver(h, i).mark == Plain(AuthorityReady)
  {
    if h.status.Some? && !i.sourceGone {
      SetPhaseLinked(h, AuthorityReady);
    } else {
      FailLinked(h, Some(i.sourceGone));
    }
  }

  lemma StartObserverInv(h: Handle, i: ObserverInput)
    requires Inv(h)
    ensures Inv(StartObserver(h, i).0)
  {
    if h.mark.phase.AuthorityReady? {
      SetPhaseLinked(h, ObserverStarting);
      var starting := SetPhase(h, ObserverStarting);
      if i.start.FailsBeforeDetach? {
        AbortObserverInv(starting, i);
      } else {
        HandOverInv(Note(starting.(status := None, statusTransit := true)), i);
      }
    }
  }

  /** An observer start under way with the status endpoint out of the supervisor's hands. */
  ghost predicate Giving(h: Handle) {
    && Linked(h) && h.mark.phase.ObserverStarting?
    && !h.execTransit && h.status.None? && h.observers == 0
    && h.exec.Some? && Untouched(h.exec.value) && !h.used && h.executors == 0
  }

  lemma HandOverInv(h: Handle, i: ObserverInput)
    requires Giving(h) && h.observerClient.None?
    ensures Inv(HandOver(h, i).0)
  {
    if i.start.FailsAfterDetach? {
      DroppedInv(h, i);
    } else {
      var held := Note(h.(statusTransit := false, observerClient := Some(BOUND)));
      HeldLinked(h);
      assert Giving(held);
      HeldInv(held, i);
      assert HandOver(h, i) == AfterHandover(held, i);
    }
  }

  /** The detached status endpoint is closed again. */
  lemma DroppedInv(h: Handle, i: ObserverInput)
    requires Giving(h) && h.observerClient.None?
    ensures Inv(AbortObserver(Note(h.(statusTransit := false)), i))
  {
    NoteTrails(h, h.(statusTransit := false));
    AbortObserverInv(Note(h.(statusTransit := false)), i);
  }

  lemma HeldInv(held: Handle, i: ObserverInput)
    requires Giving(held) && !held.statusTransit && held.observerClient.Some?
    ensures Inv(AfterHandover(held, i).0)
  {
    if i.start.FailsAfterHandover? {
      AbortObserverInv(held, i);
    } else {
      CountedLinked(held);
      AdmitInv(held.(observers := 1), i);
    }
  }

  lemma CountedLinked(held: Handle)
    requires Linked(held)
    ensures Linked(held.(observers := 1))
  {
  }

  lemma HeldLinked(h: Handle)
    requires Linked(h) && h.mark.phase.ObserverStarting? && h.status.None? && h.observerClient.None?
    ensures Linked(Note(h.(statusTransit := false, observerClient := Some(BOUND))))
  {
    NoteTrails(h, h.(statusTransit := false, observerClient := Some(BOUND)));
  }

  lemma AdmitInv(h: Handle, i: ObserverInput)
    requires Linked(h) && h.mark.phase.ObserverStarting?
    requires !h.execTransit && !h.statusTransit && h.status.None? && h.observers == 1 && h.observerClient.Some?
    requires h.exec.Some? && Untouched(h.exec.value) && !h.used && h.executors == 0
    ensures Inv(Admit(h, i).0)
  {
    AbortObserverInv(h, i);
    SetPhaseLinked(h, ObserverReady);
    var admitted := SetPhase(h, ObserverReady);
    RefreshInv(admitted, i.alive);
    var ready := Refresh(admitted, i.alive);
    if ready.mark.phase.Failed? {
      AbortObserverInv(ready, i);
    }
  }

  // ----------------------------------------------------------------------- runs

  datatype Op =
    | DoSpawn(spawn: SpawnInput)
    | DoStartObserver(observer: ObserverInput)
    | DoComponentFailed      // a watcher fires, or an executor or observer is closed
    | DoPoll(alive: Alive)   // `health` and `controlled_boot`
    | DoClose(cleanupOk: bool)

  function Do(h: Handle, op: Op): Handle {
    match op
    case DoSpawn(i) => Spawn(h, i).0
    case DoStartObserver(i) => StartObserver(h, i).0
    case DoComponentFailed => ComponentFailed(h)
    case DoPoll(alive) => Refresh(h, alive)
    case DoClose(ok) => Close(h, ok).0
  }

  function Run(h: Handle, ops: seq<Op>): Handle
    decreases |ops|
  {
    if ops == [] then h else Run(Do(h, ops[0]), ops[1..])
  }

  lemma DoInv(h: Handle, op: Op)
    requires Inv(h)
    ensures Inv(Do(h, op))
  {
    match op
    case DoSpawn(i) => SpawnInv(h, i);
    case DoStartObserver(i) => StartObserverInv(h, i);
    case DoComponentFailed => ComponentFailedInv(h);
    case DoPoll(alive) => RefreshInv(h, alive);
    case DoClose(ok) => CloseInv(h, ok);
  }

  lemma {:induction false} RunInv(h: Handle, ops: seq<Op>)
    requires Inv(h)
    ensures Inv(Run(h, ops))
    decreases |ops|
  {
    if ops != [] {
      DoInv(h, ops[0]);
      RunInv(Do(h, ops[0]), ops[1..]);
    }
  }

  // ------------------------------------------------------------ phase histories

  function Snaps(t: Trail): seq<Snap> {
    match t
    case Begins => []
    case Then(before, s) => Snaps(before) + [s]
  }

  ghost predicate Legal(history: seq<Snap>) {
    && history != [] && history[0].mark.phase.AuthorityReady?
    && (forall i :: 0 <= i < |history| ==> GoodSnap(history[i]))
    && (forall i :: 0 < i < |history| ==> Edge(history[i - 1].mark.phase, history[i].mark.phase))
  }

  lemma {:induction false} GoodTrailIsLegal(t: Trail)
    requires t.Then? && GoodTrail(t)
    ensures Legal(Snaps(t)) && Snaps(t)[|Snaps(t)| - 1] == t.now
  {
    if t.before.Then? {
      GoodTrailIsLegal(t.before);
      var earlier, all := Snaps(t.before), Snaps(t);
      assert forall i :: 0 <= i < |earlier| ==> all[i] == earlier[i];
    }
  }

  /** Every phase but the first was entered from another one along an edge. */
  lemma {:induction false} EnteredFrom(history: seq<Snap>, i: nat) returns (c: nat)
    requires Legal(history) && i < |history| && !history[i].mark.phase.AuthorityReady?
    ensures c < i && history[c].mark.phase != history[i].mark.phase
    ensures Edge(history[c].mark.phase, history[i].mark.phase)
    ensures forall j :: c < j <= i ==> history[j].mark.phase == history[i].mark.phase
  {
    assert Edge(history[i - 1].mark.phase, history[i].mark.phase);
    if history[i - 1].mark.phase == history[i].mark.phase {
      c := EnteredFrom(history, i - 1);
    } else {
      c := i - 1;
    }
  }

  /** Between `from` and `to` (exclusive of `from`) only phase `p` was recorded. */
  ghost predicate Only(history: seq<Snap>, p: Phase, from: nat, to: nat)
    requires to < |history|
  {
    forall j :: from < j <= to ==> history[j].mark.phase == p
  }

  /** Publishable evidence at `i` was reached through observer start, observer ready and a
      publishable scheduler start, the last two with nothing in between. */
  ghost predicate ThroughObserver(history: seq<Snap>, i: nat)
    requires i < |history|
  {
    exists a: nat, b: nat, c: nat ::
      && a < b < c < i
      && history[a].mark.phase.ObserverStarting? && history[b].mark.phase.ObserverReady?
      && history[c].mark.phase.SchedulerStartingPublishable?
      && Only(history, SchedulerStartingPublishable, b, c)
      && Only(history, SchedulerStartedPublishable, c, i)
  }

  lemma {:induction false} ObserverReadyAfterStart(history: seq<Snap>, b: nat) returns (a: nat)
    requires Legal(history) && b < |history|
    requires history[b].mark.phase.ObserverReady? || history[b].mark.phase.SchedulerStartingPublishable?
    ensures a < b && history[a].mark.phase.ObserverStarting?
    decreases b
  {
    a := EnteredFrom(history, b);
    if !history[a].mark.phase.ObserverStarting? {
      a := ObserverReadyAfterStart(history, a);
    }
  }

  lemma PublishableThroughObserver(history: seq<Snap>, i: nat)
    requires Legal(history) && i < |history| && history[i].mark.phase.SchedulerStartedPublishable?
    ensures ThroughObserver(history, i)
  {
    var c := EnteredFrom(history, i);
    var b := EnteredFrom(history, c);
    var a := ObserverReadyAfterStart(history, b);
    assert Only(history, SchedulerStartingPublishable, b, c) && Only(history, SchedulerStartedPublishable, c, i);
  }

  /** Phases from which the only way on is to fail or close. */
  predicate Final(p: Phase) {
    p.SchedulerStartedNonpublishable? || p.SchedulerStartedPublishable? || p.Failed? || p.Closed?
  }

  lemma {:induction false} FinalPhasesStay(history: seq<Snap>, i: nat, j: nat)
    requires Legal(history) && i <= j < |history| && Final(history[i].mark.phase)
    ensures
      var p, q := history[i].mark.phase, history[j].mark.phase;
      q == p || (!p.Failed? && !p.Closed? && Terminal(q))
    decreases j
  {
    if i < j {
      FinalPhasesStay(history, i, j - 1);
      assert Edge(history[j - 1].mark.phase, history[j].mark.phase);
    }
  }

  /** Safety of the lifecycle over every run of spawns, observer starts, component deaths,
      polls and closes, with a failure injected at any point: each recorded boot record is
      acceptable, each endpoint has one owner, publishable evidence comes only through
      the observer, a started scheduler never changes its kind, and failed and closed are
      absorbing. */
  lemma LifecycleSafety(ops: seq<Op>)
    ensures Run(Created(), ops).trail.Then?
    ensures
      var history := Snaps(Run(Created(), ops).trail);
      && (forall i :: 0 <= i < |history| ==>
            && Acceptable(Boot(history[i].mark.phase, Some(history[i].mark.consumed)))
            && OneOwner(history[i]))
      && (forall i :: 0 <= i < |history| && history[i].mark.phase.SchedulerStartedPublishable? ==> ThroughObserver(history, i))
      && (forall i, j :: 0 <= i <= j < |history| && Final(history[i].mark.phase) ==>
            || history[j].mark.phase == history[i].mark.phase
            || (!history[i].mark.phase.Failed? && !history[i].mark.phase.Closed? && Terminal(history[j].mark.phase)))
  {
    CreatedInv();
    RunInv(Created(), ops);
    var t := Run(Created(), ops).trail;
    GoodTrailIsLegal(t);
    var history := Snaps(t);
    forall i | 0 <= i < |history| ensures Acceptable(Boot(history[i].mark.phase, Some(history[i].mark.consumed))) {
      assert GoodSnap(history[i]);
      BuildableIff(history[i].mark.phase, history[i].mark.consumed);
    }
    forall i | 0 <= i < |history| && history[i].mark.phase.SchedulerStartedPublishable? ensures ThroughObserver(history, i) {
      PublishableThroughObserver(history, i);
    }
    forall i, j | 0 <= i <= j < |history| && Final(history[i].mark.phase)
      ensures || history[j].mark.phase == history[i].mark.phase
              || (!history[i].mark.phase.Failed? && !history[i].mark.phase.Closed? && Terminal(history[j].mark.phase))
    {
      FinalPhasesStay(history, i, j);
    }
  }

  /** Whenever the lock is free: closed exactly in a terminal phase, at most one executor and
      one observer ever admitted, the supervisor's own clients have called nothing, a child's
      client is freshly bound and the supervisor no longer holds its endpoint, and no client was
      ever closed while its endpoint was away, so none can be revived by a reattachment. */
  lemma LockFreeFacts(ops: seq<Op>)
    ensures
      var h := Run(Created(), ops);
      && (h.closed <==> h.mark.phase.Closing? || h.mark.phase.Failed? || h.mark.phase.Closed?)
      && h.executors <= 1 && h.observers <= 1
      && (h.exec.Some? ==> h.exec.value.sequence == 0)
      && (h.status.Some? ==> h.status.value.sequence == 0)
      && (h.schedulerClient.Some? ==> h.schedulerClient.value == BOUND && !Holds(h.exec))
      && (h.observerClient.Some? ==> h.observerClient.value == BOUND && !Holds(h.status))
      && !h.closedAway
  {
    CreatedInv();
    RunInv(Created(), ops);
  }

  // ------------------------------------------------------------------ how it ends

  /** Failed and released: closed, nothing held, and what was known of the controller key kept. */
  ghost predicate EndedFrom(after: Handle, h: Handle) {
    && after.mark == Mark(Failed, h.mark.consumed) && after.closed
    && after.exec.None? && after.status.None?
  }

  /** A component death fails a handle that has not ended, and changes nothing otherwise. */
  lemma DeathEnds(h: Handle)
    requires Inv(h)
    ensures if Terminal(h.mark.phase) then ComponentFailed(h) == h else EndedFrom(ComponentFailed(h), h)
  {
  }

  /** A poll does the same exactly when it finds the authority, the scheduler or an admitted
      observer dead. */
  lemma PollEndsIff(h: Handle, alive: Alive)
    requires Inv(h)
    ensures
      var dead := !alive.authority || !alive.scheduler || (h.observers == 1 && !alive.observer);
      if !Terminal(h.mark.phase) && dead then EndedFrom(Refresh(h, alive), h) else Refresh(h, alive) == h
  {
  }

  /** Every close releases both endpoints and ends the handle: closed when everything could be
      released, failed when not.  Closing again repeats the release of a failed handle and
      leaves a closed one as it is. */
  lemma CloseEnds(h: Handle, cleanupOk: bool)
    requires Inv(h)
    ensures
      var (after, outcome) := Close(h, cleanupOk);
      && after.closed && after.exec.None? && after.status.None?
      && after.mark == (if h.closed then h.mark else Mark(if cleanupOk then Closed else Failed, h.mark.consumed))
      && (outcome.Done? <==> cleanupOk || h.mark.phase.Closed?) && (outcome.Raises? <==> !outcome.Done?)
  {
  }

  /** Operations that can only leave a terminal phase behind. */
  predicate Ends(op: Op) {
    op.DoComponentFailed? || op.DoClose? || (op.DoPoll? && !(op.alive.authority && op.alive.scheduler))
  }

  /** No run with a component death, a close or a poll of a dead authority or scheduler in it
      ends in a phase that is not terminal. */
  lemma {:induction false} RunEnds(h: Handle, ops: seq<Op>, i: nat)
    requires Inv(h) && i < |ops| && Ends(ops[i])
    ensures Terminal(Run(h, ops).mark.phase) && Run(h, ops).closed
    ensures Run(h, ops).exec.None? && Run(h, ops).status.None?
    decreases |ops|
  {
    DoInv(h, ops[0]);
    if i > 0 {
      RunEnds(Do(h, ops[0]), ops[1..], i - 1);
    } else {
      OpEnds(h, ops[0]);
      TerminalStays(Do(h, ops[0]), ops[1..]);
      RunInv(Do(h, ops[0]), ops[1..]);
    }
  }

  lemma OpEnds(h: Handle, op: Op)
    requires Inv(h) && Ends(op)
    ensures Terminal(Do(h, op).mark.phase)
  {
    match op
    case DoComponentFailed => DeathEnds(h);
    case DoPoll(alive) => PollEndsIff(h, alive);
    case DoClose(ok) => CloseEnds(h, ok);
  }

  /** The scheduler has one activation: a second one hands over nothing and admits nobody. */
  lemma OneActivation(h: Handle, i: SpawnInput, prior: Phase, socketOpen: bool)
    requires h.used
    ensures
      var (after, outcome) := Activate(h, i, prior, socketOpen);
      outcome == Raises && after.schedulerClient == h.schedulerClient && after.transferred == h.transferred && after.executors == h.executors
  {
  }

  /** Exactly why a spawn is refused.  A starting observer is never seen: its start holds the
      lock throughout. */
  lemma SpawnRefusals(h: Handle, i: SpawnInput)
    requires Inv(h)
    ensures
      var outcome := Spawn(h, i).1;
      var dead := !i.alive.authority || !i.alive.scheduler || (h.observers == 1 && !i.alive.observer);
      var ready := h.mark.phase.AuthorityReady? || h.mark.phase.ObserverReady?;
      && (outcome == Refuses("authority_unavailable") <==> Terminal(h.mark.phase) || dead)
      && (outcome == Refuses("execution_channel_already_composed") <==> !Terminal(h.mark.phase) && !dead && !ready)
      && (outcome == Refuses("ISOLATION_UNAVAILABLE") <==> ready && !dead && (i.sourceExists || !i.schedulerKnown))
      && outcome != Refuses("observer_starting")
      && (outcome.Refuses? ==> Spawn(h, i).0 == Refresh(h, i.alive))
  {
    assert |"authority_unavailable"| == 21 && |"execution_channel_already_composed"| == 34;
    assert |"ISOLATION_UNAVAILABLE"| == 21 && |"observer_starting"| == 17;
    assert "authority_unavailable"[0] == 'a' && "ISOLATION_UNAVAILABLE"[0] == 'I';
    PollEndsIff(h, i.alive);
  }

  /** Exactly why an observer start is refused; a refusal changes nothing. */
  lemma ObserverRefusals(h: Handle, i: ObserverInput)
    requires Inv(h)
    ensures
      var (after, outcome) := StartObserver(h, i);
      && (outcome == Refuses("observer_already_started") <==> h.mark.phase.ObserverReady?)
      && (outcome == Refuses("ISOLATION_UNAVAILABLE") <==> Terminal(h.mark.phase))
      && (outcome == Refuses("observer_must_precede_scheduler") <==> Started(h) || Stranded(h))
      && (outcome.Refuses? ==> after == h)
  {
    assert |"observer_already_started"| == 24 && |"ISOLATION_UNAVAILABLE"| == 21 && |"observer_must_precede_scheduler"| == 31;
  }

  // ------------------------------------------------------------------- rollback

  /** Exactly when an observer start admits the observer. */
  lemma ObserverStartsIff(h: Handle, i: ObserverInput)
    requires Inv(h)
    ensures StartObserver(h, i).1.Done? <==>
              && h.mark.phase.AuthorityReady? && i.start.Starts?
              && i.alive.authority && i.alive.scheduler && i.alive.observer
    ensures StartObserver(h, i).1.Done? ==> StartObserver(h, i).0.mark == Plain(ObserverReady) && StartObserver(h, i).0.observers == 1
  {
  }

  /** A failed observer start restores the whole handle, and with it the identical boot record,
      exactly when it failed before the status endpoint was detached and the controller key is
      still at its source; in every other case the handle fails, on record with whether the key
      was consumed. */
  lemma ObserverRollbackIff(h: Handle, i: ObserverInput)
    requires Inv(h) && h.mark.phase.AuthorityReady?
    ensures
      var after := StartObserver(h, i).0;
      && (after == h.(trail := after.trail) <==> i.start.FailsBeforeDetach? && !i.sourceGone)
      && (StartObserver(h, i).1.Raises? && !(i.start.FailsBeforeDetach? && !i.sourceGone) ==> after.mark == Mark(Failed, i.sourceGone))
  {
  }

  /** Exactly when a spawn starts the scheduler. */
  lemma SpawnSucceedsIff(h: Handle, i: SpawnInput)
    requires Inv(h)
    ensures Spawn(h, i).1.Done? <==>
              && (h.mark.phase.AuthorityReady? || h.mark.phase.ObserverReady?)
              && i.alive.authority && i.alive.scheduler && (h.observers > 0 ==> i.alive.observer)
              && !i.sourceExists && i.schedulerKnown && i.argumentsOk && i.socketpairOk
              && i.activation.Activates? && i.health.Healthy?
              && h.exec.value.socket.isOpen
    ensures Spawn(h, i).1.Done? ==> Spawn(h, i).0.mark == Plain(StartedPhase(h.mark.phase)) && Spawn(h, i).0.executors == 1
  {
    RefreshInv(h, i.alive);
  }

  /** A spawn that fails before the scheduler is used restores the identical boot record and
      every other field, except that the exit stack has closed the reattached endpoint. */
  lemma RollbackRestores(h: Handle, i: SpawnInput)
    requires Inv(h) && Refresh(h, i.alive) == h
    requires h.mark.phase.AuthorityReady? || h.mark.phase.ObserverReady?
    requires !i.sourceExists && i.schedulerKnown && i.argumentsOk && i.socketpairOk && i.activation.FailsBeforeUse?
    ensures
      var after := Spawn(h, i).0;
      after == h.(exec := Some(Client(0, false, Attached(false))), trail := after.trail)
  {
  }

  /** A handle whose execution endpoint is closed has no way to a started scheduler. */
  ghost predicate CannotStart(h: Handle) {
    && Inv(h)
    && !Started(h)
    && (h.mark.phase.AuthorityReady? || h.mark.phase.ObserverReady? ==> !h.exec.value.socket.isOpen)
  }

  lemma StillCannotStart(h: Handle, op: Op)
    requires CannotStart(h)
    ensures CannotStart(Do(h, op))
  {
    DoInv(h, op);
    match op
    case DoSpawn(i) => SpawnWithClosedSocket(h, i);
    case DoStartObserver(i) =>
    case DoComponentFailed =>
    case DoPoll(_) =>
    case DoClose(_) =>
  }

  lemma SpawnWithClosedSocket(h: Handle, i: SpawnInput)
    requires CannotStart(h)
    ensures CannotStart(Spawn(h, i).0)
  {
    RefreshInv(h, i.alive);
    var now := Refresh(h, i.alive);
    if now.mark.phase.AuthorityReady? || now.mark.phase.ObserverReady? {
      LaunchWithClosedSocket(now, i);
    }
  }

  lemma LaunchWithClosedSocket(h: Handle, i: SpawnInput)
    requires CannotStart(h) && (h.mark.phase.AuthorityReady? || h.mark.phase.ObserverReady?)
    ensures CannotStart(Launch(h, i).0)
  {
    LaunchInv(h, i);
    if i.socketpairOk {
      var starting := SetPhase(h, StartingPhase(h.mark.phase));
      DetachedIsSpawning(h);
      ClosedSocketAborts(Note(starting.(exec := Some(Detach(h.exec.value).0), execTransit := true)), i, h.mark.phase);
    }
  }

  lemma ClosedSocketAborts(h: Handle, i: SpawnInput, prior: Phase)
    requires Spawning(h, prior) && !h.used
    ensures
      var after := Activate(h, i, prior, false).0;
      after.mark.phase.Failed? || (after.mark == Plain(prior) && after.exec == Some(Client(0, false, Attached(false))))
  {
    AbortSpawnInv(h, prior, false);
    AbortSpawnInv(h.(used := true), prior, false);
  }

  predicate Started(h: Handle) {
    h.mark.phase.SchedulerStartedNonpublishable? || h.mark.phase.SchedulerStartedPublishable?
  }

  lemma {:induction false} NeverStarts(h: Handle, ops: seq<Op>)
    requires CannotStart(h)
    ensures !Started(Run(h, ops))
    decreases |ops|
  {
    if ops != [] {
      StillCannotStart(h, ops[0]);
      NeverStarts(Do(h, ops[0]), ops[1..]);
    }
  }

  /** The run of these operations leaves the scheduler started. */
  ghost predicate StartsBy(h: Handle, ops: seq<Op>) {
    Started(Run(h, ops))
  }

  /** A ready handle with an open endpoint is started by one spawn in which nothing fails. */
  lemma ReadyStarts(h: Handle) returns (ops: seq<Op>)
    requires Inv(h) && (h.mark.phase.AuthorityReady? || h.mark.phase.ObserverReady?) && h.exec.value.socket.isOpen
    ensures Started(Run(h, ops))
  {
    var i := SpawnInput(Alive(true, true, true), false, true, true, true, Activates, Healthy);
    SpawnSucceedsIff(h, i);
    ops := [DoSpawn(i)];
    assert ops[1..] == [];
    assert Run(h, ops) == Run(Do(h, DoSpawn(i)), []);
  }

  /** Some later run starts the scheduler exactly when it is started already, or the handle is
      ready and its execution endpoint is still open. */
  lemma CanStartIff(h: Handle)
    requires Inv(h)
    ensures (exists ops :: StartsBy(h, ops)) <==>
              || Started(h)
              || ((h.mark.phase.AuthorityReady? || h.mark.phase.ObserverReady?) && h.exec.value.socket.isOpen)
  {
    if Started(h) {
      assert StartsBy(h, []);
    } else if (h.mark.phase.AuthorityReady? || h.mark.phase.ObserverReady?) && h.exec.value.socket.isOpen {
      var ops := ReadyStarts(h);
      assert StartsBy(h, ops);
    } else {
      forall ops ensures !StartsBy(h, ops) {
        NeverStarts(h, ops);
      }
    }
  }

  /** The rollback invites a retry that cannot work: after one spawn that failed before the
      scheduler was used, no later run of the handle ever reaches a started phase. */
  lemma RolledBackSpawnNeverStarts(h: Handle, i: SpawnInput, ops: seq<Op>)
    requires Inv(h) && Refresh(h, i.alive) == h
    requires h.mark.phase.AuthorityReady? || h.mark.phase.ObserverReady?
    requires !i.sourceExists && i.schedulerKnown && i.argumentsOk && i.socketpairOk && i.activation.FailsBeforeUse?
    ensures !Started(Run(Spawn(h, i).0, ops))
  {
    SpawnInv(h, i);
    RollbackRestores(h, i);
    NeverStarts(Spawn(h, i).0, ops);
  }

  /** The starting phase is set before the socket pair is created and outside the handler: when
      that creation fails the handle stays in the starting phase until it fails or is closed. */
  predicate Stranded(h: Handle) {
    h.mark.phase.SchedulerStartingNonpublishable? || h.mark.phase.SchedulerStartingPublishable?
  }

  /** Exactly when a spawn strands the handle: everything was in order, and then the socket pair
      could not be created. */
  lemma StrandedIff(h: Handle, i: SpawnInput)
    requires Inv(h) && !Stranded(h)
    ensures Stranded(Spawn(h, i).0) <==>
              && (h.mark.phase.AuthorityReady? || h.mark.phase.ObserverReady?)
              && i.alive.authority && i.alive.scheduler && (h.observers > 0 ==> i.alive.observer)
              && !i.sourceExists && i.schedulerKnown && i.argumentsOk && !i.socketpairOk
  {
    RefreshInv(h, i.alive);
    var now := Refresh(h, i.alive);
    if now == h && (h.mark.phase.AuthorityReady? || h.mark.phase.ObserverReady?) {
      LaunchStrandsIff(h, i);
    }
  }

  lemma LaunchStrandsIff(h: Handle, i: SpawnInput)
    requires Inv(h) && (h.mark.phase.AuthorityReady? || h.mark.phase.ObserverReady?)
    ensures Stranded(Launch(h, i).0) <==> !i.socketpairOk
  {
    DetachedIsSpawning(h);
  }

  /** From the failed socket pair on, every run keeps the starting record or ends terminally. */
  lemma FailedSocketPairStrands(h: Handle, i: SpawnInput, ops: seq<Op>)
    requires Inv(h) && !Stranded(h) && Stranded(Spawn(h, i).0)
    ensures
      var end := Run(Spawn(h, i).0, ops);
      end.mark == Plain(StartingPhase(h.mark.phase)) || Terminal(end.mark.phase)
  {
    StrandedIff(h, i);
    SpawnInv(h, i);
    StrandedStaysStranded(Spawn(h, i).0, ops);
  }

  lemma {:induction false} StrandedStaysStranded(h: Handle, ops: seq<Op>)
    requires Inv(h) && Stranded(h)
    ensures Run(h, ops).mark == h.mark || Terminal(Run(h, ops).mark.phase)
    decreases |ops|
  {
    if ops != [] {
      DoInv(h, ops[0]);
      var next := Do(h, ops[0]);
      if next.mark == h.mark {
        StrandedStaysStranded(next, ops[1..]);
      } else {
        TerminalStays(next, ops[1..]);
      }
    }
  }

  lemma {:induction false} TerminalStays(h: Handle, ops: seq<Op>)
    requires Inv(h) && Terminal(h.mark.phase)
    ensures Run(h, ops).mark == h.mark
    decreases |ops|
  {
    if ops != [] {
      DoInv(h, ops[0]);
      TerminalStays(Do(h, ops[0]), ops[1..]);
    }
  }
}
