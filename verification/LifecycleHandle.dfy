/** `AuthorityServiceHandle` as an object: it owns client objects, the clients own socket
    objects, and an operation that detaches a socket keeps a second reference to it.  Each
    method is proved to do what the lifecycle specification says.
 */
module LifecycleHandle {
  import opened JsonTerms
  import opened RpcClient
  import opened ControlledBoot
  import opened Lifecycle

  /** The one-shot activation of the pre-hardened scheduler (`_DormantScheduler.activate`). */
  class DormantScheduler {
    var used: bool
    var transferred: bool

    constructor ()
      ensures !used && !transferred
    {
      used, transferred := false, false;
    }

    method Activate(a: Activation, socketOpen: bool) returns (raised: bool)
      modifies this
      ensures
        if old(used) || a.FailsBeforeUse? then raised && used == old(used) && transferred == old(transferred)
        else if !socketOpen || a.FailsBeforeTransfer? then raised && used && transferred == old(transferred)
        else used && transferred && (raised <==> a.FailsAfterTransfer?)
    {
      if used {
        return true;
      }
      if a.FailsBeforeUse? {
        return true;
      }
      used := true;
      if !socketOpen || a.FailsBeforeTransfer? {
        return true;
      }
      transferred := true;
      return a.FailsAfterTransfer?;
    }
  }

  class AuthorityServiceHandle {
    var mark: Mark
    var closed: bool
    var executionChannel: JsonClient?
    var statusChannel: JsonClient?
    const scheduler: DormantScheduler
    var executors: nat
    var observers: nat
    ghost var execTransit: bool
    ghost var statusTransit: bool
    ghost var schedulerClient: Option<Client>
    ghost var observerClient: Option<Client>
    ghost var closedAway: bool
    ghost var trail: Trail

    ghost function SocketOf(c: JsonClient?): Endpoint?
      reads c
    {
      if c == null then null else c.channelSocket
    }

    /** No object plays two parts. */
    ghost predicate Valid()
      reads this, executionChannel, statusChannel
    {
      && (executionChannel != null ==> executionChannel != statusChannel)
      && (SocketOf(executionChannel) != null ==> SocketOf(executionChannel) != SocketOf(statusChannel))
    }

    ghost function Slot(c: JsonClient?): Option<Client>
      reads c, SocketOf(c)
    {
      if c == null then None else Some(c.View())
    }

    ghost function View(): Handle
      reads this, scheduler, executionChannel, statusChannel, SocketOf(executionChannel), SocketOf(statusChannel)
    {
      Handle(mark, closed, Slot(executionChannel), Slot(statusChannel), execTransit, statusTransit,
             schedulerClient, observerClient, scheduler.used, scheduler.transferred, executors, observers, closedAway, trail)
    }

    ghost method NoteNow()
      modifies this`trail
      ensures View() == Note(old(View()))
    {
      trail := Then(trail, SnapOf(View()));
    }

    /** What `start_authority` hands over. */
    constructor (execution: JsonClient, status: JsonClient, dormant: DormantScheduler)
      requires execution != status && execution.channelSocket != null && status.channelSocket != null
      requires execution.channelSocket != status.channelSocket
      requires execution.View() == BOUND && status.View() == BOUND && !dormant.used && !dormant.transferred
      ensures Valid() && View() == Created()
    {
      mark, closed := Plain(AuthorityReady), false;
      executionChannel, statusChannel, scheduler := execution, status, dormant;
      executors, observers, closedAway := 0, 0, false;
      execTransit, statusTransit, schedulerClient, observerClient := false, false, None, None;
      trail := Begins;
      new;
      NoteNow();
    }

    method SetMark(m: Mark)
      modifies this`mark, this`trail
      ensures View() == Note(old(View()).(mark := m))
    {
      mark := m;
      NoteNow();
    }

    method MarkClosed(m: Mark)
      modifies this`mark, this`closed, this`trail
      ensures View() == Note(old(View()).(mark := m, closed := true))
    {
      closed := true;
      SetMark(m);
    }

    method CleanupOwned()
      requires Valid()
      modifies this, scheduler, executionChannel, statusChannel, SocketOf(executionChannel), SocketOf(statusChannel)
      ensures Valid() && View() == Cleanup(old(View()))
      ensures executionChannel == null && statusChannel == null
      ensures old(executionChannel) != null ==> old(executionChannel).View() == Poison(old(executionChannel.View()))
      ensures old(statusChannel) != null ==> old(statusChannel).View() == Poison(old(statusChannel.View()))
    {
      closedAway := closedAway || Away(Slot(executionChannel)) || Away(Slot(statusChannel));
      if executionChannel != null {
        executionChannel.Close();
        executionChannel := null;
      }
      if statusChannel != null {
        statusChannel.Close();
        statusChannel := null;
      }
      NoteNow();
    }

    method FailLifecycle(controllerConsumed: Option<bool>)
      requires Valid()
      modifies this, scheduler, executionChannel, statusChannel, SocketOf(executionChannel), SocketOf(statusChannel)
      ensures Valid() && View() == Fail(old(View()), controllerConsumed)
      ensures executionChannel == null && statusChannel == null
      ensures old(executionChannel) != null ==> old(executionChannel).View() == Poison(old(executionChannel.View()))
      ensures old(statusChannel) != null ==> old(statusChannel).View() == Poison(old(statusChannel.View()))
    {
      MarkClosed(Mark(Failed, if controllerConsumed.None? then mark.consumed else controllerConsumed.value));
      CleanupOwned();
    }

    method OnComponentFailed()
      requires Valid()
      modifies this, scheduler, executionChannel, statusChannel, SocketOf(executionChannel), SocketOf(statusChannel)
      ensures Valid() && View() == ComponentFailed(old(View()))
      ensures !Terminal(old(mark.phase)) && old(executionChannel) != null ==> old(executionChannel).View() == Poison(old(executionChannel.View()))
      ensures !Terminal(old(mark.phase)) && old(statusChannel) != null ==> old(statusChannel).View() == Poison(old(statusChannel.View()))
      ensures old(executionChannel) == null ==> executionChannel == null
      ensures statusChannel == null || (statusChannel == old(statusChannel) && statusChannel.channelSocket == old(SocketOf(statusChannel)))
    {
      if !Terminal(mark.phase) {
        FailLifecycle(None);
      }
    }

    method RefreshLiveness(alive: Alive)
      requires Valid()
      modifies this, scheduler, executionChannel, statusChannel, SocketOf(executionChannel), SocketOf(statusChannel)
      ensures Valid() && View() == Refresh(old(View()), alive)
      ensures mark.phase == old(mark.phase) ==>
                && executionChannel == old(executionChannel) && SocketOf(executionChannel) == old(SocketOf(executionChannel))
                && statusChannel == old(statusChannel) && SocketOf(statusChannel) == old(SocketOf(statusChannel))
      ensures mark.phase != old(mark.phase) ==> closed
    {
      if Terminal(mark.phase) {
        return;
      }
      if !alive.authority {
        FailLifecycle(None);
        return;
      }
      if !alive.scheduler {
        FailLifecycle(None);
        return;
      }
      if observers > 0 && !alive.observer {
        FailLifecycle(None);
      }
    }

    method CloseHandle(cleanupOk: bool) returns (outcome: Outcome)
      requires Valid()
      modifies this, scheduler, executionChannel, statusChannel, SocketOf(executionChannel), SocketOf(statusChannel)
      ensures Valid() && (View(), outcome) == Close(old(View()), cleanupOk)
      ensures !old(closed) && old(executionChannel) != null ==> old(executionChannel).View() == Poison(old(executionChannel.View()))
      ensures !old(closed) && old(statusChannel) != null ==> old(statusChannel).View() == Poison(old(statusChannel.View()))
    {
      outcome := if cleanupOk then Done else Raises;
      if closed {
        if mark.phase.Failed? {
          CleanupOwned();
        } else {
          outcome := Done;
        }
        return;
      }
      CloseOpen(cleanupOk);
    }

    method CloseOpen(cleanupOk: bool)
      requires Valid() && !closed
      modifies this, scheduler, executionChannel, statusChannel, SocketOf(executionChannel), SocketOf(statusChannel)
      ensures Valid() && View() == Close(old(View()), cleanupOk).0
      ensures old(executionChannel) != null ==> old(executionChannel).View() == Poison(old(executionChannel.View()))
      ensures old(statusChannel) != null ==> old(statusChannel).View() == Poison(old(statusChannel.View()))
    {
      var consumed := mark.consumed;
      MarkClosed(Mark(Closing, consumed));
      CleanupOwned();
      SetMark(Mark(if cleanupOk then Closed else Failed, consumed));
    }

    /** The activation message with both descriptors. */
    method SendEndpoint(a: Activation, socketOpen: bool) returns (raised: bool)
      requires execTransit && !scheduler.transferred
      modifies this`execTransit, this`schedulerClient, this`trail, scheduler
      ensures
        var h := old(View());
        match Effective(h, a, socketOpen)
        case FailsBeforeUse => raised && View() == h
        case FailsBeforeTransfer => raised && View() == h.(used := true)
        case FailsAfterTransfer => raised && View() == Transferred(h)
        case Activates => !raised && View() == Transferred(h)
    {
      raised := scheduler.Activate(a, socketOpen);
      if scheduler.transferred {
        execTransit := false;
        schedulerClient := Some(BOUND);
        NoteNow();
      }
    }

    /** The supervisor lets go of the execution channel. */
    method ReleaseExecution()
      requires Valid()
      modifies this`executionChannel, this`trail
      ensures Valid() && executionChannel == null && View() == Note(old(View()).(exec := None))
    {
      executionChannel := null;
      NoteNow();
    }

    method CountExecutor(prior: Phase)
      modifies this`executors, this`mark, this`trail
      ensures
        var h := old(View());
        View() == SetPhase(h.(executors := h.executors + 1), StartedPhase(prior))
    {
      executors := executors + 1;
      SetMark(Plain(StartedPhase(prior)));
    }

    /** What follows the health check of a new executor. */
    method AfterHealth(health: HealthCheck, prior: Phase) returns (raised: bool)
      requires Valid() && executionChannel == null
      modifies this, scheduler, statusChannel, SocketOf(statusChannel)
      ensures Valid() && executionChannel == null
      ensures statusChannel == null || (statusChannel == old(statusChannel) && statusChannel.channelSocket == old(SocketOf(statusChannel)))
      ensures
        var handed := old(View());
        match health
        case Healthy => !raised && View() == SetPhase(handed.(executors := handed.executors + 1), StartedPhase(prior))
        case Breaks => raised && View() == ComponentFailed(handed)
        case BadReply => raised && View() == handed
    {
      raised := !health.Healthy?;
      match health
      case Healthy => CountExecutor(prior);
      case Breaks => OnComponentFailed();
      case BadReply =>
    }

    /** From the accepted activation to the end of the `try` block. */
    method AdmitExecutor(health: HealthCheck, prior: Phase) returns (raised: bool)
      requires Valid()
      modifies this, scheduler, executionChannel, statusChannel, SocketOf(executionChannel), SocketOf(statusChannel)
      ensures Valid() && executionChannel == null
      ensures statusChannel == null || (statusChannel == old(statusChannel) && statusChannel.channelSocket == old(SocketOf(statusChannel)))
      ensures
        var handed := Note(old(View()).(exec := None));
        match health
        case Healthy => !raised && View() == SetPhase(handed.(executors := handed.executors + 1), StartedPhase(prior))
        case Breaks => raised && View() == ComponentFailed(handed)
        case BadReply => raised && View() == handed
    {
      ReleaseExecution();
      raised := AfterHealth(health, prior);
    }

    /** The client takes the endpoint back. */
    method HandBack(channel: JsonClient, socket: Endpoint)
      requires Valid() && socket != SocketOf(statusChannel) && channel != statusChannel
      requires executionChannel == channel && channel.channelSocket == null && channel.poisoned
      modifies this`execTransit, this`trail, channel
      ensures Valid() && channel.channelSocket == socket
      ensures
        var h := old(View());
        View() == Note(h.(exec := Some(Reattach(h.exec.value, socket.isOpen).0), execTransit := false))
    {
      var transfer := channel.ReattachSocket(socket);
      execTransit := false;
      NoteNow();
    }

    /** The prior record again when the scheduler was not used, a failure otherwise. */
    method RestoreOrFail(prior: Phase)
      requires Valid()
      modifies this, scheduler, executionChannel, statusChannel, SocketOf(executionChannel), SocketOf(statusChannel)
      ensures Valid()
      ensures executionChannel == null || (executionChannel == old(executionChannel) && executionChannel.channelSocket == old(SocketOf(executionChannel)))
      ensures statusChannel == null || (statusChannel == old(statusChannel) && statusChannel.channelSocket == old(SocketOf(statusChannel)))
      ensures
        var h := old(View());
        View() == if !h.used then SetPhase(h, prior)
                  else Fail(if h.transferred then h.(exec := None) else h, None)
    {
      if !scheduler.used {
        SetMark(Plain(prior));
      } else {
        FailUsed();
      }
    }

    method FailUsed()
      requires Valid()
      modifies this, scheduler, executionChannel, statusChannel, SocketOf(executionChannel), SocketOf(statusChannel)
      ensures Valid() && executionChannel == null && statusChannel == null
      ensures
        var h := old(View());
        View() == Fail(if h.transferred then h.(exec := None) else h, None)
    {
      DropTransferred();
      FailLifecycle(None);
    }

    /** A transferred channel is forgotten without being closed. */
    method DropTransferred()
      requires Valid()
      modifies this`executionChannel
      ensures Valid() && executionChannel == if scheduler.transferred then null else old(executionChannel)
      ensures View() == if scheduler.transferred then old(View()).(exec := None) else old(View())
    {
      if scheduler.transferred {
        executionChannel := null;
      }
    }

    /** The `except` block: hand the endpoint back unless it is gone, then restore or fail. */
    method Recover(channel: JsonClient, socket: Endpoint, prior: Phase)
      requires Valid() && socket != SocketOf(statusChannel) && channel != statusChannel
      requires if scheduler.transferred then executionChannel == null || (executionChannel == channel && channel.channelSocket == null)
               else executionChannel == channel && channel.channelSocket == null && channel.poisoned
      modifies this, scheduler, executionChannel, statusChannel, SocketOf(executionChannel), SocketOf(statusChannel), channel, socket
      ensures Valid() && SocketOf(statusChannel) != socket
      ensures SocketOf(executionChannel) == null || SocketOf(executionChannel) == socket
      ensures
        var h := old(View());
        var back := if h.transferred || h.exec.None? then h
                    else Note(h.(exec := Some(Reattach(h.exec.value, old(socket.isOpen)).0), execTransit := false));
        View() == if !back.used then SetPhase(back, prior)
                  else Fail(if back.transferred then back.(exec := None) else back, None)
    {
      if !scheduler.transferred {
        HandBack(channel, socket);
      }
      RestoreOrFail(prior);
    }

    /** The exit stack closes the socket object, also when a client has just been given it. */
    method ExitStack(socket: Endpoint)
      requires Valid() && SocketOf(statusChannel) != socket
      requires SocketOf(executionChannel) == null || SocketOf(executionChannel) == socket
      modifies socket, this`trail
      ensures Valid() && View() == Note(old(View()).(exec := CloseSocket(old(View()).exec)))
    {
      socket.isOpen := false;
      NoteNow();
    }

    method Unwind(channel: JsonClient, socket: Endpoint, prior: Phase)
      requires Valid() && socket != SocketOf(statusChannel) && channel != statusChannel
      requires if scheduler.transferred then executionChannel == null || (executionChannel == channel && channel.channelSocket == null)
               else executionChannel == channel && channel.channelSocket == null && channel.poisoned
      modifies this, scheduler, executionChannel, statusChannel, SocketOf(executionChannel), SocketOf(statusChannel), channel, socket
      ensures Valid() && View() == AbortSpawn(old(View()), prior, old(socket.isOpen))
    {
      Recover(channel, socket, prior);
      ExitStack(socket);
    }

    method SpawnExecutor(i: SpawnInput) returns (outcome: Outcome)
      requires Valid() && Inv(View())
      modifies this, scheduler, executionChannel, statusChannel, SocketOf(executionChannel), SocketOf(statusChannel)
      ensures Valid() && (View(), outcome) == Spawn(old(View()), i)
      ensures Inv(View())
    {
      SpawnInv(View(), i);
      RefreshInv(View(), i.alive);
      RefreshLiveness(i.alive);
      if closed {
        return Refuses("authority_unavailable");
      }
      var phase := mark.phase;
      if !phase.AuthorityReady? && !phase.ObserverReady? {
        return Refuses(if phase.ObserverStarting? then "observer_starting" else "execution_channel_already_composed");
      }
      if i.sourceExists || !i.schedulerKnown {
        return Refuses("ISOLATION_UNAVAILABLE");
      }
      if !i.argumentsOk {
        return Raises;
      }
      outcome := LaunchScheduler(i);
    }

    method LaunchScheduler(i: SpawnInput) returns (outcome: Outcome)
      requires Valid() && Inv(View()) && (mark.phase.AuthorityReady? || mark.phase.ObserverReady?)
      modifies this, scheduler, executionChannel, statusChannel, SocketOf(executionChannel), SocketOf(statusChannel)
      ensures Valid() && (View(), outcome) == Launch(old(View()), i)
    {
      ghost var before := View();
      var phase := mark.phase;
      var channel := executionChannel;
      SetMark(Plain(StartingPhase(phase)));
      if !i.socketpairOk {
        return Raises;
      }
      var transfer, socket := channel.DetachSocket();
      if transfer.Refused? {
        return Raises;
      }
      execTransit := true;
      NoteNow();
      outcome := ActivateDetached(i, phase, channel, socket);
    }

    /** The `try` statement of `spawn_executor` and the exit stack around it. */
    method ActivateDetached(i: SpawnInput, prior: Phase, channel: JsonClient, socket: Endpoint) returns (outcome: Outcome)
      requires Valid() && executionChannel == channel && channel.channelSocket == null && channel.poisoned
      requires socket != SocketOf(statusChannel) && execTransit && !scheduler.transferred
      modifies this, scheduler, executionChannel, statusChannel, SocketOf(executionChannel), SocketOf(statusChannel), channel, socket
      ensures Valid() && (View(), outcome) == Activate(old(View()), i, prior, old(socket.isOpen))
    {
      var raised := SendEndpoint(i.activation, socket.isOpen);
      if raised {
        Unwind(channel, socket, prior);
        outcome := Raises;
      } else {
        outcome := AdmitOrUnwind(i.health, prior, channel, socket);
      }
    }

    method AdmitOrUnwind(health: HealthCheck, prior: Phase, channel: JsonClient, socket: Endpoint) returns (outcome: Outcome)
      requires Valid() && executionChannel == channel && channel.channelSocket == null
      requires socket != SocketOf(statusChannel) && scheduler.transferred
      modifies this, scheduler, executionChannel, statusChannel, SocketOf(executionChannel), SocketOf(statusChannel), channel, socket
      ensures Valid() && (View(), outcome) == AfterActivation(old(View()), health, prior, old(socket.isOpen))
    {
      var raised := AdmitExecutor(health, prior);
      if raised {
        Unwind(channel, socket, prior);
        outcome := Raises;
      } else {
        socket.isOpen := false;
        outcome := Done;
      }
    }

    /** The `except` block of the observer transaction. */
    method AbortObserverStart(i: ObserverInput)
      requires Valid()
      modifies this, scheduler, executionChannel, statusChannel, SocketOf(executionChannel), SocketOf(statusChannel)
      ensures Valid() && View() == AbortObserver(old(View()), i)
    {
      if statusChannel != null && !i.sourceGone {
        SetMark(Plain(AuthorityReady));
      } else {
        FailLifecycle(Some(i.sourceGone));
      }
    }

    /** `_start_authority_observer_transaction` */
    method StartObserverTransaction(i: ObserverInput) returns (outcome: Outcome)
      requires Valid() && Inv(View())
      modifies this, scheduler, executionChannel, statusChannel, SocketOf(executionChannel), SocketOf(statusChannel)
      ensures Valid() && (View(), outcome) == StartObserver(old(View()), i)
      ensures Inv(View())
    {
      StartObserverInv(View(), i);
      var phase := mark.phase;
      if !phase.AuthorityReady? {
        return Refuses(if phase.ObserverStarting? || phase.ObserverReady? then "observer_already_started"
                       else if Terminal(phase) then "ISOLATION_UNAVAILABLE"
                       else "observer_must_precede_scheduler");
      }
      SetMark(Plain(ObserverStarting));
      if i.start.FailsBeforeDetach? {
        AbortObserverStart(i);
        return Raises;
      }
      DetachStatus();
      outcome := FinishObserver(i);
    }

    method DetachStatus()
      requires Valid() && statusChannel != null && Usable(statusChannel.View())
      modifies this`statusChannel, this`statusTransit, this`trail, statusChannel
      ensures Valid() && statusChannel == null
      ensures View() == Note(old(View()).(status := None, statusTransit := true))
      ensures SocketOf(executionChannel) == old(SocketOf(executionChannel))
    {
      var transfer, socket := statusChannel.DetachSocket();
      statusChannel := null;
      statusTransit := true;
      NoteNow();
    }

    ghost method EndTransit(holder: Option<Client>)
      modifies this`statusTransit, this`observerClient, this`trail
      ensures View() == Note(old(View()).(statusTransit := false, observerClient := holder))
    {
      statusTransit := false;
      observerClient := holder;
      NoteNow();
    }

    method FinishObserver(i: ObserverInput) returns (outcome: Outcome)
      requires Valid()
      modifies this, scheduler, executionChannel, statusChannel, SocketOf(executionChannel), SocketOf(statusChannel)
      ensures Valid() && (View(), outcome) == HandOver(old(View()), i)
    {
      if i.start.FailsAfterDetach? {
        EndTransit(observerClient);
        AbortObserverStart(i);
        return Raises;
      }
      EndTransit(Some(BOUND));
      if i.start.FailsAfterHandover? {
        AbortObserverStart(i);
        return Raises;
      }
      observers := observers + 1;
      outcome := AdmitObserver(i);
    }

    method AdmitObserver(i: ObserverInput) returns (outcome: Outcome)
      requires Valid()
      modifies this, scheduler, executionChannel, statusChannel, SocketOf(executionChannel), SocketOf(statusChannel)
      ensures Valid() && (View(), outcome) == Admit(old(View()), i)
    {
      if i.start.WatcherFails? {
        AbortObserverStart(i);
        return Raises;
      }
      SetMark(Plain(ObserverReady));
      RefreshLiveness(i.alive);
      if mark.phase.Failed? {
        AbortObserverStart(i);
        return Raises;
      }
      return Done;
    }
  }
}
