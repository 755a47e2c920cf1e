/** The lifecycle and the protocol together: the authority starts with both transferable
    endpoints in the supervisor's hands, a lifecycle operation may hand one to a child, and only
    the child that bound its own fresh client to it calls on that channel
    (authority_service.py, 1212-1231, 2709-2720, 3505-3545 and 4001-4016).

    The supervisor calls nothing on the execution and status channels; its administration client
    calls from the start.
 */
module Handover {
  import opened JsonTerms
  import opened RpcClient
  import opened ServingLoop
  import OutboxMonitor
  import L = Lifecycle
  import P = RpcProtocol

  datatype Joint = Joint(handle: L.Handle, system: P.System)

  datatype Move = Operate(op: L.Op) | Network(action: P.Action)

  /** A client that may call is bound to the channel. */
  predicate HandedOver(h: L.Handle, ch: Channel) {
    match ch
    case Execution => h.schedulerClient.Some?
    case StatusSigning => h.observerClient.Some?
    case Admin => true
  }

  ghost predicate Allowed(id: P.Identity, j: Joint, m: Move)
    requires Complete(j.system.callers)
  {
    m.Network? ==>
      && P.Allowed(id, j.system, m.action)
      && (m.action.Ask? ==> HandedOver(j.handle, m.action.channel))
  }

  /** The child that has just received an endpoint calls on it with the client it bound. */
  function Bind(s: P.System, before: L.Handle, after: L.Handle): P.System {
    var callers := if before.schedulerClient.None? && after.schedulerClient.Some?
                   then s.callers[Execution := P.Caller(after.schedulerClient.value, None, [])] else s.callers;
    s.(callers := if before.observerClient.None? && after.observerClient.Some?
                  then callers[StatusSigning := P.Caller(after.observerClient.value, None, [])] else callers)
  }

  ghost function Step(id: P.Identity, j: Joint, m: Move): Joint
    requires Complete(j.system.callers) && Allowed(id, j, m)
  {
    match m
    case Operate(op) =>
      var after := L.Do(j.handle, op);
      Joint(after, Bind(j.system, j.handle, after))
    case Network(a) => j.(system := P.Step(id, j.system, a))
  }

  ghost predicate ValidRun(id: P.Identity, j: Joint, moves: seq<Move>)
    requires Complete(j.system.callers)
    decreases |moves|
  {
    moves == [] || (Allowed(id, j, moves[0]) && ValidRun(id, Step(id, j, moves[0]), moves[1..]))
  }

  ghost function After(id: P.Identity, j: Joint, moves: seq<Move>): Joint
    requires Complete(j.system.callers) && ValidRun(id, j, moves)
    decreases |moves|
  {
    if moves == [] then j else After(id, Step(id, j, moves[0]), moves[1..])
  }

  function Start(m: OutboxMonitor.Monitor): Joint {
    Joint(L.Created(), P.Start(m))
  }

  // ------------------------------------------------------------------ invariant

  /** Nothing was called on a channel before its endpoint was handed over. */
  ghost predicate Quiet(j: Joint)
    requires Complete(j.system.callers)
  {
    forall ch: Channel :: !HandedOver(j.handle, ch) ==> j.system.callers[ch] == P.IDLE
  }

  ghost predicate Inv(id: P.Identity, j: Joint) {
    L.Inv(j.handle) && P.Inv(id, j.system) && Quiet(j)
  }

  ghost predicate KeepsClients(h: L.Handle, after: L.Handle) {
    && (h.schedulerClient.Some? ==> after.schedulerClient == h.schedulerClient)
    && (h.observerClient.Some? ==> after.observerClient == h.observerClient)
  }

  /** The scheduler's endpoint moves only from a handle whose scheduler was never used. */
  lemma SpawnKeepsClients(h: L.Handle, i: L.SpawnInput)
    requires L.Inv(h)
    ensures KeepsClients(h, L.Spawn(h, i).0)
  {
    L.RefreshInv(h, i.alive);
  }

  /** The observer's endpoint moves only from a handle that has no observer yet. */
  lemma ObserverKeepsClients(h: L.Handle, i: L.ObserverInput)
    requires L.Inv(h)
    ensures KeepsClients(h, L.StartObserver(h, i).0)
  {
  }

  /** A child that holds an endpoint keeps it: no later operation hands it to another one. */
  lemma ClientsStay(h: L.Handle, op: L.Op)
    requires L.Inv(h)
    ensures h.schedulerClient.Some? ==> L.Do(h, op).schedulerClient == h.schedulerClient
    ensures h.observerClient.Some? ==> L.Do(h, op).observerClient == h.observerClient
  {
    match op
    case DoSpawn(i) => SpawnKeepsClients(h, i);
    case DoStartObserver(i) => ObserverKeepsClients(h, i);
    case DoComponentFailed =>
    case DoPoll(_) =>
    case DoClose(_) =>
  }

  /** Binding a fresh client where nothing was called changes no caller. */
  lemma BindChangesNothing(s: P.System, before: L.Handle, after: L.Handle)
    requires Complete(s.callers)
    requires before.schedulerClient.None? && after.schedulerClient.Some? ==>
               after.schedulerClient.value == L.BOUND && s.callers[Execution] == P.IDLE
    requires before.observerClient.None? && after.observerClient.Some? ==>
               after.observerClient.value == L.BOUND && s.callers[StatusSigning] == P.IDLE
    ensures Bind(s, before, after) == s
  {
    assert s.callers[Execution := s.callers[Execution]] == s.callers;
    assert s.callers[StatusSigning := s.callers[StatusSigning]] == s.callers;
  }

  lemma ClientsAreFresh(h: L.Handle)
    requires L.Inv(h)
    ensures h.schedulerClient.Some? ==> h.schedulerClient.value == L.BOUND
    ensures h.observerClient.Some? ==> h.observerClient.value == L.BOUND
  {
  }

  lemma QuietStays(s: P.System, before: L.Handle, after: L.Handle)
    requires Complete(s.callers) && Quiet(Joint(before, s))
    requires before.schedulerClient.Some? ==> after.schedulerClient.Some?
    requires before.observerClient.Some? ==> after.observerClient.Some?
    ensures Quiet(Joint(after, s))
  {
    forall ch: Channel | !HandedOver(after, ch) ensures s.callers[ch] == P.IDLE {
      assert !HandedOver(before, ch);
    }
  }

  /** Handing an endpoint over leaves the protocol state as it is: the child's client starts
      exactly where the silent client it replaces stands. */
  lemma OperateKeepsSystem(id: P.Identity, j: Joint, op: L.Op)
    requires Inv(id, j)
    ensures Step(id, j, Operate(op)).system == j.system
    ensures Inv(id, Step(id, j, Operate(op)))
  {
    var after := L.Do(j.handle, op);
    L.DoInv(j.handle, op);
    ClientsStay(j.handle, op);
    ClientsAreFresh(after);
    assert !HandedOver(j.handle, Execution) ==> j.system.callers[Execution] == P.IDLE;
    assert !HandedOver(j.handle, StatusSigning) ==> j.system.callers[StatusSigning] == P.IDLE;
    BindChangesNothing(j.system, j.handle, after);
    QuietStays(j.system, j.handle, after);
  }

  lemma StepKeepsInv(id: P.Identity, j: Joint, m: Move)
    requires Inv(id, j) && Allowed(id, j, m)
    ensures Inv(id, Step(id, j, m))
  {
    match m
    case Operate(op) => OperateKeepsSystem(id, j, op);
    case Network(a) =>
      P.StepKeepsInv(id, j.system, a);
      var s' := P.Step(id, j.system, a);
      forall ch: Channel | !HandedOver(j.handle, ch) ensures s'.callers[ch] == P.IDLE {
        assert j.system.callers[ch] == P.IDLE;
      }
  }

  lemma {:induction false} RunKeepsInv(id: P.Identity, j: Joint, moves: seq<Move>)
    requires Inv(id, j) && ValidRun(id, j, moves)
    ensures Inv(id, After(id, j, moves))
    decreases |moves|
  {
    if moves != [] {
      StepKeepsInv(id, j, moves[0]);
      RunKeepsInv(id, Step(id, j, moves[0]), moves[1..]);
    }
  }

  lemma StartInv(id: P.Identity, m: OutboxMonitor.Monitor)
    ensures Inv(id, Start(m)) && P.Lockstep(Start(m).system)
  {
    L.CreatedInv();
    P.StartInLockstep(id, m);
  }

  // ------------------------------------------------------------------- lockstep

  ghost predicate TimelyRun(id: P.Identity, j: Joint, moves: seq<Move>)
    requires Complete(j.system.callers) && ValidRun(id, j, moves)
    decreases |moves|
  {
    moves == [] ||
    (&& (moves[0].Network? && moves[0].action.Serve? ==> P.Timely(j.system, moves[0].action.turn))
     && TimelyRun(id, Step(id, j, moves[0]), moves[1..]))
  }

  /** The lockstep holds before the run and after each of its moves. */
  ghost predicate StaysInLockstep(id: P.Identity, j: Joint, moves: seq<Move>)
    requires Complete(j.system.callers) && ValidRun(id, j, moves)
    decreases |moves|
  {
    && Consistent(j.system.server) && P.Lockstep(j.system)
    && (moves != [] ==> StaysInLockstep(id, Step(id, j, moves[0]), moves[1..]))
  }

  lemma StepInLockstep(id: P.Identity, j: Joint, m: Move)
    requires Inv(id, j) && Allowed(id, j, m) && P.Lockstep(j.system)
    ensures Inv(id, Step(id, j, m))
    ensures P.Lockstep(Step(id, j, m).system) <==> (m.Network? && m.action.Serve? ==> P.Timely(j.system, m.action.turn))
  {
    StepKeepsInv(id, j, m);
    match m
    case Operate(op) => OperateKeepsSystem(id, j, op);
    case Network(a) =>
      if a.Serve? {
        P.TurnInStepIff(id, j.system, a.turn);
      } else {
        P.CallerInStep(id, j.system, a);
      }
  }

  /** Across every mix of lifecycle operations, transfers, calls and network behaviour, a run
      stays in lockstep exactly when every turn of the authority is timely. */
  lemma {:induction false} LockstepIffTimely(id: P.Identity, j: Joint, moves: seq<Move>)
    requires Inv(id, j) && P.Lockstep(j.system) && ValidRun(id, j, moves)
    ensures StaysInLockstep(id, j, moves) <==> TimelyRun(id, j, moves)
    ensures TimelyRun(id, j, moves) ==> Inv(id, After(id, j, moves)) && P.Lockstep(After(id, j, moves).system)
    decreases |moves|
  {
    if moves != [] {
      StepInLockstep(id, j, moves[0]);
      if P.Lockstep(Step(id, j, moves[0]).system) {
        LockstepIffTimely(id, Step(id, j, moves[0]), moves[1..]);
      }
    }
  }

  // ------------------------------------------------------------------- theorems

  /** No call precedes a transfer, whatever the network does: until a channel is handed over no
      client has called on it, and what a child completes afterwards are the frames of that
      channel, the n-th call the n-th frame. */
  lemma NoCallPrecedesTransfer(id: P.Identity, m: OutboxMonitor.Monitor, moves: seq<Move>, ch: Channel)
    requires Complete(Start(m).system.callers) && ValidRun(id, Start(m), moves)
    ensures
      var j := After(id, Start(m), moves);
      && Complete(j.system.callers) && Consistent(j.system.server)
      && (!HandedOver(j.handle, ch) ==> j.system.callers[ch].client.sequence == 0 && j.system.callers[ch].calls == [])
      && (forall n: nat :: n < |j.system.callers[ch].calls| ==> P.CallIsFrame(j.system, ch, n))
  {
    StartInv(id, m);
    RunKeepsInv(id, Start(m), moves);
    var j := After(id, Start(m), moves);
    forall n: nat | n < |j.system.callers[ch].calls| ensures P.CallIsFrame(j.system, ch, n) {
      P.CallsAreFrames(id, j.system, ch, n);
    }
  }

  /** The receiving child's fresh counter meets the authority's.  In every run with timely turns
      the authority has counted nothing on a channel that is not handed over, so at the transfer
      both counters are zero, and from then on they agree between calls. */
  lemma TransferKeepsLockstep(id: P.Identity, m: OutboxMonitor.Monitor, moves: seq<Move>, ch: Channel)
    requires Complete(Start(m).system.callers) && ValidRun(id, Start(m), moves) && TimelyRun(id, Start(m), moves)
    ensures
      var j := After(id, Start(m), moves);
      && Complete(j.system.callers) && Consistent(j.system.server)
      && (!HandedOver(j.handle, ch) ==> j.system.server.sequences[ch] == 0 == j.system.callers[ch].client.sequence)
      && (P.Settled(j.system.callers[ch]) ==> j.system.callers[ch].client.sequence == j.system.server.sequences[ch])
  {
    StartInv(id, m);
    LockstepIffTimely(id, Start(m), moves);
    var j := After(id, Start(m), moves);
    assert P.InStep(j.system, ch);
  }
}
