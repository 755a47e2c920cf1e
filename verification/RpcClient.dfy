/** The authenticated client (authority_service.py, `_JSONClient`): a sequence counter, a
    poison flag and one endpoint that can be handed to a child process.
 */
module RpcClient {
  import opened JsonTerms
  import opened Transcripts

  /** A connected socket object; several owners may hold a reference to it. */
  class Endpoint {
    var isOpen: bool

    constructor ()
      ensures isOpen
    {
      isOpen := true;
    }
  }

  datatype Socket = Detached | Attached(isOpen: bool)

  /** What `_bind_verified_child_channel` fixes for the life of a client. */
  datatype Binding = Binding(session: string, channel: string, authorityPid: int, key: nat)

  datatype Client = Client(sequence: nat, poisoned: bool, socket: Socket)

  /** What the transport hands to a caller that waits for its reply: a decoded frame, or any
      failure to send or receive one. */
  datatype Delivery = Failure | Frame(response: Json)

  datatype RpcOutcome =
    | Returned(result: Json)      // the value the authority signed
    | Denied(reason: Json)        // an error the authority signed
    | Unavailable                 // refused without a request
    | Poisoned                    // the exchange failed; the client is unusable
    | InvalidRequest              // the envelope has no canonical encoding; nothing was touched

  const UNAVAILABLE := Str("authority_unavailable")

  function Envelope(operation: string, request: map<string, Json>): Json {
    Obj(map["operation" := Str(operation), "request" := Obj(request)])
  }

  /** The digest that a reply answers names the operation and the whole request. */
  lemma EnvelopeIsInjective(operation: string, request: map<string, Json>, operation': string, request': map<string, Json>)
    ensures Digest(Envelope(operation, request)) == Digest(Envelope(operation', request')) <==> operation == operation' && request == request'
  {
    var a, b := Envelope(operation, request).fields, Envelope(operation', request').fields;
    assert a["operation"] == Str(operation) && a["request"] == Obj(request);
    assert b["operation"] == Str(operation') && b["request"] == Obj(request');
  }

  function Expected(b: Binding, sequence: nat, envelope: Json): Transcript {
    Transcript(b.session, b.channel, sequence, b.authorityPid, Digest(envelope))
  }

  predicate Usable(c: Client) {
    !c.poisoned && c.socket.Attached?
  }

  function Poison(c: Client): Client {
    c.(poisoned := true, socket := if c.socket.Attached? then Attached(false) else Detached)
  }

  /** The lock is taken and the counter moves before anything is sent. */
  function Begin(c: Client): Client
    requires Usable(c)
  {
    c.(sequence := c.sequence + 1)
  }

  /** `error.get("message")` when it is a non-empty string. */
  function DenialReason(error: map<string, Json>): Json {
    if "message" in error && IsText(error["message"]) && error["message"] != Str("")
    then error["message"] else UNAVAILABLE
  }

  function Judge(b: Binding, sequence: nat, envelope: Json, d: Delivery): RpcOutcome {
    match d
    case Failure => Poisoned
    case Frame(response) =>
      JudgeVerified(VerifyResponse(response, b.key, Expected(b, sequence, envelope)))
  }

  function JudgeVerified(v: Verified): RpcOutcome {
    match v
    case Rejected(_) => Poisoned
    case Accepted(result, error) =>
      if error.Obj? then Denied(DenialReason(error.fields)) else Returned(result)
  }

  /** What a caller makes of an outcome that the authority signed. */
  function OutcomeOf(reply: Outcome): RpcOutcome {
    match reply
    case ResultOf(v) => Returned(v)
    case ErrorOf(e) => Denied(DenialReason(e))
  }

  function Finish(c: Client, o: RpcOutcome): Client {
    if o.Poisoned? then Poison(c) else c
  }

  /** One whole call as its caller sees it. */
  function Rpc(c: Client, b: Binding, envelope: Json, d: Delivery): (Client, RpcOutcome) {
    if !Usable(c) then (c, Unavailable)
    else
      var begun := Begin(c);
      var outcome := Judge(b, begun.sequence, envelope, d);
      (Finish(begun, outcome), outcome)
  }

  datatype Transfer = Moved | Refused

  function Detach(c: Client): (Client, Transfer) {
    if Usable(c) then (c.(socket := Detached, poisoned := true), Moved) else (c, Refused)
  }

  function Reattach(c: Client, isOpen: bool): (Client, Transfer) {
    if c.socket.Attached? || !c.poisoned then (c, Refused)
    else (c.(socket := Attached(isOpen), poisoned := false), Moved)
  }

  class JsonClient {
    const binding: Binding
    var channelSocket: Endpoint?
    var sequence: nat
    var poisoned: bool

    ghost function View(): Client
      reads this, channelSocket
    {
      Client(sequence, poisoned, if channelSocket == null then Detached else Attached(channelSocket.isOpen))
    }

    /** `_bind_verified_child_channel` */
    constructor (b: Binding, connection: Endpoint)
      ensures binding == b && channelSocket == connection
      ensures View() == Client(0, false, Attached(connection.isOpen))
    {
      binding := b;
      channelSocket := connection;
      sequence := 0;
      poisoned := false;
    }

    method PoisonClient()
      modifies this, channelSocket
      ensures View() == Poison(old(View()))
      ensures channelSocket == old(channelSocket)
    {
      poisoned := true;
      if channelSocket != null {
        channelSocket.isOpen := false;
      }
    }

    /** `encodable`: the envelope has a digest. */
    method AuthenticatedRpc(operation: string, request: map<string, Json>, encodable: bool, delivery: Delivery)
      returns (outcome: RpcOutcome)
      modifies this, channelSocket
      ensures !encodable ==> View() == old(View()) && outcome == InvalidRequest
      ensures encodable ==> (View(), outcome) == Rpc(old(View()), binding, Envelope(operation, request), delivery)
      ensures channelSocket == old(channelSocket)
    {
      if !encodable {
        return InvalidRequest;
      }
      var envelope := Envelope(operation, request);
      if poisoned || channelSocket == null {
        return Unavailable;
      }
      sequence := sequence + 1;
      outcome := Exchange(envelope, delivery);
    }

    /** Send, receive and verify under the current number; any failure poisons the client. */
    method Exchange(envelope: Json, delivery: Delivery) returns (outcome: RpcOutcome)
      modifies this, channelSocket
      ensures outcome == Judge(binding, old(sequence), envelope, delivery)
      ensures View() == Finish(old(View()), outcome) && channelSocket == old(channelSocket)
    {
      if delivery.Failure? {
        PoisonClient();
        return Poisoned;
      }
      var verdict := VerifyResponse(delivery.response, binding.key, Expected(binding, sequence, envelope));
      if verdict.Rejected? {
        PoisonClient();
        return Poisoned;
      }
      if verdict.error.Obj? {
        return Denied(DenialReason(verdict.error.fields));
      }
      return Returned(verdict.result);
    }

    method Close()
      modifies this, channelSocket
      ensures View() == Poison(old(View()))
      ensures channelSocket == old(channelSocket)
    {
      PoisonClient();
    }

    method DetachSocket() returns (transfer: Transfer, connection: Endpoint?)
      modifies this
      ensures (View(), transfer) == Detach(old(View()))
      ensures connection == if transfer.Moved? then old(channelSocket) else null
    {
      if poisoned || channelSocket == null {
        return Refused, null;
      }
      connection := channelSocket;
      channelSocket := null;
      poisoned := true;
      transfer := Moved;
    }

    method ReattachSocket(connection: Endpoint) returns (transfer: Transfer)
      modifies this
      ensures (View(), transfer) == Reattach(old(View()), connection.isOpen)
      ensures channelSocket == if transfer.Moved? then connection else old(channelSocket)
    {
      if channelSocket != null || !poisoned {
        return Refused;
      }
      channelSocket := connection;
      poisoned := false;
      transfer := Moved;
    }
  }

  // ---------------------------------------------------------- life of a client

  datatype ClientOp =
    | DoRpc(envelope: Json, delivery: Delivery)
    | DoClose
    | DoDetach
    | DoReattach(isOpen: bool)

  function Apply(c: Client, b: Binding, op: ClientOp): Client {
    match op
    case DoRpc(envelope, d) => Rpc(c, b, envelope, d).0
    case DoClose => Poison(c)
    case DoDetach => Detach(c).0
    case DoReattach(isOpen) => Reattach(c, isOpen).0
  }

  function ApplyAll(c: Client, b: Binding, ops: seq<ClientOp>): Client
    decreases |ops|
  {
    if ops == [] then c else ApplyAll(Apply(c, b, ops[0]), b, ops[1..])
  }

  /** The calls among the operations that were not refused. */
  function Accepted(c: Client, b: Binding, ops: seq<ClientOp>): nat
    decreases |ops|
  {
    if ops == [] then 0
    else
      var counts := ops[0].DoRpc? && !Rpc(c, b, ops[0].envelope, ops[0].delivery).1.Unavailable?;
      (if counts then 1 else 0) + Accepted(Apply(c, b, ops[0]), b, ops[1..])
  }

  /** Over every life of a client its counter is the number of calls that were not refused, and
      a call is refused exactly when the client is poisoned or holds no socket. */
  lemma {:induction false} CounterCountsCalls(c: Client, b: Binding, ops: seq<ClientOp>, envelope: Json, d: Delivery)
    ensures ApplyAll(c, b, ops).sequence == c.sequence + Accepted(c, b, ops)
    ensures
      var end := ApplyAll(c, b, ops);
      Rpc(end, b, envelope, d).1.Unavailable? <==> end.poisoned || end.socket.Detached?
    decreases |ops|
  {
    if ops != [] {
      CounterCountsCalls(Apply(c, b, ops[0]), b, ops[1..], envelope, d);
    }
  }

  /** A request with the reply that the authority signed for it under some number. */
  datatype Answered = Answered(envelope: Json, number: nat, reply: Outcome)

  function CallFor(b: Binding, a: Answered): ClientOp {
    DoRpc(a.envelope, Frame(Sign(b.key, Expected(b, a.number, a.envelope), a.reply)))
  }

  /** What a call does to a usable client when it completes exactly under that number. */
  function Numbered(c: Client, number: nat): Client {
    if number == c.sequence + 1 then c.(sequence := number) else Client(c.sequence + 1, true, Attached(false))
  }

  lemma JudgeSigned(b: Binding, sequence: nat, a: Answered)
    ensures Judge(b, sequence, a.envelope, CallFor(b, a).delivery) == if a.number == sequence then OutcomeOf(a.reply) else Poisoned
  {
    var expected := Expected(b, sequence, a.envelope);
    if a.number == sequence {
      SignThenVerify(b.key, expected, a.reply);
    } else {
      NoCrossTranscriptReplay(b.key, expected, Expected(b, a.number, a.envelope), a.reply);
    }
  }

  lemma RpcJudged(c: Client, b: Binding, envelope: Json, d: Delivery, outcome: RpcOutcome)
    requires Usable(c) && Judge(b, c.sequence + 1, envelope, d) == outcome
    ensures Rpc(c, b, envelope, d) == (Finish(c.(sequence := c.sequence + 1), outcome), outcome)
  {
  }

  /** An authentic reply completes the call exactly when it carries the next number of the
      channel; under any other number it condemns the client. */
  lemma NextNumberCompletes(c: Client, b: Binding, a: Answered)
    requires Usable(c)
    ensures
      Rpc(c, b, a.envelope, CallFor(b, a).delivery) ==
        (Numbered(c, a.number), if a.number == c.sequence + 1 then OutcomeOf(a.reply) else Poisoned)
  {
    JudgeSigned(b, c.sequence + 1, a);
    RpcJudged(c, b, a.envelope, CallFor(b, a).delivery, if a.number == c.sequence + 1 then OutcomeOf(a.reply) else Poisoned);
  }

  function CallsFor(b: Binding, answers: seq<Answered>): (ops: seq<ClientOp>)
    ensures |ops| == |answers| && forall i :: 0 <= i < |ops| ==> ops[i] == CallFor(b, answers[i])
  {
    seq(|answers|, i requires 0 <= i < |answers| => CallFor(b, answers[i]))
  }

  ghost predicate Consecutive(from: nat, numbers: seq<nat>) {
    forall i :: 0 <= i < |numbers| ==> numbers[i] == from + 1 + i
  }

  /** The operation is a call that completes exactly under that number. */
  ghost predicate CompletesAt(b: Binding, op: ClientOp, number: nat) {
    forall c :: Usable(c) ==> Apply(c, b, op) == Numbered(c, number)
  }

  lemma ConsecutiveTail(from: nat, numbers: seq<nat>)
    requires numbers != []
    ensures Consecutive(from, numbers) <==> numbers[0] == from + 1 && Consecutive(from + 1, numbers[1..])
  {
    if numbers[0] == from + 1 && Consecutive(from + 1, numbers[1..]) {
      forall i | 0 <= i < |numbers| ensures numbers[i] == from + 1 + i {
        assert i > 0 ==> numbers[i] == numbers[1..][i - 1];
      }
    }
  }

  lemma {:induction false} ChainOfCalls(c: Client, b: Binding, ops: seq<ClientOp>, numbers: seq<nat>)
    requires Usable(c) && |ops| == |numbers|
    requires forall i :: 0 <= i < |ops| ==> CompletesAt(b, ops[i], numbers[i])
    ensures Usable(ApplyAll(c, b, ops)) <==> Consecutive(c.sequence, numbers)
    decreases |ops|
  {
    if ops != [] {
      ConsecutiveTail(c.sequence, numbers);
      assert CompletesAt(b, ops[0], numbers[0]);
      if numbers[0] == c.sequence + 1 {
        ChainOfCalls(Apply(c, b, ops[0]), b, ops[1..], numbers[1..]);
      } else {
        PoisonedWithSocketStays(Apply(c, b, ops[0]), b, ops[1..]);
      }
    }
  }

  /** A client stays usable through any number of authentic replies exactly when they carry
      consecutive numbers. */
  lemma ConsecutiveRepliesComplete(c: Client, b: Binding, answers: seq<Answered>)
    requires Usable(c)
    ensures
      Usable(ApplyAll(c, b, CallsFor(b, answers))) <==>
      Consecutive(c.sequence, seq(|answers|, i requires 0 <= i < |answers| => answers[i].number))
  {
    var ops := CallsFor(b, answers);
    var numbers := seq(|answers|, i requires 0 <= i < |answers| => answers[i].number);
    forall i | 0 <= i < |ops| ensures CompletesAt(b, ops[i], numbers[i]) {
      SignedCompletesAt(b, answers[i]);
    }
    ChainOfCalls(c, b, ops, numbers);
  }

  lemma SignedCompletesAt(b: Binding, a: Answered)
    ensures CompletesAt(b, CallFor(b, a), a.number)
  {
    forall c | Usable(c) ensures Apply(c, b, CallFor(b, a)) == Numbered(c, a.number) {
      NextNumberCompletes(c, b, a);
    }
  }

  /** The state in which a failed exchange leaves a client: poisoned while it still refers to
      its (closed) socket. */
  predicate Condemned(c: Client) {
    c.poisoned && c.socket == Attached(false)
  }

  /** A failed exchange is permanent: no sequence of calls, closes, transfers or reattachments
      makes the client usable again, and no later call sends or returns anything. */
  lemma {:induction false} CondemnedForever(c: Client, b: Binding, ops: seq<ClientOp>)
    requires Condemned(c)
    ensures ApplyAll(c, b, ops) == c
    ensures forall envelope, d :: Rpc(ApplyAll(c, b, ops), b, envelope, d).1 == Unavailable
    decreases |ops|
  {
    if ops != [] {
      CondemnedForever(Apply(c, b, ops[0]), b, ops[1..]);
    }
  }

  lemma FailedExchangeCondemns(c: Client, b: Binding, envelope: Json, d: Delivery)
    requires Rpc(c, b, envelope, d).1.Poisoned?
    ensures Condemned(Rpc(c, b, envelope, d).0)
  {
  }

  /** At most one side holds the endpoint: a client that gave it away can do nothing with it
      until it is handed back, and a client that holds it refuses a second one. */
  lemma TransferIsExclusive(c: Client, isOpen: bool)
    ensures Detach(c).1.Moved? ==>
              && !Usable(Detach(c).0)
              && Detach(Detach(c).0).1.Refused?
              && Reattach(Detach(c).0, c.socket.isOpen) == (c, Moved)
    ensures Usable(c) ==> Reattach(c, isOpen) == (c, Refused)
  {
  }

  /** A client closed while its endpoint is away becomes usable again when the endpoint comes
      back. */
  lemma CloseWhileDetachedIsUndone(c: Client, isOpen: bool)
    requires Usable(c)
    ensures Usable(Reattach(Poison(Detach(c).0), isOpen).0)
  {
  }

  /** A poisoned client that still refers to a socket stays so. */
  lemma {:induction false} PoisonedWithSocketStays(c: Client, b: Binding, ops: seq<ClientOp>)
    requires c.poisoned && c.socket.Attached?
    ensures !Usable(ApplyAll(c, b, ops))
    decreases |ops|
  {
    if ops != [] {
      PoisonedWithSocketStays(Apply(c, b, ops[0]), b, ops[1..]);
    }
  }

  /** Poisoning is permanent exactly when the client refers to a socket at that moment, open or
      closed: with the endpoint away it can be undone. */
  lemma PoisonIsUndoneIff(c: Client, b: Binding)
    requires c.poisoned
    ensures (exists ops :: Usable(ApplyAll(c, b, ops))) <==> c.socket.Detached?
  {
    if c.socket.Detached? {
      var back := [DoReattach(true)];
      assert back[1..] == [];
      assert ApplyAll(c, b, back) == ApplyAll(Apply(c, b, DoReattach(true)), b, []);
      assert Usable(ApplyAll(c, b, back));
    } else {
      forall ops ensures !Usable(ApplyAll(c, b, ops)) {
        PoisonedWithSocketStays(c, b, ops);
      }
    }
  }
}
