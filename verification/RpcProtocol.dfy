/** The authority protocol end to end: one caller per channel, the serving loop, and a network
    that may drop, replay, reorder, duplicate or invent frames in both directions.

    The only thing the network cannot do is sign: a frame handed to a caller may carry a
    signature under the session key only if the authority sent that signed body earlier.
 */
module RpcProtocol {
  import opened JsonTerms
  import opened Transcripts
  import opened RpcClient
  import opened ServingLoop
  import OutboxMonitor

  /** What the authority announces when it becomes ready. */
  datatype Identity = Identity(session: string, pid: int, key: nat)

  datatype Call = Call(envelope: Json, outcome: RpcOutcome)

  /** A client with the request it is waiting on and the calls it has completed. */
  datatype Caller = Caller(client: Client, pending: Option<Json>, calls: seq<Call>)

  datatype System = System(callers: map<Channel, Caller>, server: Loop)

  function BindingOf(id: Identity, ch: Channel): Binding {
    Binding(id.session, Name(ch), id.pid, id.key)
  }

  datatype Action =
    | Ask(channel: Channel, operation: string, request: map<string, Json>)
    | Receive(to: Channel, delivery: Delivery)
    | Serve(turn: Turn)

  function ReplyTranscript(id: Identity, ch: Channel, i: nat, input: Input): Transcript
    requires !input.Broken?
  {
    Transcript(id.session, Name(ch), i + 1, id.pid, AnsweredDigest(input, i + 1))
  }

  /** `body` is what the authority signed and sent for frame `i` of channel `ch`. */
  ghost predicate SentFor(id: Identity, l: Loop, ch: Channel, i: nat, body: Json) {
    && ch in l.served && i < |l.served[ch]|
    && var f := l.served[ch][i];
       && f.reply.Some? && !f.input.Broken?
       && body == Obj(ResponseBody(ReplyTranscript(id, ch, i, f.input), f.reply.value))
  }

  ghost predicate Released(id: Identity, l: Loop, body: Json) {
    exists ch, i :: SentFor(id, l, ch, i, body)
  }

  predicate CarriesSignature(response: Json, key: nat) {
    && response.Obj? && "signature" in response.fields
    && response.fields["signature"].Signature? && response.fields["signature"].key == key
  }

  /** The one limit on the network. */
  ghost predicate Deliverable(id: Identity, l: Loop, d: Delivery) {
    d.Frame? && CarriesSignature(d.response, id.key) ==> Released(id, l, d.response.fields["signature"].of)
  }

  ghost predicate Allowed(id: Identity, s: System, a: Action)
    requires Complete(s.callers)
  {
    match a
    case Ask(ch, _, _) => s.callers[ch].pending.None? && Usable(s.callers[ch].client)
    case Receive(ch, d) => s.callers[ch].pending.Some? && Deliverable(id, s.server, d)
    case Serve(t) => Consistent(s.server) && !s.server.stopped && t.channel in s.server.open && ValidTurn(t)
  }

  ghost function Step(id: Identity, s: System, a: Action): System
    requires Complete(s.callers) && Allowed(id, s, a)
  {
    match a
    case Ask(ch, operation, request) =>
      var c := s.callers[ch];
      s.(callers := s.callers[ch := c.(client := Begin(c.client), pending := Some(Envelope(operation, request)))])
    case Receive(ch, d) =>
      var c := s.callers[ch];
      var outcome := Judge(BindingOf(id, ch), c.client.sequence, c.pending.value, d);
      s.(callers := s.callers[ch := Caller(Finish(c.client, outcome), None, c.calls + [Call(c.pending.value, outcome)])])
    case Serve(t) => s.(server := ServeTurn(s.server, t))
  }

  ghost predicate ValidRun(id: Identity, s: System, actions: seq<Action>)
    requires Complete(s.callers)
    decreases |actions|
  {
    actions == [] || (Allowed(id, s, actions[0]) && ValidRun(id, Step(id, s, actions[0]), actions[1..]))
  }

  ghost function After(id: Identity, s: System, actions: seq<Action>): System
    requires Complete(s.callers) && ValidRun(id, s, actions)
    decreases |actions|
  {
    if actions == [] then s else After(id, Step(id, s, actions[0]), actions[1..])
  }

  /** Freshly bound clients and a loop that has read nothing. */
  const IDLE := Caller(Client(0, false, Attached(true)), None, [])

  function Start(m: OutboxMonitor.Monitor): System {
    System(map[Execution := IDLE, Admin := IDLE, StatusSigning := IDLE], Fresh(m))
  }

  /** A whole call is the two steps of the protocol: between calls a usable client may ask, its
      call is then settled by whatever is delivered, and the client and the outcome that the
      call leaves are those after both steps. */
  lemma CallIsAskThenReceive(id: Identity, s: System, ch: Channel, operation: string, request: map<string, Json>, d: Delivery)
    requires Complete(s.callers) && s.callers[ch].pending.None? && Usable(s.callers[ch].client)
    requires Deliverable(id, s.server, d)
    ensures
      var envelope := Envelope(operation, request);
      var asked := Step(id, s, Ask(ch, operation, request));
      && Allowed(id, asked, Receive(ch, d))
      && var after := Step(id, asked, Receive(ch, d));
         var (client, outcome) := Rpc(s.callers[ch].client, BindingOf(id, ch), envelope, d);
         after == s.(callers := s.callers[ch := Caller(client, None, s.callers[ch].calls + [Call(envelope, outcome)])])
  {
  }

  // ---------------------------------------------------------------- invariant

  /** A reply says what the handler of that very request returned, or names its failure. */
  ghost predicate HonestReply(f: Served) {
    && !f.input.Broken?
    && (f.input.Request? ==> f.handling.Some?)
    && (f.reply.Some? && f.input.Request? ==>
          match f.reply.value
          case ResultOf(v) => f.handling == Some(Handled(v))
          case ErrorOf(e) =>
            || (f.handling.Some? && f.handling.value.Failed? && e == ErrorBody(f.handling.value.code, f.handling.value.code))
            || e == TOO_LARGE.error)
  }

  predicate IsEnvelope(j: Json) {
    j.Obj? && "operation" in j.fields
  }

  /** Frame `i` of the channel is this call, and its outcome is the reply the authority sent. */
  ghost predicate Vouched(call: Call, i: nat, frames: seq<Served>) {
    && i < |frames|
    && frames[i].input == Request(call.envelope)
    && frames[i].reply.Some?
    && call.outcome == OutcomeOf(frames[i].reply.value)
  }

  ghost predicate CallerInv(c: Caller, frames: seq<Served>) {
    && c.client.sequence == |c.calls| + (if c.pending.Some? then 1 else 0)
    && (c.pending.Some? ==> Usable(c.client) && IsEnvelope(c.pending.value))
    && (!Usable(c.client) ==> Condemned(c.client) && c.calls != [])
    && (forall i :: 0 <= i < |c.calls| ==>
          Vouched(c.calls[i], i, frames) || (i == |c.calls| - 1 && c.calls[i].outcome.Poisoned? && !Usable(c.client)))
  }

  ghost predicate Inv(id: Identity, s: System) {
    && Complete(s.callers) && Consistent(s.server)
    && (forall ch: Channel :: AllHonest(s.server.served[ch]))
    && (forall ch: Channel :: CallerInv(s.callers[ch], s.server.served[ch]))
  }

  lemma StartInv(id: Identity, m: OutboxMonitor.Monitor)
    ensures Inv(id, Start(m))
  {
    FreshIsConsistent(m);
    forall ch: Channel ensures ch in Start(m).callers && Start(m).callers[ch] == IDLE {
      match ch
      case Execution =>
      case Admin =>
      case StatusSigning =>
    }
  }

  lemma FramesAreHonest(t: Turn)
    requires !t.input.Broken?
    ensures HonestReply(FrameOf(t))
  {
  }

  /** Frames added later say nothing new about the calls already made. */
  lemma CallerInvExtends(c: Caller, frames: seq<Served>, more: seq<Served>)
    requires CallerInv(c, frames) && frames <= more
    ensures CallerInv(c, more)
  {
    forall i | 0 <= i < |c.calls| && Vouched(c.calls[i], i, frames) ensures Vouched(c.calls[i], i, more) {
      assert more[i] == frames[i];
    }
  }

  ghost predicate AllHonest(frames: seq<Served>) {
    forall i :: 0 <= i < |frames| ==> HonestReply(frames[i])
  }

  lemma ServedGrows(l: Loop, t: Turn, ch: Channel)
    requires Consistent(l) && ValidTurn(t) && AllHonest(l.served[ch])
    ensures ch in ServeTurn(l, t).served && l.served[ch] <= ServeTurn(l, t).served[ch]
    ensures AllHonest(ServeTurn(l, t).served[ch])
  {
    TurnRecordsFrame(l, t);
    if !t.input.Broken? {
      FramesAreHonest(t);
    }
  }

  lemma ServeKeepsInv(id: Identity, s: System, t: Turn)
    requires Inv(id, s) && Allowed(id, s, Serve(t))
    ensures Inv(id, Step(id, s, Serve(t)))
  {
    TurnKeepsConsistent(s.server, t);
    forall ch: Channel
      ensures AllHonest(ServeTurn(s.server, t).served[ch]) && CallerInv(s.callers[ch], ServeTurn(s.server, t).served[ch])
    {
      ServedGrows(s.server, t, ch);
      CallerInvExtends(s.callers[ch], s.server.served[ch], ServeTurn(s.server, t).served[ch]);
    }
  }

  /** A reply to an unreadable frame answers a digest that no request has. */
  lemma MarkerIsNoEnvelope(input: Input, number: nat, envelope: Json)
    requires !input.Broken? && IsEnvelope(envelope) && AnsweredDigest(input, number) == Digest(envelope)
    ensures input == Request(envelope)
  {
  }

  /** Equal transcripts name one channel, one frame number and one request. */
  lemma TranscriptNamesFrame(id: Identity, ch: Channel, sequence: nat, envelope: Json, ch': Channel, i: nat, input: Input)
    requires !input.Broken? && IsEnvelope(envelope)
    requires Expected(BindingOf(id, ch), sequence, envelope) == ReplyTranscript(id, ch', i, input)
    ensures ch' == ch && i + 1 == sequence && input == Request(envelope)
  {
    NamesDiffer(ch, ch');
    MarkerIsNoEnvelope(input, i + 1, envelope);
  }

  /** Whatever the network delivers, a response that verifies is the authority's reply to this
      request, as the frame with this number on this channel. */
  lemma VerifiedComesFromFrame(id: Identity, l: Loop, ch: Channel, sequence: nat, envelope: Json, response: Json)
    requires IsEnvelope(envelope) && Deliverable(id, l, Frame(response)) && Complete(l.served)
    requires VerifyResponse(response, id.key, Expected(BindingOf(id, ch), sequence, envelope)).Accepted?
    ensures 0 < sequence <= |l.served[ch]|
    ensures
      var f := l.served[ch][sequence - 1];
      && f.input == Request(envelope) && f.reply.Some?
      && VerifyResponse(response, id.key, Expected(BindingOf(id, ch), sequence, envelope)) == Meaning(f.reply.value)
  {
    var t := Expected(BindingOf(id, ch), sequence, envelope);
    var body := response.fields["signature"].of;
    assert CarriesSignature(response, id.key);
    var ch', i: nat :| SentFor(id, l, ch', i, body);
    var f := l.served[ch'][i];
    VerifyPinsSignedBody(response, id.key, t, ReplyTranscript(id, ch', i, f.input), f.reply.value);
    TranscriptNamesFrame(id, ch, sequence, envelope, ch', i, f.input);
  }

  lemma AcceptedMeansVouched(id: Identity, s: System, ch: Channel, d: Delivery)
    requires Inv(id, s) && Allowed(id, s, Receive(ch, d))
    ensures
      var c := s.callers[ch];
      var outcome := Judge(BindingOf(id, ch), c.client.sequence, c.pending.value, d);
      outcome.Poisoned? || Vouched(Call(c.pending.value, outcome), |c.calls|, s.server.served[ch])
  {
    var c := s.callers[ch];
    assert CallerInv(c, s.server.served[ch]);
    var outcome := Judge(BindingOf(id, ch), c.client.sequence, c.pending.value, d);
    if !outcome.Poisoned? {
      VerifiedComesFromFrame(id, s.server, ch, c.client.sequence, c.pending.value, d.response);
    }
  }

  lemma StepKeepsInv(id: Identity, s: System, a: Action)
    requires Inv(id, s) && Allowed(id, s, a)
    ensures Inv(id, Step(id, s, a))
  {
    match a
    case Serve(t) => ServeKeepsInv(id, s, t);
    case Ask(ch, operation, request) =>
      assert CallerInv(s.callers[ch], s.server.served[ch]);
      assert CallerInv(Step(id, s, a).callers[ch], s.server.served[ch]);
    case Receive(ch, d) =>
      assert CallerInv(s.callers[ch], s.server.served[ch]);
      AcceptedMeansVouched(id, s, ch, d);
      assert CallerInv(Step(id, s, a).callers[ch], s.server.served[ch]);
  }

  lemma {:induction false} RunKeepsInv(id: Identity, s: System, actions: seq<Action>)
    requires Inv(id, s) && ValidRun(id, s, actions)
    ensures Inv(id, After(id, s, actions))
    decreases |actions|
  {
    if actions != [] {
      StepKeepsInv(id, s, actions[0]);
      RunKeepsInv(id, Step(id, s, actions[0]), actions[1..]);
    }
  }

  // ----------------------------------------------------------------- theorems

  ghost predicate Reachable(id: Identity, s: System) {
    exists m, actions :: ReachedBy(id, m, actions, s)
  }

  ghost predicate ReachedBy(id: Identity, m: OutboxMonitor.Monitor, actions: seq<Action>, s: System) {
    && Complete(Start(m).callers) && ValidRun(id, Start(m), actions) && s == After(id, Start(m), actions)
  }

  lemma ReachableInv(id: Identity, s: System)
    requires Reachable(id, s)
    ensures Inv(id, s)
  {
    var m, actions :| ReachedBy(id, m, actions, s);
    StartInv(id, m);
    RunKeepsInv(id, Start(m), actions);
  }

  /** What completed call `n` of a channel says about frame `n` of that channel. */
  ghost predicate CallIsFrame(s: System, ch: Channel, n: nat)
    requires Complete(s.callers) && Complete(s.server.served) && n < |s.callers[ch].calls|
  {
    var call, frames := s.callers[ch].calls[n], s.server.served[ch];
    match call.outcome
    case Returned(v) =>
      n < |frames| && frames[n].input == Request(call.envelope) && frames[n].handling == Some(Handled(v))
    case Denied(reason) =>
      && n < |frames| && frames[n].input == Request(call.envelope) && frames[n].handling.Some?
      && (|| reason == Str("response_too_large")
          || (&& frames[n].handling.value.Failed?
              && reason == if frames[n].handling.value.code == "" then UNAVAILABLE else Str(frames[n].handling.value.code)))
    case Poisoned => n == |s.callers[ch].calls| - 1 && Condemned(s.callers[ch].client)
    case Unavailable => false
    case InvalidRequest => false
  }

  lemma CallsAreFrames(id: Identity, s: System, ch: Channel, n: nat)
    requires Inv(id, s) && n < |s.callers[ch].calls|
    ensures CallIsFrame(s, ch, n)
  {
    var call, frames := s.callers[ch].calls[n], s.server.served[ch];
    assert CallerInv(s.callers[ch], frames) && AllHonest(frames);
    if Vouched(call, n, frames) {
      assert HonestReply(frames[n]);
      if frames[n].reply.value.ErrorOf? && frames[n].reply.value.error != TOO_LARGE.error {
        DenialNamesCode(frames[n].handling.value.code);
      } else {
        DenialNamesCode("response_too_large");
      }
    }
  }

  /** Integrity of the n-th call.  In every reachable state, a call that returned a value was
      the n-th frame the authority took off that channel, and the value is what the handler
      returned for that request.  A call that was denied carries the failure of that handler,
      or says that the reply did not fit.  Anything else left the client condemned, and only
      the last call can be that one. */
  lemma NthCallIsNthFrame(id: Identity, s: System, ch: Channel, n: nat)
    requires Reachable(id, s) && Complete(s.callers) && Complete(s.server.served)
    requires n < |s.callers[ch].calls|
    ensures CallIsFrame(s, ch, n)
  {
    ReachableInv(id, s);
    CallsAreFrames(id, s, ch, n);
  }

  lemma DenialNamesCode(code: string)
    ensures DenialReason(ErrorBody(code, code)) == if code == "" then UNAVAILABLE else Str(code)
  {
  }

  /** Between calls, and as long as it is not poisoned. */
  predicate Settled(c: Caller) {
    c.pending.None? && Usable(c.client)
  }

  /** The calls of an unpoisoned caller are a prefix of the frames the authority took off its
      channel, each with the reply the authority sent for that frame, so the authority's counter
      never falls behind. */
  lemma CallsArePrefixOfFrames(id: Identity, s: System, ch: Channel)
    requires Reachable(id, s) && Complete(s.callers) && Consistent(s.server)
    requires Settled(s.callers[ch])
    ensures
      var c, frames := s.callers[ch], s.server.served[ch];
      && c.client.sequence == |c.calls| <= |frames| == s.server.sequences[ch]
      && (forall i :: 0 <= i < |c.calls| ==> Vouched(c.calls[i], i, frames))
  {
    ReachableInv(id, s);
    var c, frames := s.callers[ch], s.server.served[ch];
    assert CallerInv(c, frames);
    if c.calls != [] {
      assert Vouched(c.calls[|c.calls| - 1], |c.calls| - 1, frames);
    }
  }

  /** The counters are not equal in every run: one frame injected by the network moves the
      authority's counter while the client, which has done nothing, stays usable. */
  lemma InjectionBreaksLockstep(id: Identity, m: OutboxMonitor.Monitor, ch: Channel)
    ensures exists s ::
      && Reachable(id, s) && Complete(s.callers) && Consistent(s.server)
      && Settled(s.callers[ch]) && s.callers[ch].client.sequence < s.server.sequences[ch]
  {
    StartInLockstep(id, m);
    FreshIsConsistent(m);
    var s := Start(m);
    var t := Turn(ch, Malformed, Unsignable, false, Sent, Sent, 0.0, 0.0, OutboxMonitor.Finished(0, 0), 0.0);
    OneTurnReaches(id, m, t);
    TurnRecordsFrame(s.server, t);
    TurnKeepsConsistent(s.server, t);
    assert Settled(Step(id, s, Serve(t)).callers[ch]);
  }

  lemma OneTurnReaches(id: Identity, m: OutboxMonitor.Monitor, t: Turn)
    requires Complete(Start(m).callers) && Allowed(id, Start(m), Serve(t))
    ensures Reachable(id, Step(id, Start(m), Serve(t)))
  {
    var s := Start(m);
    var s' := Step(id, s, Serve(t));
    RunCons(id, s', [], s');
    assert [Serve(t)][1..] == [];
    RunCons(id, s, [Serve(t)], s');
    assert ReachedBy(id, m, [Serve(t)], s');
  }

  /** The counters agree between calls and differ by at most the call in flight during one. */
  ghost predicate Lockstep(s: System)
    requires Complete(s.callers) && Consistent(s.server)
  {
    forall ch: Channel :: InStep(s, ch)
  }

  ghost predicate InStep(s: System, ch: Channel)
    requires Complete(s.callers) && Consistent(s.server)
  {
    var c := s.callers[ch];
    && (Settled(c) ==> c.client.sequence == s.server.sequences[ch])
    && (c.pending.Some? ==> s.server.sequences[ch] <= c.client.sequence <= s.server.sequences[ch] + 1)
  }

  /** The authority takes a frame off a channel whose caller is waiting on a call that it has
      not counted yet, whatever the frame holds; or the connection breaks; or the caller is
      past use. */
  ghost predicate Timely(s: System, t: Turn)
    requires Complete(s.callers) && Consistent(s.server)
  {
    var c := s.callers[t.channel];
    || t.input.Broken? || !Usable(c.client)
    || (c.pending.Some? && s.server.sequences[t.channel] + 1 == c.client.sequence)
  }

  /** A turn keeps the lockstep exactly when it is timely. */
  lemma TurnInStepIff(id: Identity, s: System, t: Turn)
    requires Inv(id, s) && Allowed(id, s, Serve(t)) && Lockstep(s)
    ensures Inv(id, Step(id, s, Serve(t)))
    ensures Lockstep(Step(id, s, Serve(t))) <==> Timely(s, t)
  {
    ServeKeepsInv(id, s, t);
    TurnRecordsFrame(s.server, t);
    var s' := Step(id, s, Serve(t));
    assert CallerInv(s.callers[t.channel], s.server.served[t.channel]);
    assert InStep(s, t.channel);
    forall ch: Channel | ch != t.channel ensures InStep(s', ch) {
      assert InStep(s, ch);
    }
    assert InStep(s', t.channel) <==> Timely(s, t);
  }

  /** Asking and receiving keep the lockstep, whatever is received. */
  lemma CallerInStep(id: Identity, s: System, a: Action)
    requires Inv(id, s) && Allowed(id, s, a) && Lockstep(s) && !a.Serve?
    ensures Inv(id, Step(id, s, a)) && Lockstep(Step(id, s, a))
  {
    StepKeepsInv(id, s, a);
    var s' := Step(id, s, a);
    var at := if a.Ask? then a.channel else a.to;
    assert CallerInv(s.callers[at], s.server.served[at]);
    if a.Receive? {
      AcceptedMeansVouched(id, s, at, a.delivery);
    }
    forall ch: Channel ensures InStep(s', ch) {
      assert InStep(s, ch);
    }
  }

  ghost predicate TimelyRun(id: Identity, s: System, actions: seq<Action>)
    requires Complete(s.callers) && ValidRun(id, s, actions)
    decreases |actions|
  {
    actions == [] ||
    (&& (actions[0].Serve? ==> Timely(s, actions[0].turn))
     && TimelyRun(id, Step(id, s, actions[0]), actions[1..]))
  }

  /** The lockstep holds before the run and after each of its actions. */
  ghost predicate StaysInLockstep(id: Identity, s: System, actions: seq<Action>)
    requires Complete(s.callers) && ValidRun(id, s, actions)
    decreases |actions|
  {
    && Consistent(s.server) && Lockstep(s)
    && (actions != [] ==> StaysInLockstep(id, Step(id, s, actions[0]), actions[1..]))
  }

  /** From any state in lockstep, a run stays in lockstep exactly when every turn is timely. */
  lemma {:induction false} LockstepIffTimely(id: Identity, s: System, actions: seq<Action>)
    requires Inv(id, s) && Lockstep(s) && ValidRun(id, s, actions)
    ensures StaysInLockstep(id, s, actions) <==> TimelyRun(id, s, actions)
    decreases |actions|
  {
    if actions != [] {
      var s' := Step(id, s, actions[0]);
      if actions[0].Serve? {
        TurnInStepIff(id, s, actions[0].turn);
      } else {
        CallerInStep(id, s, actions[0]);
      }
      if Lockstep(s') {
        LockstepIffTimely(id, s', actions[1..]);
      }
    }
  }

  lemma StartInLockstep(id: Identity, m: OutboxMonitor.Monitor)
    ensures Inv(id, Start(m)) && Lockstep(Start(m))
    ensures forall ch: Channel :: Start(m).callers[ch] == IDLE && Start(m).server.sequences[ch] == 0
  {
    StartInv(id, m);
    FreshIsConsistent(m);
    forall ch: Channel ensures Start(m).callers[ch] == IDLE && Start(m).server.sequences[ch] == 0 {
      match ch
      case Execution =>
      case Admin =>
      case StatusSigning =>
    }
  }

  /** What the authority replies to a request whose reply fits. */
  function ReplyTo(h: Handling): Outcome
    requires !h.Unsignable?
  {
    if h.Handled? then ResultOf(h.result) else ErrorOf(ErrorBody(h.code, h.code))
  }

  /** The authority is about to take the request that a caller in step with it makes. */
  ghost predicate Exchange(id: Identity, s: System, ch: Channel, operation: string, request: map<string, Json>, t: Turn) {
    && Inv(id, s) && Settled(s.callers[ch])
    && s.callers[ch].client.sequence == s.server.sequences[ch]
    && t.channel == ch && t.input == Request(Envelope(operation, request)) && t.send.Sent?
    && Allowed(id, s, Serve(t)) && !t.handling.Unsignable?
  }

  /** Completeness: when the network hands the authority the request and the caller the reply,
      the call completes with what the handler returned and both sides are back in lockstep. */
  lemma HonestExchangeCompletes(id: Identity, s: System, ch: Channel, operation: string,
                                request: map<string, Json>, t: Turn)
    requires Exchange(id, s, ch, operation, request, t)
    ensures
      var n, envelope := s.server.sequences[ch] + 1, Envelope(operation, request);
      var response := Sign(id.key, ReplyTranscript(id, ch, n - 1, Request(envelope)), ReplyTo(t.handling));
      var actions := [Ask(ch, operation, request), Serve(t), Receive(ch, Frame(response))];
      && ValidRun(id, s, actions)
      && var s' := After(id, s, actions);
         && Complete(s'.callers) && Complete(s'.server.sequences)
         && s'.server.sequences[ch] == n
         && s'.callers[ch] == Caller(Begin(s.callers[ch].client), None, s.callers[ch].calls + [Call(envelope, OutcomeOf(ReplyTo(t.handling)))])
  {
    var n, envelope := s.server.sequences[ch] + 1, Envelope(operation, request);
    var response := Sign(id.key, ReplyTranscript(id, ch, n - 1, Request(envelope)), ReplyTo(t.handling));
    var ask, receive := Ask(ch, operation, request), Receive(ch, Frame(response));
    AskThenServe(id, s, ch, operation, request, t);
    var s2 := Step(id, Step(id, s, ask), Serve(t));
    ReceiveHonestReply(id, s2, ch, envelope, ReplyTo(t.handling));
    RunOfThree(id, s, ask, Serve(t), receive);
  }

  /** The request is sent and the authority takes it as its next frame. */
  lemma AskThenServe(id: Identity, s: System, ch: Channel, operation: string, request: map<string, Json>, t: Turn)
    requires Exchange(id, s, ch, operation, request, t)
    ensures
      var n, ask, envelope := s.server.sequences[ch] + 1, Ask(ch, operation, request), Envelope(operation, request);
      && Allowed(id, s, ask)
      && Allowed(id, Step(id, s, ask), Serve(t))
      && var s2 := Step(id, Step(id, s, ask), Serve(t));
         && Inv(id, s2)
         && s2.callers[ch] == Caller(Begin(s.callers[ch].client), Some(envelope), s.callers[ch].calls)
         && s2.server.sequences[ch] == n == |s2.server.served[ch]|
         && s2.server.served[ch][n - 1].input == Request(envelope)
         && s2.server.served[ch][n - 1].reply == Some(ReplyTo(t.handling))
  {
    var ask := Ask(ch, operation, request);
    StepKeepsInv(id, s, ask);
    var s1 := Step(id, s, ask);
    ServeKeepsInv(id, s1, t);
    TurnRecordsFrame(s1.server, t);
  }

  lemma RunOfThree(id: Identity, s: System, a: Action, b: Action, c: Action)
    requires Complete(s.callers) && Allowed(id, s, a)
    requires Allowed(id, Step(id, s, a), b) && Allowed(id, Step(id, Step(id, s, a), b), c)
    ensures ValidRun(id, s, [a, b, c])
    ensures After(id, s, [a, b, c]) == Step(id, Step(id, Step(id, s, a), b), c)
  {
    var s1 := Step(id, s, a);
    var s2 := Step(id, s1, b);
    var s3 := Step(id, s2, c);
    RunCons(id, s3, [], s3);
    RunCons(id, s2, [c], s3);
    RunCons(id, s1, [b, c], s3);
    RunCons(id, s, [a, b, c], s3);
  }

  /** A run from `s` that continues like one from the state after its first action. */
  lemma RunCons(id: Identity, s: System, actions: seq<Action>, end: System)
    requires Complete(s.callers)
    requires actions == [] ==> end == s
    requires actions != [] ==>
               && Allowed(id, s, actions[0]) && Complete(Step(id, s, actions[0]).callers)
               && ValidRun(id, Step(id, s, actions[0]), actions[1..])
               && After(id, Step(id, s, actions[0]), actions[1..]) == end
    ensures ValidRun(id, s, actions) && After(id, s, actions) == end
  {
  }

  /** The caller is handed the authority's reply to the request it waits on. */
  lemma ReceiveHonestReply(id: Identity, s: System, ch: Channel, envelope: Json, reply: Outcome)
    requires Inv(id, s) && s.callers[ch].pending == Some(envelope)
    requires 0 < s.callers[ch].client.sequence == s.server.sequences[ch]
    requires var f := s.server.served[ch][s.server.sequences[ch] - 1]; f.input == Request(envelope) && f.reply == Some(reply)
    ensures
      var n := s.server.sequences[ch];
      var receive := Receive(ch, Frame(Sign(id.key, ReplyTranscript(id, ch, n - 1, Request(envelope)), reply)));
      && Allowed(id, s, receive)
      && Step(id, s, receive) ==
         s.(callers := s.callers[ch := Caller(s.callers[ch].client, None, s.callers[ch].calls + [Call(envelope, OutcomeOf(reply))])])
  {
    var n := s.server.sequences[ch];
    ReplyIsDeliverable(id, s.server, ch, n - 1);
    ReplyIsAccepted(id, n, ch, envelope, reply);
  }

  lemma ReplyIsDeliverable(id: Identity, l: Loop, ch: Channel, i: nat)
    requires Complete(l.served) && i < |l.served[ch]|
    requires l.served[ch][i].reply.Some? && !l.served[ch][i].input.Broken?
    ensures
      var f := l.served[ch][i];
      Deliverable(id, l, Frame(Sign(id.key, ReplyTranscript(id, ch, i, f.input), f.reply.value)))
  {
    var f := l.served[ch][i];
    assert SentFor(id, l, ch, i, Obj(ResponseBody(ReplyTranscript(id, ch, i, f.input), f.reply.value)));
  }

  lemma ReplyIsAccepted(id: Identity, sequence: nat, ch: Channel, envelope: Json, reply: Outcome)
    requires sequence > 0
    ensures
      var response := Sign(id.key, ReplyTranscript(id, ch, sequence - 1, Request(envelope)), reply);
      Judge(BindingOf(id, ch), sequence, envelope, Frame(response)) == OutcomeOf(reply)
  {
    SignThenVerify(id.key, Expected(BindingOf(id, ch), sequence, envelope), reply);
  }
}
