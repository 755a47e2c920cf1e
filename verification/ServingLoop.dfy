/** The serving loop of the authority child (authority_child.py, `authority_child_main`).

    The transport, the request handlers, the outbox and the clock are inputs: a `Turn` says
    what one readable connection yields and how each effect of serving it ends.
 */
module ServingLoop {
  import opened JsonTerms
  import opened Transcripts
  import opened OutboxMonitor

  datatype Channel = Execution | Admin | StatusSigning

  function Name(ch: Channel): string {
    match ch
    case Execution => "execution"
    case Admin => "admin"
    case StatusSigning => "status-signing"
  }

  lemma NamesDiffer(a: Channel, b: Channel)
    ensures Name(a) == Name(b) <==> a == b
  {
    assert |Name(Execution)| == 9 && |Name(Admin)| == 5 && |Name(StatusSigning)| == 14;
  }

  /** What `recv_frame` yields: a decoded request, a frame error with its code, or a broken
      connection. */
  datatype Input = Request(value: Json) | Malformed | Oversized | Broken

  /** How the handler of a request ends.  `Unsignable` is a result that cannot be encoded, so
      that signing it raises outside every handler. */
  datatype Handling = Handled(result: Json) | Failed(code: string) | Unsignable

  datatype Send = Sent | TooLarge | Disconnected

  /** One pass through the body of the loop for one connection.  `publishes` says that the
      handler committed and asked for outbox publication (at `requestAt`); the recovery clock
      is read at `checkAt` and, if recovery is due, `attempt` is made and recorded at `runAt`. */
  datatype Turn = Turn(
    channel: Channel, input: Input, handling: Handling, publishes: bool, send: Send, resend: Send,
    requestAt: real, checkAt: real, attempt: Attempt, runAt: real)

  ghost predicate ValidTurn(t: Turn) {
    t.requestAt <= t.checkAt <= t.runAt && WellFormed(t.attempt)
  }

  /** One frame taken off a channel, how its handler ended if it had one, and what, if anything,
      was sent back for it. */
  datatype Served = Served(input: Input, handling: Option<Handling>, reply: Option<Outcome>)

  datatype Event =
    | Dispatched(channel: Channel, number: nat)
    | Committed(channel: Channel, number: nat)
    | Replied(channel: Channel, number: nat)
    | Dropped(channel: Channel, number: nat)
    | Recovered
    | Stopped

  datatype Loop = Loop(
    open: set<Channel>, sequences: map<Channel, nat>, monitor: Monitor, stopped: bool,
    served: map<Channel, seq<Served>>, log: seq<Event>)

  ghost predicate Complete<T>(m: map<Channel, T>) {
    forall ch: Channel :: ch in m
  }

  ghost predicate Consistent(l: Loop) {
    && Complete(l.sequences) && Complete(l.served)
    && forall ch: Channel :: l.sequences[ch] == |l.served[ch]|
  }

  /** All three channels registered, nothing read from any of them. */
  function Fresh(m: Monitor): Loop {
    Loop({Execution, Admin, StatusSigning}, map[Execution := 0, Admin := 0, StatusSigning := 0], m, false,
         map[Execution := [], Admin := [], StatusSigning := []], [])
  }

  lemma FreshIsConsistent(m: Monitor)
    ensures Consistent(Fresh(m))
    ensures forall ch: Channel :: ch in Fresh(m).open && Fresh(m).served[ch] == []
  {
    forall ch: Channel
      ensures ch in Fresh(m).open && ch in Fresh(m).sequences && ch in Fresh(m).served
      ensures Fresh(m).sequences[ch] == 0 && Fresh(m).served[ch] == []
    {
      match ch
      case Execution =>
      case Admin =>
      case StatusSigning =>
    }
  }

  function FrameCode(input: Input): string
    requires input.Malformed? || input.Oversized?
  {
    if input.Oversized? then "frame_too_large" else "malformed_json"
  }

  /** The digest a reply answers: of the request, or of a marker naming the frame error. */
  function AnsweredDigest(input: Input, number: nat): Json
    requires !input.Broken?
  {
    if input.Request? then Digest(input.value)
    else Digest(Obj(map["invalid_frame" := Str(FrameCode(input)), "sequence" := Int(number)]))
  }

  function ErrorBody(code: string, message: string): map<string, Json> {
    map["code" := Str(code), "message" := Str(message)]
  }

  const TOO_LARGE := ErrorOf(ErrorBody("response_too_large", "response_too_large"))

  /** What the peer is sent for a frame, and whether its channel stays registered. */
  datatype Answer = Answer(reply: Option<Outcome>, keep: bool)

  function AnswerFrameError(input: Input, send: Send): Answer
    requires input.Malformed? || input.Oversized?
  {
    Answer(if send.Sent? then Some(ErrorOf(ErrorBody(FrameCode(input), ""))) else None,
           send.Sent? && !input.Oversized?)
  }

  function AnswerRequest(h: Handling, send: Send, resend: Send): Answer
    requires !h.Unsignable?
  {
    match send
    case Sent => Answer(Some(if h.Handled? then ResultOf(h.result) else ErrorOf(ErrorBody(h.code, h.code))), true)
    case TooLarge => if resend.Sent? then Answer(Some(TOO_LARGE), true) else Answer(None, false)
    case Disconnected => Answer(None, false)
  }

  function Settle(l: Loop, ch: Channel, input: Input, h: Option<Handling>, a: Answer): Loop
    requires Complete(l.sequences) && Complete(l.served)
  {
    var number := l.sequences[ch] + 1;
    l.(open := if a.keep then l.open else l.open - {ch},
       sequences := l.sequences[ch := number],
       served := l.served[ch := l.served[ch] + [Served(input, h, a.reply)]])
  }

  ghost function RecoverIfDue(l: Loop, checkAt: real, attempt: Attempt, runAt: real): Loop
    requires WellFormed(attempt)
  {
    if !Due(l.monitor, checkAt) then l
    else
      match Run(l.monitor, attempt, runAt)
      case Running(m) => l.(monitor := m, log := l.log + [Recovered])
      case Ended(m) => l.(monitor := m, stopped := true, log := l.log + [Recovered, Stopped])
  }

  /** The log entries of serving one request up to and including its reply. */
  function RequestLog(ch: Channel, number: nat, publishes: bool, a: Option<Answer>): seq<Event> {
    [Dispatched(ch, number)]
    + (if publishes then [Committed(ch, number)] else [])
    + (if a.None? then [Stopped] else if a.value.reply.Some? then [Replied(ch, number)] else [Dropped(ch, number)])
  }

  ghost function ServeRequest(l: Loop, t: Turn): Loop
    requires Consistent(l) && ValidTurn(t) && t.input.Request?
  {
    var number := l.sequences[t.channel] + 1;
    var asked := l.(monitor := if t.publishes then RequestRun(l.monitor, t.requestAt) else l.monitor);
    if t.handling.Unsignable? then
      var s := Settle(asked, t.channel, t.input, Some(Unsignable), Answer(None, true));
      s.(stopped := true, log := l.log + RequestLog(t.channel, number, t.publishes, None))
    else
      var answer := AnswerRequest(t.handling, t.send, t.resend);
      var s := Settle(asked, t.channel, t.input, Some(t.handling), answer);
      RecoverIfDue(s.(log := l.log + RequestLog(t.channel, number, t.publishes, Some(answer))),
                   t.checkAt, t.attempt, t.runAt)
  }

  ghost function ServeTurn(l: Loop, t: Turn): Loop
    requires Consistent(l) && ValidTurn(t)
  {
    match t.input
    case Broken => l.(open := l.open - {t.channel})
    case Request(_) => ServeRequest(l, t)
    case _ => Settle(l, t.channel, t.input, None, AnswerFrameError(t.input, t.send))
  }

  /** The record of one frame that was read off its channel. */
  function FrameOf(t: Turn): Served
    requires !t.input.Broken?
  {
    if !t.input.Request? then Served(t.input, None, AnswerFrameError(t.input, t.send).reply)
    else if t.handling.Unsignable? then Served(t.input, Some(Unsignable), None)
    else Served(t.input, Some(t.handling), AnswerRequest(t.handling, t.send, t.resend).reply)
  }

  lemma RecoveryTouchesNoChannel(l: Loop, checkAt: real, attempt: Attempt, runAt: real)
    requires WellFormed(attempt)
    ensures
      var after := RecoverIfDue(l, checkAt, attempt, runAt);
      after.open == l.open && after.sequences == l.sequences && after.served == l.served
  {
  }

  /** A turn records at most one frame, on its own channel. */
  lemma TurnRecordsFrame(l: Loop, t: Turn)
    requires Consistent(l) && ValidTurn(t)
    ensures
      var after := ServeTurn(l, t);
      if t.input.Broken? then after.served == l.served && after.sequences == l.sequences
      else
        && after.served == l.served[t.channel := l.served[t.channel] + [FrameOf(t)]]
        && after.sequences == l.sequences[t.channel := l.sequences[t.channel] + 1]
  {
    if t.input.Request? && !t.handling.Unsignable? {
      var number := l.sequences[t.channel] + 1;
      var asked := l.(monitor := if t.publishes then RequestRun(l.monitor, t.requestAt) else l.monitor);
      var answer := AnswerRequest(t.handling, t.send, t.resend);
      var s := Settle(asked, t.channel, t.input, Some(t.handling), answer);
      RecoveryTouchesNoChannel(s.(log := l.log + RequestLog(t.channel, number, t.publishes, Some(answer))),
                               t.checkAt, t.attempt, t.runAt);
    }
  }

  lemma TurnKeepsConsistent(l: Loop, t: Turn)
    requires Consistent(l) && ValidTurn(t)
    ensures Consistent(ServeTurn(l, t))
  {
    TurnRecordsFrame(l, t);
  }

  ghost predicate IsAnswerTo(e: Event, commit: Event)
    requires commit.Committed?
  {
    e == Replied(commit.channel, commit.number) || e == Dropped(commit.channel, commit.number)
  }

  ghost predicate SettledAt(log: seq<Event>, i: nat)
    requires i < |log| && log[i].Committed?
  {
    || (i + 2 == |log| && log[i + 1] == Stopped)
    || (i + 2 < |log| && IsAnswerTo(log[i + 1], log[i]) && log[i + 2] == Recovered)
  }

  /** Every publication request is followed at once by the reply or the drop of its channel and
      then by a recovery, unless the child stopped while signing the reply. */
  ghost predicate CommitsSettled(log: seq<Event>) {
    forall i :: 0 <= i < |log| && log[i].Committed? ==> SettledAt(log, i)
  }

  ghost predicate StopsOnce(l: Loop) {
    forall i :: 0 <= i < |l.log| && l.log[i] == Stopped ==> i == |l.log| - 1 && l.stopped
  }

  ghost predicate Ordered(log: seq<Event>) {
    forall i, j :: 0 <= i < j < |log| && log[i].Committed? && log[j].Dispatched? ==> SettledBetween(log, i, j)
  }

  /** Between a commit at `i` and the request dispatched at `j` the commit was answered or its
      channel dropped, and after that recovery ran. */
  ghost predicate SettledBetween(log: seq<Event>, i: nat, j: nat)
    requires i < j < |log| && log[i].Committed?
  {
    exists r, k ::
      && i < r < k < j
      && IsAnswerTo(log[r], log[i])
      && log[k] == Recovered
  }

  /** Safety of publication over a whole log. */
  lemma SettledCommitsAreOrdered(l: Loop)
    requires CommitsSettled(l.log) && StopsOnce(l)
    ensures Ordered(l.log)
  {
    var log := l.log;
    forall i, j | 0 <= i < j < |log| && log[i].Committed? && log[j].Dispatched? ensures SettledBetween(log, i, j) {
      assert SettledAt(log, i);
      assert IsAnswerTo(log[i + 1], log[i]) && log[i + 2] == Recovered;
    }
  }

  /** Appending entries keeps the commits already settled, when the child had not stopped. */
  lemma AppendSettled(log: seq<Event>, entries: seq<Event>)
    requires CommitsSettled(log)
    requires forall i :: 0 <= i < |log| ==> log[i] != Stopped
    requires CommitsSettled(entries)
    ensures CommitsSettled(log + entries)
  {
    var all := log + entries;
    forall i | 0 <= i < |all| && all[i].Committed? ensures SettledAt(all, i) {
      if i < |log| {
        assert SettledAt(log, i);
        assert log[i + 1] != Stopped;
      } else {
        assert SettledAt(entries, i - |log|);
      }
    }
  }

  lemma RequestLogSettles(ch: Channel, number: nat, publishes: bool, a: Option<Answer>, tail: seq<Event>)
    requires a.None? ==> tail == []
    requires tail == [] || tail == [Recovered] || tail == [Recovered, Stopped]
    requires publishes && a.Some? ==> tail != []
    ensures CommitsSettled(RequestLog(ch, number, publishes, a) + tail)
  {
    var entries := RequestLog(ch, number, publishes, a) + tail;
    forall i | 0 <= i < |entries| && entries[i].Committed? ensures SettledAt(entries, i) {
      assert i == 1 && publishes;
    }
  }

  /** What serving a request adds to the log: its own entries, then those of a recovery. */
  lemma RequestEntries(l: Loop, t: Turn) returns (answer: Option<Answer>, tail: seq<Event>)
    requires Consistent(l) && ValidTurn(t) && t.input.Request? && !l.stopped
    ensures
      var after, number := ServeRequest(l, t), l.sequences[t.channel] + 1;
      && after.log == l.log + (RequestLog(t.channel, number, t.publishes, answer) + tail)
      && (tail == [] || tail == [Recovered] || tail == [Recovered, Stopped])
      && (answer.None? ==> tail == []) && (t.publishes && answer.Some? ==> tail != [])
      && (after.stopped <==> answer.None? || tail == [Recovered, Stopped])
  {
    answer := if t.handling.Unsignable? then None else Some(AnswerRequest(t.handling, t.send, t.resend));
    var entries := RequestLog(t.channel, l.sequences[t.channel] + 1, t.publishes, answer);
    var log := ServeRequest(l, t).log;
    tail := log[|l.log| + |entries|..];
    assert log == l.log + (entries + tail);
  }

  /** Entries that stop at most at their end keep the log stopping at most once. */
  lemma StopsAtEnd(log: seq<Event>, entries: seq<Event>, stopped: bool, i: nat)
    requires forall k :: 0 <= k < |log| ==> log[k] != Stopped
    requires forall k :: 0 <= k < |entries| && entries[k] == Stopped ==> k == |entries| - 1 && stopped
    requires i < |log + entries| && (log + entries)[i] == Stopped
    ensures i == |log + entries| - 1 && stopped
  {
    assert i >= |log|;
    assert entries[i - |log|] == Stopped;
  }

  lemma RequestStopsOnce(l: Loop, t: Turn)
    requires Consistent(l) && ValidTurn(t) && t.input.Request? && !l.stopped && StopsOnce(l)
    ensures StopsOnce(ServeRequest(l, t))
  {
    var answer, tail := RequestEntries(l, t);
    var after := ServeRequest(l, t);
    var entries := RequestLog(t.channel, l.sequences[t.channel] + 1, t.publishes, answer) + tail;
    forall i | 0 <= i < |after.log| && after.log[i] == Stopped ensures i == |after.log| - 1 && after.stopped {
      StopsAtEnd(l.log, entries, after.stopped, i);
    }
  }

  lemma RequestSettles(l: Loop, t: Turn)
    requires Consistent(l) && ValidTurn(t) && t.input.Request? && !l.stopped
    requires CommitsSettled(l.log) && StopsOnce(l)
    ensures CommitsSettled(ServeRequest(l, t).log)
  {
    var number := l.sequences[t.channel] + 1;
    var answer, tail := RequestEntries(l, t);
    RequestLogSettles(t.channel, number, t.publishes, answer, tail);
    AppendSettled(l.log, RequestLog(t.channel, number, t.publishes, answer) + tail);
  }

  /** One turn keeps the counters equal to the frames taken off each channel, and leaves no
      commit unpublished before the next request. */
  lemma TurnKeepsOrder(l: Loop, t: Turn)
    requires Consistent(l) && ValidTurn(t) && !l.stopped
    requires CommitsSettled(l.log) && StopsOnce(l)
    ensures
      var after := ServeTurn(l, t);
      Consistent(after) && CommitsSettled(after.log) && StopsOnce(after)
  {
    TurnKeepsConsistent(l, t);
    if t.input.Request? {
      RequestSettles(l, t);
      RequestStopsOnce(l, t);
    }
  }

  /** Something is sent for the frame: its reply, or the note that the reply does not fit. */
  predicate SendsSomething(t: Turn)
    requires !t.input.Broken?
  {
    if !t.input.Request? then t.send.Sent?
    else !t.handling.Unsignable? && (t.send.Sent? || (t.send.TooLarge? && t.resend.Sent?))
  }

  /** Exactly when a turn keeps its channel: the frame was a request or malformed, and something
      was sent for it or signing the reply ended the child.  No other channel is affected, and
      the reply on record is what was sent. */
  lemma ChannelStaysOpenIff(l: Loop, t: Turn)
    requires Consistent(l) && ValidTurn(t) && t.channel in l.open
    ensures
      t.channel in ServeTurn(l, t).open <==>
        && (t.input.Request? || t.input.Malformed?)
        && (SendsSomething(t) || (t.input.Request? && t.handling.Unsignable?))
    ensures forall ch :: ch != t.channel ==> (ch in ServeTurn(l, t).open <==> ch in l.open)
    ensures !t.input.Broken? ==> (FrameOf(t).reply.Some? <==> SendsSomething(t))
  {
  }

  /** A reply to an unreadable frame names its fault. */
  lemma FaultIsNamed(t: Turn)
    requires (t.input.Malformed? || t.input.Oversized?) && t.send.Sent?
    ensures
      FrameOf(t).reply ==
        Some(ErrorOf(map["code" := Str(if t.input.Malformed? then "malformed_json" else "frame_too_large"), "message" := Str("")]))
  {
  }

  /** A channel that the log says was dropped is not read again. */
  ghost predicate DroppedAreClosed(l: Loop) {
    forall i :: 0 <= i < |l.log| && l.log[i].Dropped? ==> l.log[i].channel !in l.open
  }

  lemma RecoveryKeepsDropped(l: Loop, checkAt: real, attempt: Attempt, runAt: real)
    requires DroppedAreClosed(l) && WellFormed(attempt)
    ensures DroppedAreClosed(RecoverIfDue(l, checkAt, attempt, runAt))
  {
    var after := RecoverIfDue(l, checkAt, attempt, runAt);
    forall i | 0 <= i < |after.log| && after.log[i].Dropped? ensures after.log[i].channel !in after.open {
      assert after.log[i] == l.log[i];
    }
  }

  lemma RequestKeepsDropped(l: Loop, t: Turn)
    requires Consistent(l) && ValidTurn(t) && t.input.Request? && !l.stopped && DroppedAreClosed(l)
    ensures DroppedAreClosed(ServeRequest(l, t))
  {
    var number, after := l.sequences[t.channel] + 1, ServeRequest(l, t);
    TurnOpensNothing(l, t);
    var answer, tail := RequestEntries(l, t);
    var entries := RequestLog(t.channel, number, t.publishes, answer);
    forall i | 0 <= i < |after.log| && after.log[i].Dropped? ensures after.log[i].channel !in after.open {
      if i < |l.log| {
        assert after.log[i] == l.log[i];
      } else {
        assert (entries + tail)[i - |l.log|] == Dropped(t.channel, number);
        assert answer.Some? && answer.value.reply.None?;
      }
    }
  }

  lemma TurnKeepsDropped(l: Loop, t: Turn)
    requires Consistent(l) && ValidTurn(t) && !l.stopped && DroppedAreClosed(l)
    ensures DroppedAreClosed(ServeTurn(l, t))
  {
    if t.input.Request? {
      RequestKeepsDropped(l, t);
    } else {
      TurnOpensNothing(l, t);
    }
  }

  lemma TurnOpensNothing(l: Loop, t: Turn)
    requires Consistent(l) && ValidTurn(t)
    ensures ServeTurn(l, t).open <= l.open
  {
  }

  lemma IdleRecoveryKeepsOrder(l: Loop, checkAt: real, attempt: Attempt, runAt: real)
    requires Consistent(l) && !l.stopped && WellFormed(attempt)
    requires CommitsSettled(l.log) && StopsOnce(l)
    ensures
      var after := RecoverIfDue(l, checkAt, attempt, runAt);
      Consistent(after) && CommitsSettled(after.log) && StopsOnce(after)
  {
    AppendSettled(l.log, [Recovered]);
    AppendSettled(l.log, [Recovered, Stopped]);
  }

  /** One round of `select`: the readable connections in order, then the idle recovery check. */
  datatype Round = Round(turns: seq<Turn>, checkAt: real, attempt: Attempt, runAt: real)

  ghost predicate ValidRound(r: Round) {
    && (forall i :: 0 <= i < |r.turns| ==> ValidTurn(r.turns[i]))
    && WellFormed(r.attempt)
  }

  /** The state after the first `n` of a script of steps. */
  ghost function Play<S, X>(step: (S, X) -> S, s: S, script: seq<X>, n: nat): S
    requires n <= |script|
  {
    if n == 0 then s else step(Play(step, s, script, n - 1), script[n - 1])
  }

  lemma PlayOne<S, X>(step: (S, X) -> S, s: S, script: seq<X>, n: nat, now: S, next: S)
    requires n < |script| && now == Play(step, s, script, n) && next == step(now, script[n])
    ensures next == Play(step, s, script, n + 1)
  {
  }

  /** A state that no step changes is the last one. */
  lemma {:induction false} PlayStays<S, X>(step: (S, X) -> S, s: S, script: seq<X>, j: nat, n: nat)
    requires j <= n <= |script|
    requires forall i :: 0 <= i < |script| ==> step(Play(step, s, script, j), script[i]) == Play(step, s, script, j)
    ensures Play(step, s, script, n) == Play(step, s, script, j)
    decreases n
  {
    if j < n {
      PlayStays(step, s, script, j, n - 1);
    }
  }

  lemma {:induction false} PlayKeeps<S(!new), X>(step: (S, X) -> S, inv: S -> bool, s: S, script: seq<X>, n: nat)
    requires n <= |script| && inv(s)
    requires forall s', i :: 0 <= i < |script| && inv(s') ==> inv(step(s', script[i]))
    ensures inv(Play(step, s, script, n))
  {
    if n > 0 {
      PlayKeeps(step, inv, s, script, n - 1);
    }
  }

  /** A readable connection that is gone by now is passed over, and nothing is served once the
      child has stopped. */
  ghost function ServeNext(l: Loop, t: Turn): Loop {
    if Consistent(l) && ValidTurn(t) && !l.stopped && t.channel in l.open then ServeTurn(l, t) else l
  }

  ghost function Recover(l: Loop, r: Round): Loop {
    if WellFormed(r.attempt) && !l.stopped then RecoverIfDue(l, r.checkAt, r.attempt, r.runAt) else l
  }

  ghost function ServeTurns(l: Loop, turns: seq<Turn>): Loop {
    Play(ServeNext, l, turns, |turns|)
  }

  /** One round, unless no channel is left or the child has stopped. */
  ghost function NextRound(l: Loop, r: Round): Loop {
    if l.stopped || l.open == {} then l else Recover(ServeTurns(l, r.turns), r)
  }

  ghost function ServeRounds(l: Loop, rounds: seq<Round>): Loop {
    Play(NextRound, l, rounds, |rounds|)
  }

  lemma TurnsOver(l: Loop, turns: seq<Turn>, j: nat, now: Loop)
    requires j <= |turns| && now == Play(ServeNext, l, turns, j) && (j == |turns| || now.stopped)
    ensures ServeTurns(l, turns) == now
  {
    if j < |turns| {
      PlayStays(ServeNext, l, turns, j, |turns|);
    }
  }

  ghost predicate IsRound(step: (Loop, Round) -> Loop) {
    forall l, r {:trigger NextRound(l, r)} :: step(l, r) == NextRound(l, r)
  }

  lemma RoundsOver(step: (Loop, Round) -> Loop, l: Loop, rounds: seq<Round>, j: nat, now: Loop)
    requires IsRound(step)
    requires j <= |rounds| && now == Play(step, l, rounds, j) && (j == |rounds| || now.stopped || now.open == {})
    ensures Play(step, l, rounds, |rounds|) == now
  {
    if j < |rounds| {
      forall i | 0 <= i < |rounds| ensures step(now, rounds[i]) == now {
        assert NextRound(now, rounds[i]) == now;
      }
      PlayStays(step, l, rounds, j, |rounds|);
    }
  }

  /** What the loop keeps between connections. */
  ghost predicate Serving(l: Loop) {
    Consistent(l) && CommitsSettled(l.log) && StopsOnce(l) && DroppedAreClosed(l)
  }

  lemma NextKeepsServing(l: Loop, t: Turn)
    requires Serving(l)
    ensures Serving(ServeNext(l, t)) && ServeNext(l, t).open <= l.open
  {
    if Consistent(l) && ValidTurn(t) && !l.stopped {
      TurnKeepsOrder(l, t);
      TurnKeepsDropped(l, t);
      TurnOpensNothing(l, t);
    }
  }

  lemma RecoverKeepsServing(l: Loop, r: Round)
    requires Serving(l)
    ensures Serving(Recover(l, r)) && Recover(l, r).open <= l.open
  {
    if WellFormed(r.attempt) && !l.stopped {
      IdleRecoveryKeepsOrder(l, r.checkAt, r.attempt, r.runAt);
      RecoveryKeepsDropped(l, r.checkAt, r.attempt, r.runAt);
      RecoveryTouchesNoChannel(l, r.checkAt, r.attempt, r.runAt);
    }
  }

  /** Serving within these channels. */
  ghost function Within(open: set<Channel>): Loop -> bool {
    (l: Loop) => Serving(l) && l.open <= open
  }

  lemma TurnsKeepServing(l: Loop, turns: seq<Turn>)
    requires Serving(l)
    ensures Serving(ServeTurns(l, turns)) && ServeTurns(l, turns).open <= l.open
  {
    forall s, i | 0 <= i < |turns| && Within(l.open)(s) ensures Within(l.open)(ServeNext(s, turns[i])) {
      NextKeepsServing(s, turns[i]);
    }
    PlayKeeps(ServeNext, Within(l.open), l, turns, |turns|);
  }

  lemma RoundKeepsServing(l: Loop, r: Round)
    requires Serving(l)
    ensures Serving(NextRound(l, r)) && NextRound(l, r).open <= l.open
  {
    TurnsKeepServing(l, r.turns);
    RecoverKeepsServing(ServeTurns(l, r.turns), r);
  }

  /** Over every script of rounds the counters are the frames taken off each channel, every
      commit is answered and published before the next request, a dropped channel stays
      closed, and no channel opens. */
  lemma RoundsAreSafe(l: Loop, rounds: seq<Round>)
    requires Serving(l)
    ensures
      var after := ServeRounds(l, rounds);
      Serving(after) && Ordered(after.log) && after.open <= l.open
  {
    forall s, i | 0 <= i < |rounds| && Within(l.open)(s) ensures Within(l.open)(NextRound(s, rounds[i])) {
      RoundKeepsServing(s, rounds[i]);
    }
    PlayKeeps(NextRound, Within(l.open), l, rounds, |rounds|);
    SettledCommitsAreOrdered(ServeRounds(l, rounds));
  }

  /** The channel is gone and no frame was taken off it since. */
  ghost function Unread(ch: Channel, frames: seq<Served>): Loop -> bool {
    (l: Loop) => Consistent(l) && ch !in l.open && l.served[ch] == frames
  }

  lemma NextIsUnread(l: Loop, t: Turn, ch: Channel, frames: seq<Served>)
    requires Unread(ch, frames)(l)
    ensures Unread(ch, frames)(ServeNext(l, t))
  {
    if ValidTurn(t) && !l.stopped && t.channel in l.open {
      TurnOpensNothing(l, t);
      TurnRecordsFrame(l, t);
      TurnKeepsConsistent(l, t);
    }
  }

  lemma RoundIsUnread(l: Loop, r: Round, ch: Channel, frames: seq<Served>)
    requires Unread(ch, frames)(l)
    ensures Unread(ch, frames)(NextRound(l, r))
  {
    forall s, i | 0 <= i < |r.turns| && Unread(ch, frames)(s) ensures Unread(ch, frames)(ServeNext(s, r.turns[i])) {
      NextIsUnread(s, r.turns[i], ch, frames);
    }
    PlayKeeps(ServeNext, Unread(ch, frames), l, r.turns, |r.turns|);
    var served := ServeTurns(l, r.turns);
    if WellFormed(r.attempt) {
      RecoveryTouchesNoChannel(served, r.checkAt, r.attempt, r.runAt);
    }
  }

  /** Once a channel is gone, no script of rounds takes another frame off it. */
  lemma ClosedIsNotRead(l: Loop, rounds: seq<Round>, ch: Channel)
    requires Consistent(l) && ch !in l.open
    ensures
      var after := ServeRounds(l, rounds);
      Consistent(after) && ch !in after.open && after.served[ch] == l.served[ch]
  {
    var inv := Unread(ch, l.served[ch]);
    forall s, i | 0 <= i < |rounds| && inv(s) ensures inv(NextRound(s, rounds[i])) {
      RoundIsUnread(s, rounds[i], ch, l.served[ch]);
    }
    PlayKeeps(NextRound, inv, l, rounds, |rounds|);
    assert inv(ServeRounds(l, rounds));
  }

  // ------------------------------------------------------ the loop and its monitor

  ghost function Commits(log: seq<Event>): nat {
    if log == [] then 0 else Commits(log[..|log| - 1]) + if log[|log| - 1].Committed? then 1 else 0
  }

  ghost function Recoveries(log: seq<Event>): nat {
    if log == [] then 0 else Recoveries(log[..|log| - 1]) + if log[|log| - 1].Recovered? then 1 else 0
  }

  ghost function Requests(h: seq<OutboxMonitor.Event>): nat {
    if h == [] then 0 else Requests(h[..|h| - 1]) + if h[|h| - 1].Requested? then 1 else 0
  }

  ghost function Attempts(h: seq<OutboxMonitor.Event>): nat {
    if h == [] then 0 else Attempts(h[..|h| - 1]) + if h[|h| - 1].Ran? then 1 else 0
  }

  /** The loop's monitor is where this history leaves one: a request for each commit in the log
      and an attempt for each recovery in it. */
  ghost predicate Follows(l: Loop, start: real, h: seq<OutboxMonitor.Event>) {
    && WellFormedHistory(h) && Replay(start, h).monitor == l.monitor
    && (Replay(start, h).Ended? ==> l.stopped)
    && Requests(h) == Commits(l.log) && Attempts(h) == Recoveries(l.log)
  }

  lemma LogSnoc(log: seq<Event>, e: Event)
    ensures Commits(log + [e]) == Commits(log) + if e.Committed? then 1 else 0
    ensures Recoveries(log + [e]) == Recoveries(log) + if e.Recovered? then 1 else 0
  {
    assert (log + [e])[..|log|] == log;
  }

  lemma HistorySnoc(start: real, h: seq<OutboxMonitor.Event>, e: OutboxMonitor.Event)
    requires WellFormedHistory(h) && Replay(start, h).Running? && (e.Ran? ==> WellFormed(e.attempt))
    ensures WellFormedHistory(h + [e])
    ensures
      var m := Replay(start, h).monitor;
      Replay(start, h + [e]) == if e.Requested? then Running(RequestRun(m, e.now)) else Run(m, e.attempt, e.now)
    ensures Requests(h + [e]) == Requests(h) + if e.Requested? then 1 else 0
    ensures Attempts(h + [e]) == Attempts(h) + if e.Ran? then 1 else 0
  {
    assert (h + [e])[..|h|] == h;
  }

  /** A loop that differs in its channels only, or has logged something else, follows on. */
  lemma LoggedFollows(l: Loop, next: Loop, e: Event, start: real, h: seq<OutboxMonitor.Event>)
    requires Follows(l, start, h) && !l.stopped && next.monitor == l.monitor && next.log == l.log + [e]
    requires !e.Committed? && !e.Recovered?
    ensures Follows(next, start, h)
  {
    LogSnoc(l.log, e);
  }

  lemma CommitFollows(l: Loop, next: Loop, e: Event, at: real, start: real, h: seq<OutboxMonitor.Event>)
    requires Follows(l, start, h) && !l.stopped && next.monitor == RequestRun(l.monitor, at) && next.log == l.log + [e]
    requires e.Committed?
    ensures Follows(next, start, h + [Requested(at)])
  {
    LogSnoc(l.log, e);
    HistorySnoc(start, h, Requested(at));
  }

  /** A recovery is logged exactly when the monitor says it is due, and is then the next attempt
      of the history. */
  lemma RecoveryFollows(l: Loop, checkAt: real, attempt: Attempt, runAt: real, start: real, h: seq<OutboxMonitor.Event>)
    returns (longer: seq<OutboxMonitor.Event>)
    requires Follows(l, start, h) && !l.stopped && WellFormed(attempt)
    ensures longer == if checkAt >= l.monitor.nextDue then h + [Ran(attempt, runAt)] else h
    ensures Follows(RecoverIfDue(l, checkAt, attempt, runAt), start, longer)
  {
    longer := if Due(l.monitor, checkAt) then h + [Ran(attempt, runAt)] else h;
    if Due(l.monitor, checkAt) {
      HistorySnoc(start, h, Ran(attempt, runAt));
      LogSnoc(l.log, Recovered);
      LogSnoc(l.log + [Recovered], Stopped);
      assert l.log + [Recovered] + [Stopped] == l.log + [Recovered, Stopped];
    }
  }

  /** The entries up to the reply: the commit among them is one more request. */
  lemma RequestLogFollows(l: Loop, next: Loop, t: Turn, number: nat, a: Option<Answer>, start: real, h: seq<OutboxMonitor.Event>)
    returns (longer: seq<OutboxMonitor.Event>)
    requires Follows(l, start, h) && !l.stopped
    requires next.monitor == if t.publishes then RequestRun(l.monitor, t.requestAt) else l.monitor
    requires next.log == l.log + RequestLog(t.channel, number, t.publishes, a)
    ensures Follows(next, start, longer)
  {
    var entries := RequestLog(t.channel, number, t.publishes, a);
    longer := h;
    var one := l.(log := l.log + [entries[0]]);
    LoggedFollows(l, one, entries[0], start, longer);
    var two := one;
    if t.publishes {
      two := one.(monitor := next.monitor, log := one.log + [entries[1]]);
      CommitFollows(one, two, entries[1], t.requestAt, start, longer);
      longer := h + [Requested(t.requestAt)];
    }
    var last := entries[|entries| - 1];
    assert next.log == two.log + [last];
    LoggedFollows(two, next, last, start, longer);
  }

  lemma TurnFollows(l: Loop, t: Turn, start: real, h: seq<OutboxMonitor.Event>) returns (longer: seq<OutboxMonitor.Event>)
    requires Consistent(l) && ValidTurn(t) && !l.stopped && Follows(l, start, h)
    ensures Follows(ServeTurn(l, t), start, longer)
  {
    longer := h;
    if t.input.Request? {
      longer := RequestFollows(l, t, start, h);
    }
  }

  lemma RequestFollows(l: Loop, t: Turn, start: real, h: seq<OutboxMonitor.Event>) returns (longer: seq<OutboxMonitor.Event>)
    requires Consistent(l) && ValidTurn(t) && t.input.Request? && !l.stopped && Follows(l, start, h)
    ensures Follows(ServeRequest(l, t), start, longer)
  {
    var number := l.sequences[t.channel] + 1;
    var asked := l.(monitor := if t.publishes then RequestRun(l.monitor, t.requestAt) else l.monitor);
    if t.handling.Unsignable? {
      longer := RequestLogFollows(l, ServeRequest(l, t), t, number, None, start, h);
    } else {
      var answer := AnswerRequest(t.handling, t.send, t.resend);
      var s := Settle(asked, t.channel, t.input, Some(t.handling), answer);
      var replied := s.(log := l.log + RequestLog(t.channel, number, t.publishes, Some(answer)));
      longer := RequestLogFollows(l, replied, t, number, Some(answer), start, h);
      longer := RecoveryFollows(replied, t.checkAt, t.attempt, t.runAt, start, longer);
    }
  }

  /** Every round ends with a recovery exactly when one is due then and the child still runs, also
      when no connection was readable. */
  lemma RoundRecoversIff(l: Loop, r: Round)
    requires WellFormed(r.attempt) && !l.stopped && l.open != {}
    ensures
      var served, after := ServeTurns(l, r.turns), NextRound(l, r);
      Recoveries(after.log) == Recoveries(served.log) + if !served.stopped && r.checkAt >= served.monitor.nextDue then 1 else 0
    ensures r.turns == [] ==> ServeTurns(l, r.turns) == l
  {
    var log := ServeTurns(l, r.turns).log;
    LogSnoc(log, Recovered);
    LogSnoc(log + [Recovered], Stopped);
    assert log + [Recovered] + [Stopped] == log + [Recovered, Stopped];
  }

  ghost function FollowsOne(start: real): Loop -> bool {
    (l: Loop) => exists h :: Follows(l, start, h)
  }

  lemma NextFollows(start: real, l: Loop, t: Turn)
    requires FollowsOne(start)(l)
    ensures FollowsOne(start)(ServeNext(l, t))
  {
    var h :| Follows(l, start, h);
    if Consistent(l) && ValidTurn(t) && !l.stopped && t.channel in l.open {
      var longer := TurnFollows(l, t, start, h);
    }
  }

  lemma RoundFollows(start: real, l: Loop, r: Round)
    requires FollowsOne(start)(l)
    ensures FollowsOne(start)(NextRound(l, r))
  {
    forall s, i | 0 <= i < |r.turns| && FollowsOne(start)(s) ensures FollowsOne(start)(ServeNext(s, r.turns[i])) {
      NextFollows(start, s, r.turns[i]);
    }
    PlayKeeps(ServeNext, FollowsOne(start), l, r.turns, |r.turns|);
    IdleFollows(start, ServeTurns(l, r.turns), r);
  }

  lemma IdleFollows(start: real, l: Loop, r: Round)
    requires FollowsOne(start)(l)
    ensures FollowsOne(start)(Recover(l, r))
  {
    var h :| Follows(l, start, h);
    if WellFormed(r.attempt) && !l.stopped {
      var longer := RecoveryFollows(l, r.checkAt, r.attempt, r.runAt, start, h);
    }
  }

  /** Over every script the monitor of a loop that started with a new one is the replay of some
      history with exactly one request per commit and one attempt per recovery in the log, so
      everything proved of histories holds of the loop; the child never outlives a replay that
      ended. */
  lemma LoopFollowsMonitor(start: real, rounds: seq<Round>)
    ensures exists h :: Follows(ServeRounds(Fresh(Succeed(start)), rounds), start, h)
  {
    var l := Fresh(Succeed(start));
    assert Follows(l, start, []);
    forall s, i | 0 <= i < |rounds| && FollowsOne(start)(s) ensures FollowsOne(start)(NextRound(s, rounds[i])) {
      RoundFollows(start, s, rounds[i]);
    }
    PlayKeeps(NextRound, FollowsOne(start), l, rounds, |rounds|);
    assert FollowsOne(start)(ServeRounds(l, rounds));
  }

  class AuthorityLoop {
    var open: set<Channel>
    var sequences: map<Channel, nat>
    const recovery: OutboxRecoveryMonitor
    var stopped: bool
    ghost var served: map<Channel, seq<Served>>
    ghost var log: seq<Event>

    ghost function View(): Loop
      reads this, recovery
    {
      Loop(open, sequences, recovery.View(), stopped, served, log)
    }

    constructor (monitor: OutboxRecoveryMonitor)
      ensures recovery == monitor && View() == Fresh(monitor.View()) && Consistent(View())
    {
      open := {Execution, Admin, StatusSigning};
      sequences := map[Execution := 0, Admin := 0, StatusSigning := 0];
      recovery := monitor;
      stopped := false;
      served := map[Execution := [], Admin := [], StatusSigning := []];
      log := [];
      new;
      FreshIsConsistent(monitor.View());
    }

    method RunRecoveryIfDue(checkAt: real, attempt: Attempt, runAt: real)
      requires WellFormed(attempt)
      modifies this`stopped, this`log, recovery
      ensures View() == RecoverIfDue(old(View()), checkAt, attempt, runAt)
    {
      var due := recovery.IsDue(checkAt);
      if due {
        var ended := recovery.RunOnce(attempt, runAt);
        log := log + [Recovered];
        if ended {
          stopped := true;
          log := log + [Stopped];
          assert log == old(log) + [Recovered, Stopped];
        }
      }
    }

    /** A frame error is answered; an oversized frame, or a reply that cannot be sent, drops the
        channel. */
    method ServeFrameError(t: Turn)
      requires Consistent(View()) && (t.input.Malformed? || t.input.Oversized?)
      modifies this`open, this`sequences, this`served
      ensures View() == Settle(old(View()), t.channel, t.input, None, AnswerFrameError(t.input, t.send))
    {
      var ch := t.channel;
      sequences := sequences[ch := sequences[ch] + 1];
      served := served[ch := served[ch] + [Served(t.input, None, AnswerFrameError(t.input, t.send).reply)]];
      if !t.send.Sent? {
        open := open - {ch};
      }
      if t.input.Oversized? {
        open := open - {ch};
      }
    }

    /** Sends the reply, or the note that it does not fit, or drops the channel. */
    method SendReply(t: Turn) returns (ghost reply: Option<Outcome>)
      requires !t.handling.Unsignable?
      modifies this`open
      ensures
        var answer := AnswerRequest(t.handling, t.send, t.resend);
        reply == answer.reply && open == if answer.keep then old(open) else old(open) - {t.channel}
    {
      var response := if t.handling.Handled? then ResultOf(t.handling.result)
                      else ErrorOf(ErrorBody(t.handling.code, t.handling.code));
      reply := None;
      match t.send {
        case Sent => reply := Some(response);
        case TooLarge =>
          if t.resend.Sent? {
            reply := Some(TOO_LARGE);
          } else {
            open := open - {t.channel};
          }
        case Disconnected => open := open - {t.channel};
      }
    }

    /** The frame is counted and its handler runs; a commit asks for recovery at once. */
    method Dispatch(t: Turn)
      requires Consistent(View())
      modifies this`sequences, this`log, recovery
      ensures sequences == old(sequences)[t.channel := old(sequences)[t.channel] + 1]
      ensures log == old(log) + ([Dispatched(t.channel, sequences[t.channel])]
                                 + if t.publishes then [Committed(t.channel, sequences[t.channel])] else [])
      ensures recovery.View() == if t.publishes then RequestRun(old(recovery.View()), t.requestAt) else old(recovery.View())
    {
      var ch := t.channel;
      sequences := sequences[ch := sequences[ch] + 1];
      log := log + [Dispatched(ch, sequences[ch])];
      if t.publishes {
        recovery.RequestRunNow(t.requestAt);
        log := log + [Committed(ch, sequences[ch])];
      }
    }

    method ServeRequestFrame(t: Turn)
      requires Consistent(View()) && ValidTurn(t) && t.input.Request?
      modifies this, recovery
      ensures View() == ServeRequest(old(View()), t)
    {
      var ch := t.channel;
      Dispatch(t);
      var number := sequences[ch];
      if t.handling.Unsignable? {
        served := served[ch := served[ch] + [Served(t.input, Some(Unsignable), None)]];
        log := log + [Stopped];
        stopped := true;
        assert log == old(log) + RequestLog(ch, number, t.publishes, None);
        return;
      }
      ghost var reply := SendReply(t);
      served := served[ch := served[ch] + [Served(t.input, Some(t.handling), reply)]];
      log := log + (if reply.Some? then [Replied(ch, number)] else [Dropped(ch, number)]);
      assert log == old(log) + RequestLog(ch, number, t.publishes, Some(AnswerRequest(t.handling, t.send, t.resend)));
      RunRecoveryIfDue(t.checkAt, t.attempt, t.runAt);
    }

    method ServeConnection(t: Turn)
      requires Consistent(View()) && ValidTurn(t) && !stopped
      modifies this, recovery
      ensures View() == ServeTurn(old(View()), t)
    {
      match t.input
      case Broken => open := open - {t.channel};
      case Request(_) => ServeRequestFrame(t);
      case _ => ServeFrameError(t);
    }

    /** One readable connection of a round that started at `l`. */
    method ServeReadable(ghost l: Loop, turns: seq<Turn>, j: nat)
      requires j < |turns| && ValidTurn(turns[j]) && !stopped
      requires Consistent(View()) && View() == Play(ServeNext, l, turns, j)
      modifies this, recovery
      ensures Consistent(View()) && View() == Play(ServeNext, l, turns, j + 1)
    {
      ghost var before := View();
      if turns[j].channel in open {
        TurnKeepsConsistent(View(), turns[j]);
        ServeConnection(turns[j]);
      }
      PlayOne(ServeNext, l, turns, j, before, View());
    }

    /** The readable connections of a round, in order. */
    method ServeReadables(turns: seq<Turn>)
      requires Consistent(View()) && forall i :: 0 <= i < |turns| ==> ValidTurn(turns[i])
      modifies this, recovery
      ensures Consistent(View()) && View() == ServeTurns(old(View()), turns)
    {
      ghost var l := View();
      var j := 0;
      while j < |turns| && !stopped
        invariant 0 <= j <= |turns|
        invariant Consistent(View()) && View() == Play(ServeNext, l, turns, j)
      {
        ServeReadable(l, turns, j);
        j := j + 1;
      }
      TurnsOver(l, turns, j, View());
    }

    /** One round: the readable connections in order, then the idle recovery check. */
    method ServeRound(round: Round)
      requires Consistent(View()) && !stopped && open != {} && ValidRound(round)
      modifies this, recovery
      ensures Consistent(View()) && View() == NextRound(old(View()), round)
    {
      ServeReadables(round.turns);
      if !stopped {
        RunRecoveryIfDue(round.checkAt, round.attempt, round.runAt);
      }
    }

    /** One round of a script that started at `l`. */
    method ServeRoundOf(ghost step: (Loop, Round) -> Loop, ghost l: Loop, rounds: seq<Round>, i: nat)
      requires IsRound(step) && i < |rounds| && ValidRound(rounds[i]) && !stopped && open != {}
      requires Consistent(View()) && View() == Play(step, l, rounds, i)
      modifies this, recovery
      ensures Consistent(View()) && View() == Play(step, l, rounds, i + 1)
    {
      ghost var before := View();
      ServeRound(rounds[i]);
      PlayOne(step, l, rounds, i, before, View());
    }

    method ServeScript(ghost step: (Loop, Round) -> Loop, rounds: seq<Round>)
      requires IsRound(step)
      requires Consistent(View()) && forall i :: 0 <= i < |rounds| ==> ValidRound(rounds[i])
      modifies this, recovery
      ensures View() == Play(step, old(View()), rounds, |rounds|)
    {
      ghost var l := View();
      var i := 0;
      while i < |rounds| && open != {} && !stopped
        invariant 0 <= i <= |rounds|
        invariant Consistent(View()) && View() == Play(step, l, rounds, i)
      {
        ServeRoundOf(step, l, rounds, i);
        i := i + 1;
      }
      RoundsOver(step, l, rounds, i, View());
    }

    /** The loop over any script of rounds, until no channel is left or an exception stops it. */
    method Serve(rounds: seq<Round>)
      requires Serving(View()) && forall i :: 0 <= i < |rounds| ==> ValidRound(rounds[i])
      modifies this, recovery
      ensures View() == ServeRounds(old(View()), rounds)
      ensures Serving(View()) && Ordered(log) && open <= old(open)
    {
      RoundsAreSafe(View(), rounds);
      ServeScript(NextRound, rounds);
    }
  }
}
