/** The rate pacer and the node space of the live qualification
    (run_qualification_live.py, `_measure_loop` and the operation it drives).

    The clock is a real number and the environment decides how long everything takes.
 */
module Pacer {

  /** What the environment does in one turn of the loop: the time that passes before each clock
      read, how much longer than asked a sleep lasts, how long the operation runs, and whether it
      fails by itself. */
  datatype Turn = Turn(check: real, look: real, oversleep: real, begin: real, run: real, after: real, resync: real, fails: bool)

  predicate Real(t: Turn) {
    && t.check >= 0.0 && t.look >= 0.0 && t.oversleep >= 0.0 && t.begin >= 0.0
    && t.run >= 0.0 && t.after >= 0.0 && t.resync >= 0.0
  }

  /** `counter` numbers the nodes used up; `exhausted` records that an operation found none left. */
  datatype Run = Run(clock: real, nextBeat: real, starts: seq<real>, failures: nat, counter: nat, exhausted: bool, done: bool)

  datatype Plan = Plan(t0: real, duration: nat, rate: nat, nodes: nat)

  function Interval(p: Plan): real
    requires p.rate > 0
  {
    1.0 / p.rate as real
  }

  function Deadline(p: Plan): real {
    p.t0 + p.duration as real
  }

  function Begun(p: Plan): Run {
    Run(p.t0, p.t0, [], 0, 0, false, false)
  }

  /** The operation at its start time, then the beat moves on. */
  function Operate(p: Plan, r: Run, t: Turn, start: real): Run
    requires p.rate > 0
  {
    var none := r.counter >= p.nodes;
    var bad := none || t.fails;
    var now := start + t.run + t.after;
    var beat := r.nextBeat + Interval(p);
    var late := beat < now - 1.0;
    Run(if late then now + t.resync else now,
        if late then now + t.resync else beat,
        r.starts + [start],
        if bad then r.failures + 1 else r.failures,
        if bad then r.counter else r.counter + 1,
        r.exhausted || none, false)
  }

  function StartOf(r: Run, t: Turn): real {
    var now := r.clock + t.check + t.look;
    (if now < r.nextBeat then r.nextBeat + t.oversleep else now) + t.begin
  }

  function Go(p: Plan, r: Run, t: Turn): Run
    requires p.rate > 0
  {
    if r.done then r
    else if r.clock + t.check >= Deadline(p) then r.(clock := r.clock + t.check, done := true)
    else Operate(p, r, t, StartOf(r, t))
  }

  function After(p: Plan, turns: seq<Turn>): Run
    requires p.rate > 0
  {
    if turns == [] then Begun(p) else Go(p, After(p, turns[..|turns| - 1]), turns[|turns| - 1])
  }

  ghost predicate AllReal(turns: seq<Turn>) {
    forall i :: 0 <= i < |turns| ==> Real(turns[i])
  }

  /** The loop, for as many turns as the environment plays. */
  method MeasureLoop(p: Plan, turns: seq<Turn>) returns (starts: seq<real>, failures: nat, exhausted: bool)
    requires p.rate > 0
    ensures
      var end := After(p, turns);
      starts == end.starts && failures == end.failures && exhausted == end.exhausted
  {
    starts, failures, exhausted := [], 0, false;
    var counter := 0;
    var clock := p.t0;
    var nextBeat := p.t0;
    var i := 0;
    while i < |turns|
      invariant 0 <= i <= |turns|
      invariant After(p, turns[..i]) == Run(clock, nextBeat, starts, failures, counter, exhausted, false)
    {
      var t := turns[i];
      assert turns[..i + 1][..i] == turns[..i];
      clock := clock + t.check;
      if clock >= p.t0 + p.duration as real {
        Finished(p, turns, i + 1);
        return;
      }
      clock := clock + t.look;
      if clock < nextBeat {
        clock := nextBeat + t.oversleep;
      }
      clock := clock + t.begin;
      starts := starts + [clock];
      if counter >= p.nodes {
        exhausted := true;
        failures := failures + 1;
      } else if t.fails {
        failures := failures + 1;
      } else {
        counter := counter + 1;
      }
      clock := clock + t.run + t.after;
      nextBeat := nextBeat + 1.0 / p.rate as real;
      if nextBeat < clock - 1.0 {
        clock := clock + t.resync;
        nextBeat := clock;
      }
      i := i + 1;
    }
    assert turns[..i] == turns;
  }

  /** Once the deadline check failed nothing more happens. */
  lemma {:induction false} Finished(p: Plan, turns: seq<Turn>, n: nat)
    requires p.rate > 0 && n <= |turns| && After(p, turns[..n]).done
    ensures After(p, turns) == After(p, turns[..n])
    decreases |turns| - n
  {
    if n == |turns| {
      assert turns[..n] == turns;
    } else {
      assert turns[..n + 1][..n] == turns[..n];
      Finished(p, turns, n + 1);
    }
  }

  // -------------------------------------------------------------------- pacing

  /** The earliest time of beat `k`. */
  function Beat(p: Plan, k: int): real
    requires p.rate > 0
  {
    p.t0 + k as real * Interval(p)
  }

  lemma FirstBeat(p: Plan)
    requires p.rate > 0
    ensures Beat(p, 0) == p.t0
  {
    assert 0.0 * Interval(p) == 0.0;
  }

  lemma BeatStep(p: Plan, k: int)
    requires p.rate > 0
    ensures Beat(p, k + 1) == Beat(p, k) + Interval(p) && Interval(p) > 0.0
  {
    var h := Interval(p);
    assert (k + 1) as real == k as real + 1.0;
    assert (k as real + 1.0) * h == k as real * h + h;
  }

  /** Nothing starts early, and the clock has passed the last start. */
  ghost predicate Paced(p: Plan, r: Run)
    requires p.rate > 0
  {
    && (forall k :: 0 <= k < |r.starts| ==> r.starts[k] >= Beat(p, k))
    && r.nextBeat >= Beat(p, |r.starts|)
    && (|r.starts| > 0 ==> r.clock >= Beat(p, |r.starts| - 1))
    && (|r.starts| > 1 ==> Beat(p, |r.starts| - 2) < Deadline(p))
    && r.counter + r.failures == |r.starts|
    && (r.exhausted ==> p.nodes < |r.starts|)
  }

  lemma GoIsPaced(p: Plan, r: Run, t: Turn)
    requires p.rate > 0 && Real(t) && Paced(p, r)
    ensures Paced(p, Go(p, r, t))
  {
    BeatStep(p, |r.starts|);
    BeatStep(p, |r.starts| - 1);
  }

  lemma {:induction false} RunIsPaced(p: Plan, turns: seq<Turn>)
    requires p.rate > 0 && AllReal(turns)
    ensures Paced(p, After(p, turns))
  {
    if turns == [] {
      FirstBeat(p);
    } else {
      RunIsPaced(p, turns[..|turns| - 1]);
      GoIsPaced(p, After(p, turns[..|turns| - 1]), turns[|turns| - 1]);
    }
  }

  /** A beat lies before the deadline exactly when it is one of the first rate times duration. */
  lemma BeatBeforeDeadline(p: Plan, k: int)
    requires p.rate > 0
    ensures Beat(p, k) < Deadline(p) <==> k < p.rate * p.duration
  {
    var h, rate := Interval(p), p.rate as real;
    var n := p.rate * p.duration;
    assert h * rate == 1.0;
    assert n as real == rate * p.duration as real;
    assert n as real * h == p.duration as real by {
      assert rate * p.duration as real * h == (h * rate) * p.duration as real;
    }
    if k < n {
      assert k as real < n as real;
      assert k as real * h < n as real * h;
    } else {
      assert k as real >= n as real;
      assert k as real * h >= n as real * h;
    }
  }

  /** For every behaviour of the environment, operation k never starts before t0 + k/rate, a run
      makes at most rate * duration + 1 attempts, and every attempt either completes or fails. */
  lemma PacerTheorem(p: Plan, turns: seq<Turn>)
    requires p.rate > 0 && AllReal(turns)
    ensures
      var r := After(p, turns);
      && (forall k :: 0 <= k < |r.starts| ==> r.starts[k] >= Beat(p, k))
      && |r.starts| <= p.rate * p.duration + 1
      && r.counter + r.failures == |r.starts|
  {
    RunIsPaced(p, turns);
    var n := |After(p, turns).starts|;
    BeatBeforeDeadline(p, n - 2);
    assert p.rate * p.duration >= 0;
  }

  /** `to` lies at most a second before `from` plus the time from beat `j` to beat `k`. */
  predicate Gap(beats: int -> real, from: real, j: int, k: int, to: real) {
    to >= from - 1.0 + beats(k) - beats(j)
  }

  /** The beat trails any operation that has started by at most a second, and gains on it with
      every operation since. */
  ghost predicate Catching(beats: int -> real, r: Run) {
    && (forall j :: 0 <= j < |r.starts| ==> Gap(beats, r.starts[j], j, |r.starts| - 1, r.nextBeat))
    && (forall j, k :: 0 <= j < k < |r.starts| ==> Gap(beats, r.starts[j], j, k - 1, r.starts[k]))
  }

  lemma GoIsCatching(p: Plan, beats: int -> real, r: Run, t: Turn)
    requires p.rate > 0 && Real(t) && Catching(beats, r)
    requires beats(|r.starts|) == beats(|r.starts| - 1) + Interval(p)
    ensures Catching(beats, Go(p, r, t))
  {
    if !r.done && r.clock + t.check < Deadline(p) {
      Catches(beats, r, Go(p, r, t), StartOf(r, t), Interval(p));
    }
  }

  lemma Catches(beats: int -> real, r: Run, after: Run, start: real, h: real)
    requires Catching(beats, r) && beats(|r.starts|) == beats(|r.starts| - 1) + h
    requires after.starts == r.starts + [start] && start >= r.nextBeat
    requires after.nextBeat >= r.nextBeat + h && after.nextBeat >= start - 1.0
    ensures Catching(beats, after)
  {
    var n := |r.starts|;
    forall j | 0 <= j <= n ensures Gap(beats, after.starts[j], j, n, after.nextBeat) {
      if j < n {
        assert Gap(beats, r.starts[j], j, n - 1, r.nextBeat);
      }
    }
    forall j, k | 0 <= j < k <= n ensures Gap(beats, after.starts[j], j, k - 1, after.starts[k]) {
      if k < n {
        assert Gap(beats, r.starts[j], j, k - 1, r.starts[k]);
      } else {
        assert Gap(beats, r.starts[j], j, n - 1, r.nextBeat);
      }
    }
  }

  lemma {:induction false} RunIsCatching(p: Plan, turns: seq<Turn>)
    requires p.rate > 0 && AllReal(turns)
    ensures Catching(k => Beat(p, k), After(p, turns))
  {
    if turns != [] {
      var r := After(p, turns[..|turns| - 1]);
      RunIsCatching(p, turns[..|turns| - 1]);
      BeatStep(p, |r.starts| - 1);
      GoIsCatching(p, k => Beat(p, k), r, turns[|turns| - 1]);
    }
  }

  lemma BeatsApart(p: Plan, j: int, k: int, seconds: nat)
    requires p.rate > 0 && k - j >= p.rate * seconds
    ensures Beat(p, k) - Beat(p, j) >= seconds as real
  {
    var h, rate := Interval(p), p.rate as real;
    assert h * rate == 1.0 && h > 0.0;
    var n := p.rate * seconds;
    assert n as real == rate * seconds as real;
    assert n as real * h == seconds as real by {
      assert rate * seconds as real * h == (h * rate) * seconds as real;
    }
    assert (k - j) as real == k as real - j as real >= n as real;
    assert (k as real - j as real) * h >= n as real * h;
    assert (k as real - j as real) * h == k as real * h - j as real * h;
  }

  /** After a delay, however long, the pacer catches up by at most one second of beats: more than
      rate * (w + 1) operations after some operation are at least `w` seconds later than it. */
  lemma BurstBound(p: Plan, turns: seq<Turn>, j: nat, k: nat, w: nat)
    requires p.rate > 0 && AllReal(turns)
    requires j < k < |After(p, turns).starts| && k - j > p.rate * (w + 1)
    ensures After(p, turns).starts[k] - After(p, turns).starts[j] >= w as real
  {
    RunIsCatching(p, turns);
    var starts, beats := After(p, turns).starts, i => Beat(p, i);
    assert Gap(beats, starts[j], j, k - 1, starts[k]);
    BeatsApart(p, j, k - 1, w + 1);
  }

  /** The next beat is on the grid of beats that starts at t0. */
  predicate OnGrid(p: Plan, r: Run)
    requires p.rate > 0
  {
    r.nextBeat == Beat(p, |r.starts|)
  }

  /** The loop is over, or no more than a second behind its grid. */
  predicate InTime(p: Plan, r: Run)
    requires p.rate > 0
  {
    r.done || r.clock <= Beat(p, |r.starts|) + 1.0
  }

  ghost predicate AlwaysOnGrid(p: Plan, turns: seq<Turn>)
    requires p.rate > 0
  {
    forall i :: 0 <= i <= |turns| ==> OnGrid(p, After(p, turns[..i]))
  }

  ghost predicate AlwaysInTime(p: Plan, turns: seq<Turn>)
    requires p.rate > 0
  {
    forall i :: 0 <= i <= |turns| ==> InTime(p, After(p, turns[..i]))
  }

  lemma GridStep(p: Plan, r: Run, t: Turn)
    requires p.rate > 0 && Real(t) && OnGrid(p, r) && InTime(p, r)
    ensures OnGrid(p, Go(p, r, t)) <==> InTime(p, Go(p, r, t))
  {
    BeatStep(p, |r.starts|);
  }

  /** Delays of up to a second are made up for: the schedule stays on its grid exactly as long as no
      operation leaves the loop more than a second behind. */
  lemma {:induction false} GridIsKeptIff(p: Plan, turns: seq<Turn>)
    requires p.rate > 0 && AllReal(turns)
    ensures AlwaysOnGrid(p, turns) <==> AlwaysInTime(p, turns)
  {
    if turns == [] {
      FirstBeat(p);
      assert turns[..0] == [];
    } else {
      var front, n := turns[..|turns| - 1], |turns|;
      GridIsKeptIff(p, front);
      assert forall i :: 0 <= i < n ==> turns[..i] == front[..i];
      assert turns[..n] == turns && front[..n - 1] == front;
      if AlwaysOnGrid(p, front) {
        assert OnGrid(p, After(p, front[..n - 1])) && InTime(p, After(p, front[..n - 1]));
        GridStep(p, After(p, front), turns[n - 1]);
      }
    }
  }

  // ----------------------------------------------------------------- node space

  const INSTANT := Turn(0.0, 0.0, 0.0, 0.0, 0.0, 0.0, 0.0, false)

  function Instants(n: nat): (turns: seq<Turn>)
    ensures |turns| == n && forall i :: 0 <= i < n ==> turns[i] == INSTANT
  {
    seq(n, i => INSTANT)
  }

  /** A turn that takes no time starts its operation exactly on the beat. */
  lemma InstantGo(p: Plan, r: Run)
    requires p.rate > 0 && !r.done && r.clock <= r.nextBeat && r.clock < Deadline(p)
    ensures
      var none := r.counter >= p.nodes;
      Go(p, r, INSTANT) == Run(r.nextBeat, r.nextBeat + Interval(p), r.starts + [r.nextBeat],
        if none then r.failures + 1 else r.failures, if none then r.counter else r.counter + 1, r.exhausted || none, false)
  {
    BeatStep(p, 0);
  }

  /** With instantaneous operations the pacer makes every attempt the bound allows. */
  lemma {:induction false} InstantRun(p: Plan, n: nat)
    requires p.rate > 0 && p.duration > 0 && n <= p.rate * p.duration + 1
    ensures
      var r := After(p, Instants(n));
      && !r.done && |r.starts| == n && r.nextBeat == Beat(p, n)
      && r.clock == (if n == 0 then p.t0 else Beat(p, n - 1))
      && r.counter == (if n <= p.nodes then n else p.nodes)
      && r.exhausted == (n > p.nodes)
  {
    if n == 0 {
      FirstBeat(p);
    } else {
      InstantRun(p, n - 1);
      assert Instants(n)[..n - 1] == Instants(n - 1);
      BeatStep(p, n - 1);
      BeatStep(p, n - 2);
      BeatBeforeDeadline(p, n - 2);
      FirstBeat(p);
      InstantGo(p, After(p, Instants(n - 1)));
    }
  }

  ghost predicate CanExhaust(p: Plan)
    requires p.rate > 0
  {
    exists turns: seq<Turn> :: AllReal(turns) && After(p, turns).exhausted
  }

  lemma {:induction false} NoTimeNoStart(p: Plan, turns: seq<Turn>)
    requires p.rate > 0 && p.duration == 0 && AllReal(turns)
    ensures var r := After(p, turns); r.starts == [] && !r.exhausted && r.clock >= p.t0
  {
    if turns != [] {
      NoTimeNoStart(p, turns[..|turns| - 1]);
    }
  }

  /** Some environment uses up the node space exactly when there is time for an operation and
      there are no more nodes than beats before the deadline. */
  lemma ExhaustedIff(p: Plan)
    requires p.rate > 0
    ensures CanExhaust(p) <==> p.duration > 0 && p.nodes <= p.rate * p.duration
  {
    if p.duration > 0 && p.nodes <= p.rate * p.duration {
      InstantRun(p, p.nodes + 1);
      assert AllReal(Instants(p.nodes + 1));
    }
    forall turns: seq<Turn> | AllReal(turns) && After(p, turns).exhausted
      ensures p.duration > 0 && p.nodes <= p.rate * p.duration
    {
      RunIsPaced(p, turns);
      PacerTheorem(p, turns);
      if p.duration == 0 {
        NoTimeNoStart(p, turns);
      }
    }
  }

  const TARGET_RATE := 10
  const DURATION_S := 30
  const B6_NODES := 400

  /** The configured node space outlasts every run: at most 301 attempts. */
  lemma ConfiguredSpaceSuffices(t0: real, turns: seq<Turn>)
    requires AllReal(turns)
    ensures
      var r := After(Plan(t0, DURATION_S, TARGET_RATE, B6_NODES), turns);
      !r.exhausted && |r.starts| <= 301
  {
    var p := Plan(t0, DURATION_S, TARGET_RATE, B6_NODES);
    PacerTheorem(p, turns);
    RunIsPaced(p, turns);
  }
}
