/** Cadence, backoff and health of outbox recovery (authority_service.py,
    `_OutboxRecoveryMonitor`).  Clock readings are arguments.
 */
module OutboxMonitor {
  import opened JsonTerms
  import opened Contention

  const INTERVAL_S := 1.0
  const MAX_BACKOFF_S := 30.0
  const ESCALATE_AFTER := 10

  /** `1.0 * 2 ** e` raises OverflowError when the integer has no double-precision value,
      which for a power of two means an exponent above 1023. */
  const MAX_FLOAT_EXPONENT := 1023

  datatype Health = Fine | Stalled | BackingOff | Escalated

  datatype Monitor = Monitor(health: Health, failures: nat, nextDue: real)

  /** How one recovery attempt ends: counts, or an `AuthorityOutboxRecoveryError`. */
  datatype Attempt =
    | Finished(delivered: nat, pending: nat)
    | Raised(errors: Graph, root: nat)

  /** `run` either returns or its exception ends the serving loop. */
  datatype AfterRun = Running(monitor: Monitor) | Ended(monitor: Monitor)

  ghost predicate WellFormed(a: Attempt) {
    a.Raised? ==> Closed(a.errors) && a.root in a.errors
  }

  ghost predicate IsLockWait(a: Attempt)
    requires WellFormed(a)
  {
    a.Raised? && OnlyBusyBehind(a.errors, a.root)
  }

  predicate IsSuccess(a: Attempt) {
    a.Finished? && (a.delivered != 0 || a.pending == 0)
  }

  predicate IsStall(a: Attempt) {
    a.Finished? && !IsSuccess(a)
  }

  /** A run that ends stalls exactly when it left something pending and delivered nothing. */
  lemma StallIff(a: Attempt)
    ensures IsStall(a) <==> a.Finished? && a.delivered == 0 && a.pending > 0
    ensures IsSuccess(a) <==> a.Finished? && !IsStall(a)
  {
  }

  function Pow2(e: nat): (p: nat)
    ensures p >= 1
  {
    if e == 0 then 1 else 2 * Pow2(e - 1)
  }

  function Backoff(failures: nat): real
    requires failures >= 1
  {
    var doubled := INTERVAL_S * Pow2(failures - 1) as real;
    if doubled <= MAX_BACKOFF_S then doubled else MAX_BACKOFF_S
  }

  function RequestRun(m: Monitor, now: real): Monitor {
    m.(nextDue := if m.nextDue <= now then m.nextDue else now)
  }

  predicate Due(m: Monitor, now: real) {
    now >= m.nextDue
  }

  function Succeed(now: real): Monitor {
    Monitor(Fine, 0, now + INTERVAL_S)
  }

  function Stall(m: Monitor, now: real): Monitor {
    Monitor(Stalled, m.failures, now + INTERVAL_S)
  }

  function Wait(m: Monitor, now: real): AfterRun {
    var failures := m.failures + 1;
    if failures - 1 > MAX_FLOAT_EXPONENT then Ended(m.(failures := failures))
    else Running(Monitor(if failures >= ESCALATE_AFTER then Escalated else BackingOff,
                         failures, now + Backoff(failures)))
  }

  ghost function Run(m: Monitor, a: Attempt, now: real): AfterRun
    requires WellFormed(a)
  {
    if IsSuccess(a) then Running(Succeed(now))
    else if IsStall(a) then Running(Stall(m, now))
    else if IsLockWait(a) then Wait(m, now)
    else Ended(m)
  }

  class OutboxRecoveryMonitor {
    var health: Health
    var failures: nat
    var nextDue: real

    ghost function View(): Monitor
      reads this
    {
      Monitor(health, failures, nextDue)
    }

    constructor (now: real)
      ensures View() == Succeed(now)
    {
      health, failures, nextDue := Fine, 0, now + INTERVAL_S;
    }

    method RequestRunNow(now: real)
      modifies this
      ensures View() == RequestRun(old(View()), now)
    {
      if now < nextDue {
        nextDue := now;
      }
    }

    method IsDue(now: real) returns (due: bool)
      ensures due == Due(View(), now)
    {
      due := now >= nextDue;
    }

    method RecordSuccess(now: real)
      modifies this
      ensures View() == Succeed(now)
    {
      health := Fine;
      failures := 0;
      nextDue := now + INTERVAL_S;
    }

    method RecordResult(delivered: nat, pending: nat, now: real)
      modifies this
      ensures View() == if IsSuccess(Finished(delivered, pending)) then Succeed(now) else Stall(old(View()), now)
    {
      if delivered != 0 || pending == 0 {
        RecordSuccess(now);
        return;
      }
      health := Stalled;
      nextDue := now + INTERVAL_S;
    }

    method RecordTransient(now: real) returns (ended: bool)
      modifies this
      ensures (if ended then Ended(View()) else Running(View())) == Wait(old(View()), now)
    {
      failures := failures + 1;
      if failures - 1 > MAX_FLOAT_EXPONENT {
        return true;
      }
      nextDue := now + Backoff(failures);
      health := if failures >= ESCALATE_AFTER then Escalated else BackingOff;
      return false;
    }

    /** `ended` says that an exception leaves `run`. */
    method RunOnce(a: Attempt, now: real) returns (ended: bool)
      requires WellFormed(a)
      modifies this
      ensures (if ended then Ended(View()) else Running(View())) == Run(old(View()), a, now)
    {
      match a
      case Finished(delivered, pending) =>
        RecordResult(delivered, pending, now);
        ended := false;
      case Raised(errors, root) =>
        var transient := IsTransientContention(errors, true, root);
        if !transient {
          return true;
        }
        ended := RecordTransient(now);
    }
  }

  // ---------------------------------------------------------------- histories

  datatype Event = Requested(now: real) | Ran(attempt: Attempt, now: real)

  ghost predicate WellFormedHistory(h: seq<Event>) {
    forall i :: 0 <= i < |h| && h[i].Ran? ==> WellFormed(h[i].attempt)
  }

  ghost function Replay(start: real, h: seq<Event>): AfterRun
    requires WellFormedHistory(h)
  {
    if h == [] then Running(Succeed(start))
    else
      var earlier := Replay(start, h[..|h| - 1]);
      if earlier.Ended? then earlier
      else
        match h[|h| - 1]
        case Requested(now) => Running(RequestRun(earlier.monitor, now))
        case Ran(a, now) => Run(earlier.monitor, a, now)
  }

  /** Lock waits after the last success; stalls and requests do not reset the count. */
  ghost function WaitsSinceSuccess(h: seq<Event>): nat
    requires WellFormedHistory(h)
  {
    if h == [] then 0
    else
      var last := h[|h| - 1];
      var before := WaitsSinceSuccess(h[..|h| - 1]);
      if last.Ran? && IsSuccess(last.attempt) then 0
      else if last.Ran? && IsLockWait(last.attempt) then before + 1
      else before
  }

  /** Health as a reader would expect it from the last attempt alone and the wait count. */
  ghost function ExpectedHealth(h: seq<Event>): Health
    requires WellFormedHistory(h)
  {
    if h == [] then Fine
    else
      var last := h[|h| - 1];
      if last.Requested? then ExpectedHealth(h[..|h| - 1])
      else if IsSuccess(last.attempt) then Fine
      else if IsStall(last.attempt) then Stalled
      else if WaitsSinceSuccess(h) >= 10 then Escalated else BackingOff
  }

  /** Over every history the failure count is the lock waits since the last success, and the
      reported health is determined by the last attempt and that count. */
  lemma {:induction false} CountsAreExact(start: real, h: seq<Event>)
    requires WellFormedHistory(h)
    requires Replay(start, h).Running?
    ensures Replay(start, h).monitor.failures == WaitsSinceSuccess(h)
    ensures Replay(start, h).monitor.health == ExpectedHealth(h)
  {
    if h != [] {
      CountsAreExact(start, h[..|h| - 1]);
    }
  }

  lemma {:induction false} HealthBoundsCount(start: real, h: seq<Event>)
    requires WellFormedHistory(h)
    requires Replay(start, h).Running?
    ensures
      var m := Replay(start, h).monitor;
      && (m.health == Fine ==> m.failures == 0)
      && (m.health == BackingOff ==> 1 <= m.failures < ESCALATE_AFTER)
      && (m.health == Escalated ==> m.failures >= ESCALATE_AFTER)
  {
    if h != [] {
      HealthBoundsCount(start, h[..|h| - 1]);
    }
  }

  /** When the last attempt made the next one due: one second after a success or a stall, and
      after the backoff of its wait count after a lock wait.  A new monitor counts as a
      success. */
  ghost function DueByAttempt(start: real, h: seq<Event>): real
    requires WellFormedHistory(h)
  {
    if h == [] then start + 1.0
    else
      var last := h[|h| - 1];
      if last.Requested? then DueByAttempt(start, h[..|h| - 1])
      else if IsLockWait(last.attempt) then last.now + Backoff(WaitsSinceSuccess(h))
      else last.now + 1.0
  }

  /** A run was requested at this time, after the last attempt. */
  ghost predicate RequestedSince(h: seq<Event>, now: real) {
    h != [] && h[|h| - 1].Requested? && (h[|h| - 1].now == now || RequestedSince(h[..|h| - 1], now))
  }

  /** Over every history the next run is due when the last attempt made it due, or at the
      earliest request since, whichever comes first. */
  lemma {:induction false} DueIsEarliest(start: real, h: seq<Event>)
    requires WellFormedHistory(h) && Replay(start, h).Running?
    ensures
      var due := Replay(start, h).monitor.nextDue;
      && due <= DueByAttempt(start, h)
      && (forall now :: RequestedSince(h, now) ==> due <= now)
      && (due == DueByAttempt(start, h) || RequestedSince(h, due))
  {
    if h != [] {
      var earlier, last := h[..|h| - 1], h[|h| - 1];
      DueIsEarliest(start, earlier);
      CountsAreExact(start, earlier);
    }
  }

  /** So recovery runs at a moment exactly when the last attempt or a request since allows it. */
  lemma DueIff(start: real, h: seq<Event>, now: real)
    requires WellFormedHistory(h) && Replay(start, h).Running?
    ensures
      Due(Replay(start, h).monitor, now) <==>
      now >= DueByAttempt(start, h) || exists at :: RequestedSince(h, at) && at <= now
  {
    DueIsEarliest(start, h);
  }

  /** Some attempt failed for a reason other than a lock wait. */
  ghost predicate HasFatal(h: seq<Event>)
    requires WellFormedHistory(h)
  {
    exists i :: 0 <= i < |h| && h[i].Ran? && h[i].attempt.Raised? && !IsLockWait(h[i].attempt)
  }

  ghost predicate HasLongRun(h: seq<Event>)
    requires WellFormedHistory(h)
  {
    exists i :: 0 <= i <= |h| && WaitsSinceSuccess(h[..i]) > 1024
  }

  /** The monitor promises that a lock wait never ends the authority.  That is false: the
      backoff `1.0 * 2 ** (failures - 1)` overflows on the 1025th wait without a success in
      between.  The authority survives a history exactly when no attempt failed for another
      reason and no success-free stretch holds more than 1024 lock waits. */
  lemma {:induction false} SurvivalCondition(start: real, h: seq<Event>)
    requires WellFormedHistory(h)
    ensures Replay(start, h).Running? <==> !HasFatal(h) && !HasLongRun(h)
  {
    if h == [] {
      assert forall i :: 0 <= i <= |h| ==> h[..i] == [];
    } else {
      var earlier, last := h[..|h| - 1], h[|h| - 1];
      SurvivalCondition(start, earlier);
      PrefixesExtend(earlier, last);
      assert h == earlier + [last];
      if Replay(start, earlier).Running? {
        CountsAreExact(start, earlier);
      }
    }
  }

  lemma PrefixesExtend(earlier: seq<Event>, last: Event)
    requires WellFormedHistory(earlier)
    requires last.Ran? ==> WellFormed(last.attempt)
    ensures WellFormedHistory(earlier + [last])
    ensures
      HasFatal(earlier + [last]) <==>
      HasFatal(earlier) || (last.Ran? && last.attempt.Raised? && !IsLockWait(last.attempt))
    ensures
      HasLongRun(earlier + [last]) <==>
      HasLongRun(earlier) || WaitsSinceSuccess(earlier + [last]) > 1024
  {
    var h := earlier + [last];
    assert forall i :: 0 <= i < |earlier| ==> h[i] == earlier[i];
    assert h[|earlier|] == last;
    assert forall i :: 0 <= i <= |earlier| ==> h[..i] == earlier[..i];
    assert h[..|h|] == h;
  }

  /** One SQLITE_BUSY behind a recovery error. */
  const BUSY: Attempt :=
    Raised(map[0 := Exc(false, None, Some(1), None), 1 := Exc(true, Some(SQLITE_BUSY), None, None)], 0)

  lemma BusyIsLockWait()
    ensures WellFormed(BUSY) && IsLockWait(BUSY)
  {
    var g := BUSY.errors;
    assert Closed(g);
    forall e | Reachable(g, 1, e) ensures e in g && IsSqliteBusy(g[e]) {
      var path :| PathBetween(g, 1, e, path);
      ClosedSetHoldsPath(g, {1}, path);
    }
  }

  lemma {:induction false} WaitsAddUp(k: nat)
    ensures WellFormedHistory(seq(k, i => Ran(BUSY, i as real)))
    ensures WaitsSinceSuccess(seq(k, i => Ran(BUSY, i as real))) == k
  {
    BusyIsLockWait();
    if k > 0 {
      WaitsAddUp(k - 1);
      assert seq(k, i => Ran(BUSY, i as real))[..k - 1] == seq(k - 1, i => Ran(BUSY, i as real));
    }
  }

  /** A history of nothing but lock waits that ends the authority, and how long it has to be. */
  lemma LockWaitsAloneEndTheAuthority(k: nat)
    ensures WellFormedHistory(seq(k, i => Ran(BUSY, i as real)))
    ensures Replay(0.0, seq(k, i => Ran(BUSY, i as real))).Ended? <==> k >= 1025
  {
    var h := seq(k, i => Ran(BUSY, i as real));
    WaitsAddUp(k);
    BusyIsLockWait();
    SurvivalCondition(0.0, h);
    forall i | 0 <= i <= k ensures WaitsSinceSuccess(h[..i]) == i {
      assert h[..i] == seq(i, j => Ran(BUSY, j as real));
      WaitsAddUp(i);
    }
    assert h[..k] == h;
  }

  // ------------------------------------------------------------ scheduled delay

  ghost function TotalDelay(k: nat): real {
    if k == 0 then 0.0 else TotalDelay(k - 1) + Backoff(k)
  }

  lemma {:induction false} Pow2Grows(e: nat)
    requires e >= 5
    ensures Pow2(e) >= 32
  {
    if e == 5 {
      assert Pow2(5) == 2 * Pow2(4) && Pow2(4) == 2 * Pow2(3) && Pow2(3) == 2 * Pow2(2);
    } else {
      Pow2Grows(e - 1);
    }
  }

  /** Doubling from one second, capped at thirty: 2^k - 1 seconds over the first five waits,
      thirty more for each further one. */
  lemma {:induction false} TotalDelayClosedForm(k: nat)
    ensures TotalDelay(k) == if k <= 5 then Pow2(k) as real - 1.0 else 31.0 + 30.0 * (k - 5) as real
  {
    if k > 0 {
      TotalDelayClosedForm(k - 1);
      if k > 5 {
        Pow2Grows(k - 1);
        assert Pow2(5) == 2 * Pow2(4) && Pow2(4) == 2 * Pow2(3) && Pow2(3) == 2 * Pow2(2);
      } else {
        assert Pow2(4) == 2 * Pow2(3) && Pow2(3) == 2 * Pow2(2) && Pow2(2) == 2 * Pow2(1);
        assert Pow2(k) == 2 * Pow2(k - 1);
      }
    }
  }

  /** `k` waits in a row, each run exactly when it fell due, the first one at `now`. */
  ghost function PunctualWaits(m: Monitor, now: real, k: nat): AfterRun {
    if k == 0 then Running(m)
    else
      var earlier := PunctualWaits(m, now, k - 1);
      if earlier.Ended? then earlier
      else Wait(earlier.monitor, if k == 1 then now else earlier.monitor.nextDue)
  }

  lemma {:induction false} PunctualWaitsSchedule(m: Monitor, now: real, k: nat)
    requires m.failures == 0 && 1 <= k
    ensures PunctualWaits(m, now, k).Running? <==> k <= MAX_FLOAT_EXPONENT + 1
    ensures k <= MAX_FLOAT_EXPONENT + 1 ==>
              var after := PunctualWaits(m, now, k).monitor;
              && after.failures == k
              && after.nextDue == now + TotalDelay(k)
              && after.health == if k >= ESCALATE_AFTER then Escalated else BackingOff
  {
    if k > 1 {
      PunctualWaitsSchedule(m, now, k - 1);
    }
    assert TotalDelay(k) == TotalDelay(k - 1) + Backoff(k);
  }
}
