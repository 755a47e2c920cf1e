/** Early-stopping best-of-k selection and its summary totals
    (run_mc_swarm.py, `_score`, `_select_winner`, `_build_summary` and the loop of `main`).
 */
module BestOfK {

  /** A candidate with the harness's verdict on its patch.  The verdict is read only when there
      is a patch and the candidate is evaluated. */
  datatype Candidate = Candidate(hasPatch: bool, timedOut: bool, applies: bool, resolves: bool)

  datatype Row = Row(patchGenerated: bool, applied: bool, resolved: bool)

  function Evaluate(c: Candidate): Row {
    if c.hasPatch then Row(true, c.applies, c.resolves) else Row(false, false, false)
  }

  type Score = (int, int, int)

  function Bit(b: bool): int {
    if b then 1 else 0
  }

  function ScoreOf(r: Row): Score {
    (Bit(r.resolved), Bit(r.applied), Bit(r.patchGenerated))
  }

  /** Tuple comparison, first component first. */
  predicate Above(a: Score, b: Score) {
    a.0 > b.0 || (a.0 == b.0 && (a.1 > b.1 || (a.1 == b.1 && a.2 > b.2)))
  }

  /** The first of the best scores. */
  ghost predicate FirstBest(cands: seq<Candidate>, i: nat) {
    && i < |cands|
    && (forall j :: 0 <= j < |cands| ==> !Above(ScoreOf(Evaluate(cands[j])), ScoreOf(Evaluate(cands[i]))))
    && (forall j :: 0 <= j < i ==> Above(ScoreOf(Evaluate(cands[i])), ScoreOf(Evaluate(cands[j]))))
  }

  /** How many candidates are evaluated: up to and including the first resolved one. */
  function Stop(cands: seq<Candidate>): (n: nat)
    ensures n <= |cands|
    ensures forall j :: 0 <= j < n - 1 ==> !Evaluate(cands[j]).resolved
    ensures n < |cands| ==> n > 0 && Evaluate(cands[n - 1]).resolved
    ensures cands != [] ==> n > 0
  {
    if cands == [] then 0
    else if Evaluate(cands[0]).resolved then 1
    else 1 + Stop(cands[1..])
  }

  function Count(cands: seq<Candidate>, p: Candidate -> bool): (n: nat)
    ensures n <= |cands|
  {
    if cands == [] then 0 else Count(cands[..|cands| - 1], p) + if p(cands[|cands| - 1]) then 1 else 0
  }

  function Valid(): Candidate -> bool {
    (c: Candidate) => c.hasPatch
  }

  function TimedOut(): Candidate -> bool {
    (c: Candidate) => c.timedOut
  }

  function Applied(): Candidate -> bool {
    (c: Candidate) => Evaluate(c).applied
  }

  function Resolved(): Candidate -> bool {
    (c: Candidate) => Evaluate(c).resolved
  }

  datatype Winner = Winner(
    row: Row, index: nat, candidates: nat, valid: nat, evaluated: nat, unevaluated: nat,
    applied: nat, resolved: nat, timeouts: nat)

  ghost predicate Wins(w: Winner, cands: seq<Candidate>) {
    var seen := cands[..Stop(cands)];
    && FirstBest(seen, w.index) && w.row == Evaluate(seen[w.index])
    && w.candidates == |cands| && w.evaluated == |seen| && w.evaluated + w.unevaluated == |cands|
    && w.valid == Count(cands, Valid()) && w.timeouts == Count(cands, TimedOut())
    && w.applied == Count(seen, Applied()) && w.resolved == Count(seen, Resolved())
  }

  lemma {:induction false} StopAt(cands: seq<Candidate>, n: nat)
    requires n <= |cands| && (forall j :: 0 <= j < n - 1 ==> !Evaluate(cands[j]).resolved)
    requires n > 0 && (n == |cands| || Evaluate(cands[n - 1]).resolved)
    ensures Stop(cands) == n
  {
    if Evaluate(cands[0]).resolved {
      assert n == 1;
    } else if |cands| > 1 {
      var rest := cands[1..];
      assert forall j :: 0 <= j < |rest| ==> rest[j] == cands[j + 1];
      StopAt(rest, n - 1);
    }
  }

  method CountOf(cands: seq<Candidate>, p: Candidate -> bool) returns (n: nat)
    ensures n == Count(cands, p)
  {
    n := 0;
    for i := 0 to |cands|
      invariant n == Count(cands[..i], p)
    {
      assert cands[..i + 1][..i] == cands[..i];
      if p(cands[i]) {
        n := n + 1;
      }
    }
    assert cands[..|cands|] == cands;
  }

  /** The scan up to the first resolved candidate. */
  method Scan(cands: seq<Candidate>) returns (index: nat, evaluated: nat, applied: nat, resolved: nat)
    requires cands != []
    ensures evaluated == Stop(cands) && FirstBest(cands[..evaluated], index)
    ensures applied == Count(cands[..evaluated], Applied()) && resolved == Count(cands[..evaluated], Resolved())
  {
    index, evaluated, applied, resolved := 0, 0, 0, 0;
    var best := (-1, -1, -1);
    while evaluated < |cands|
      invariant 0 <= evaluated <= |cands|
      invariant forall j :: 0 <= j < evaluated ==> !Evaluate(cands[j]).resolved
      invariant applied == Count(cands[..evaluated], Applied()) && resolved == Count(cands[..evaluated], Resolved())
      invariant if evaluated == 0 then best == (-1, -1, -1) else FirstBest(cands[..evaluated], index) && best == ScoreOf(Evaluate(cands[index]))
    {
      var row := Evaluate(cands[evaluated]);
      var score := ScoreOf(row);
      ExtendBest(cands, evaluated, index, best);
      assert cands[..evaluated + 1][..evaluated] == cands[..evaluated];
      if row.applied {
        applied := applied + 1;
      }
      if row.resolved {
        resolved := resolved + 1;
      }
      if Above(score, best) {
        best := score;
        index := evaluated;
      }
      evaluated := evaluated + 1;
      if score.0 == 1 {
        break;
      }
    }
    StopAt(cands, evaluated);
  }

  /** One more candidate takes over exactly when its score is above the best so far. */
  lemma ExtendBest(cands: seq<Candidate>, n: nat, index: nat, best: Score)
    requires n < |cands|
    requires if n == 0 then best == (-1, -1, -1) else FirstBest(cands[..n], index) && best == ScoreOf(Evaluate(cands[index]))
    ensures
      var score := ScoreOf(Evaluate(cands[n]));
      FirstBest(cands[..n + 1], if Above(score, best) then n else index)
  {
    var longer := cands[..n + 1];
    assert forall j :: 0 <= j < n ==> longer[j] == cands[..n][j];
    assert longer[n] == cands[n];
  }

  datatype Selection = NoCandidates | Selected(winner: Winner)

  method SelectWinner(cands: seq<Candidate>) returns (s: Selection)
    ensures if cands == [] then s == NoCandidates else s.Selected? && Wins(s.winner, cands)
  {
    if cands == [] {
      return NoCandidates;
    }
    var index, evaluated, applied, resolved := Scan(cands);
    var valid := CountOf(cands, Valid());
    var timeouts := CountOf(cands, TimedOut());
    s := Selected(Winner(Evaluate(cands[index]), index, |cands|, valid, evaluated, |cands| - evaluated, applied, resolved, timeouts));
    assert cands[..evaluated][index] == cands[index];
  }

  // ----------------------------------------------------------- stopping early

  /** Where stopping early is harmless: nothing resolves, or the first resolved patch also
      applied, or no resolved patch applied. */
  ghost predicate StopIsHarmless(cands: seq<Candidate>) {
    var n := Stop(cands);
    || n == 0 || !Evaluate(cands[n - 1]).resolved
    || Evaluate(cands[n - 1]).applied
    || forall j :: n <= j < |cands| ==> !(Evaluate(cands[j]).resolved && Evaluate(cands[j]).applied)
  }

  lemma FirstBestIsUnique(cands: seq<Candidate>, i: nat, j: nat)
    requires FirstBest(cands, i) && FirstBest(cands, j)
    ensures i == j
  {
    var si, sj := ScoreOf(Evaluate(cands[i])), ScoreOf(Evaluate(cands[j]));
  }

  /** Where the scan stops at a resolved candidate, that one wins. */
  lemma ResolvedWins(cands: seq<Candidate>, early: nat)
    requires FirstBest(cands[..Stop(cands)], early) && Evaluate(cands[Stop(cands) - 1]).resolved
    ensures early == Stop(cands) - 1
  {
    var n := Stop(cands);
    var seen := cands[..n];
    assert seen[n - 1] == cands[n - 1] && seen[early] == cands[early];
    assert !Above(ScoreOf(Evaluate(seen[n - 1])), ScoreOf(Evaluate(seen[early])));
  }

  /** Among candidates that hold a resolved and applied one, such a one wins. */
  lemma FullApplies(cands: seq<Candidate>, full: nat, j: nat)
    requires FirstBest(cands, full) && j < |cands| && Evaluate(cands[j]).resolved && Evaluate(cands[j]).applied
    ensures Evaluate(cands[full]).resolved && Evaluate(cands[full]).applied
  {
    assert !Above(ScoreOf(Evaluate(cands[j])), ScoreOf(Evaluate(cands[full])));
  }

  lemma EarlyIsFull(cands: seq<Candidate>, early: nat)
    requires FirstBest(cands[..Stop(cands)], early) && StopIsHarmless(cands)
    ensures FirstBest(cands, early)
  {
    var n := Stop(cands);
    var seen := cands[..n];
    assert forall j :: 0 <= j < n ==> seen[j] == cands[j];
    if Evaluate(cands[n - 1]).resolved {
      ResolvedWins(cands, early);
    }
  }

  /** What harm means: the scan stops at a resolved patch that did not apply, before one that
      resolves and applies. */
  lemma HarmAt(cands: seq<Candidate>) returns (j: nat)
    requires !StopIsHarmless(cands)
    ensures Stop(cands) > 0 && Evaluate(cands[Stop(cands) - 1]).resolved && !Evaluate(cands[Stop(cands) - 1]).applied
    ensures j < |cands| && Evaluate(cands[j]).resolved && Evaluate(cands[j]).applied
  {
    j :| Stop(cands) <= j < |cands| && Evaluate(cands[j]).resolved && Evaluate(cands[j]).applied;
  }

  /** When a later candidate also applies, stopping early loses the applied flag. */
  lemma EarlyLoses(cands: seq<Candidate>, early: nat, full: nat)
    requires FirstBest(cands[..Stop(cands)], early) && FirstBest(cands, full) && !StopIsHarmless(cands)
    ensures early < |cands| && !Evaluate(cands[early]).applied && Evaluate(cands[full]).applied
  {
    var j := HarmAt(cands);
    ResolvedWins(cands, early);
    FullApplies(cands, full, j);
  }

  /** Stopping at the first resolved candidate returns the same winner, and the same resolved,
      applied and patch flags, as evaluating all of them exactly when it is harmless. */
  lemma EarlyStopIff(cands: seq<Candidate>, early: nat, full: nat)
    requires FirstBest(cands[..Stop(cands)], early) && FirstBest(cands, full)
    ensures early < |cands|
    ensures Evaluate(cands[early]) == Evaluate(cands[full]) <==> StopIsHarmless(cands)
    ensures StopIsHarmless(cands) ==> early == full
  {
    if StopIsHarmless(cands) {
      EarlyIsFull(cands, early);
      FirstBestIsUnique(cands, early, full);
    } else {
      EarlyLoses(cands, early, full);
    }
  }

  /** A harness that never reports a patch as resolved without having applied it is always
      harmless. */
  lemma ResolvedMeansApplied(cands: seq<Candidate>)
    requires forall i :: 0 <= i < |cands| && Evaluate(cands[i]).resolved ==> Evaluate(cands[i]).applied
    ensures StopIsHarmless(cands)
  {
  }

  /** Without that, stopping early can lose the applied flag. */
  lemma EarlyStopCanDiffer()
    ensures
      var cands := [Candidate(true, false, false, true), Candidate(true, false, true, true)];
      && FirstBest(cands[..Stop(cands)], 0) && FirstBest(cands, 1)
      && !Evaluate(cands[0]).applied && Evaluate(cands[1]).applied
  {
    var cands := [Candidate(true, false, false, true), Candidate(true, false, true, true)];
    assert Evaluate(cands[0]).resolved;
    assert Stop(cands) == 1;
  }

  // ------------------------------------------------------------------- summary

  datatype Summary = Summary(
    instances: nat, patchGenerated: nat, applied: nat, resolved: nat,
    totalCandidates: nat, evaluated: nat, unevaluated: int, appliedCandidates: nat, resolvedCandidates: nat)

  function Sum(batches: seq<seq<Candidate>>, f: seq<Candidate> -> nat): nat {
    if |batches| == 0 then 0 else Sum(batches[..|batches| - 1], f) + f(batches[|batches| - 1])
  }

  function Sizes(): seq<Candidate> -> nat {
    (b: seq<Candidate>) => |b|
  }

  function Evaluated(): seq<Candidate> -> nat {
    (b: seq<Candidate>) => Stop(b)
  }

  function Skipped(): seq<Candidate> -> nat {
    (b: seq<Candidate>) => |b| - Stop(b)
  }

  predicate AnyResolved(b: seq<Candidate>) {
    exists i :: 0 <= i < |b| && Evaluate(b[i]).resolved
  }

  predicate AnyApplied(b: seq<Candidate>) {
    exists i :: 0 <= i < |b| && Evaluate(b[i]).applied
  }

  predicate AnyPatch(b: seq<Candidate>) {
    exists i :: 0 <= i < |b| && b[i].hasPatch
  }

  /** The winner applied: the first resolved candidate did, or any did when none resolved. */
  predicate AppliedOutcome(b: seq<Candidate>) {
    var n := Stop(b);
    if n > 0 && Evaluate(b[n - 1]).resolved then Evaluate(b[n - 1]).applied else AnyApplied(b)
  }

  function ResolvedBatch(): seq<Candidate> -> nat {
    (b: seq<Candidate>) => if AnyResolved(b) then 1 else 0
  }

  function AppliedBatch(): seq<Candidate> -> nat {
    (b: seq<Candidate>) => if AppliedOutcome(b) then 1 else 0
  }

  function PatchBatch(): seq<Candidate> -> nat {
    (b: seq<Candidate>) => if AnyPatch(b) then 1 else 0
  }

  function AppliedSeen(): seq<Candidate> -> nat {
    (b: seq<Candidate>) => Count(b[..Stop(b)], Applied())
  }

  /** The winner resolves exactly when some candidate of the batch does, and then exactly one
      evaluated candidate resolves. */
  lemma WinnerResolvesIff(w: Winner, cands: seq<Candidate>)
    requires cands != [] && Wins(w, cands)
    ensures w.row.resolved <==> AnyResolved(cands)
    ensures w.resolved == if AnyResolved(cands) then 1 else 0
  {
    var n := Stop(cands);
    var seen := cands[..n];
    assert forall j :: 0 <= j < n ==> seen[j] == cands[j];
    var last := seen[n - 1];
    assert !Above(ScoreOf(Evaluate(last)), ScoreOf(Evaluate(seen[w.index])));
    assert Evaluate(last).resolved ==> Evaluate(cands[n - 1]).resolved;
    NoneResolved(seen[..n - 1]);
    if AnyResolved(cands) {
      var i :| 0 <= i < |cands| && Evaluate(cands[i]).resolved;
      assert i >= n - 1;
    }
  }

  lemma {:induction false} NoneResolved(cands: seq<Candidate>)
    requires forall j :: 0 <= j < |cands| ==> !Evaluate(cands[j]).resolved
    ensures Count(cands, Resolved()) == 0
  {
    if cands != [] {
      NoneResolved(cands[..|cands| - 1]);
    }
  }

  /** What the other two flags of the winner say about the batch. */
  lemma WinnerFlags(w: Winner, cands: seq<Candidate>)
    requires cands != [] && Wins(w, cands)
    ensures w.row.applied <==> AppliedOutcome(cands)
    ensures w.row.patchGenerated <==> AnyPatch(cands)
  {
    var n := Stop(cands);
    var seen := cands[..n];
    assert forall j :: 0 <= j < n ==> seen[j] == cands[j];
    var best := ScoreOf(Evaluate(seen[w.index]));
    assert forall j :: 0 <= j < n ==> !Above(ScoreOf(Evaluate(seen[j])), best);
    if Evaluate(cands[n - 1]).resolved {
      assert !Above(ScoreOf(Evaluate(seen[n - 1])), best);
      assert w.index == n - 1;
    } else {
      assert n == |cands|;
      assert seen == cands;
    }
    assert seen[w.index] == cands[w.index];
  }

  /** Every candidate generated is counted once, as evaluated or as not evaluated, and the winner
      totals count the batches with a resolving candidate, with an applied outcome and with any
      patch. */
  ghost predicate Totals(s: Summary, batches: seq<seq<Candidate>>) {
    && s.instances == |batches| && s.totalCandidates == Sum(batches, Sizes())
    && s.evaluated == Sum(batches, Evaluated()) && s.unevaluated == Sum(batches, Skipped())
    && s.evaluated + s.unevaluated == s.totalCandidates
    && s.resolved == s.resolvedCandidates == Sum(batches, ResolvedBatch())
    && s.applied == Sum(batches, AppliedBatch()) && s.patchGenerated == Sum(batches, PatchBatch())
    && s.appliedCandidates == Sum(batches, AppliedSeen())
  }

  /** A batch without candidates raises and ends the whole run. */
  datatype Report = Aborted | Finished(summary: Summary)

  /** What one instance adds, read off its candidates. */
  function Contribution(b: seq<Candidate>): Summary {
    Summary(1, Flag(AnyPatch(b)), Flag(AppliedOutcome(b)), Flag(AnyResolved(b)), |b|, Stop(b), |b| - Stop(b),
            Count(b[..Stop(b)], Applied()), Flag(AnyResolved(b)))
  }

  function Flag(b: bool): nat {
    if b then 1 else 0
  }

  function Plus(s: Summary, t: Summary): Summary {
    Summary(s.instances + t.instances, s.patchGenerated + t.patchGenerated, s.applied + t.applied, s.resolved + t.resolved,
            s.totalCandidates + t.totalCandidates, s.evaluated + t.evaluated, s.unevaluated + t.unevaluated,
            s.appliedCandidates + t.appliedCandidates, s.resolvedCandidates + t.resolvedCandidates)
  }

  const NOTHING := Summary(0, 0, 0, 0, 0, 0, 0, 0, 0)

  function Tally(batches: seq<seq<Candidate>>): Summary {
    if |batches| == 0 then NOTHING
    else Plus(Tally(batches[..|batches| - 1]), Contribution(batches[|batches| - 1]))
  }

  /** The tally is made of the sums it should be made of. */
  lemma {:induction false} TallyIsTotals(batches: seq<seq<Candidate>>)
    ensures Totals(Tally(batches), batches)
  {
    if |batches| > 0 {
      TallyIsTotals(batches[..|batches| - 1]);
    }
  }

  /** The row of the winner adds what the candidates say. */
  lemma WinnerContributes(w: Winner, b: seq<Candidate>)
    requires b != [] && Wins(w, b)
    ensures Contribution(b) ==
      Summary(1, Flag(w.row.patchGenerated), Flag(w.row.applied), Flag(w.row.resolved), w.candidates, w.evaluated,
              w.unevaluated, w.applied, w.resolved)
  {
    WinnerResolvesIff(w, b);
    WinnerFlags(w, b);
  }

  predicate SomeEmpty(batches: seq<seq<Candidate>>) {
    exists i :: 0 <= i < |batches| && |batches[i]| == 0
  }

  lemma TallyNext(batches: seq<seq<Candidate>>, n: nat)
    requires n < |batches|
    ensures Tally(batches[..n + 1]) == Plus(Tally(batches[..n]), Contribution(batches[n]))
  {
    assert batches[..n + 1][..n] == batches[..n];
  }

  /** All instances: the tally, or no summary when some instance has no candidates. */
  method Summarize(batches: seq<seq<Candidate>>) returns (r: Report)
    ensures r.Aborted? <==> SomeEmpty(batches)
    ensures r.Finished? ==> r.summary == Tally(batches)
  {
    var s := NOTHING;
    var i := 0;
    while i < |batches|
      invariant 0 <= i <= |batches| && s == Tally(batches[..i])
      invariant forall j :: 0 <= j < i ==> |batches[j]| > 0
    {
      var selection := SelectWinner(batches[i]);
      if selection.NoCandidates? {
        return Aborted;
      }
      var w := selection.winner;
      WinnerContributes(w, batches[i]);
      TallyNext(batches, i);
      s := Plus(s, Summary(1, Flag(w.row.patchGenerated), Flag(w.row.applied), Flag(w.row.resolved), w.candidates, w.evaluated,
                           w.unevaluated, w.applied, w.resolved));
      i := i + 1;
    }
    assert batches[..i] == batches;
    r := Finished(s);
  }
}
