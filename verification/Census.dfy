/** The tampered-fraction census and its Byzantine verdict (byzantine_census.py,
    `estimate_tampered_fraction` and `census_from_decisions`).
 */
module Census {
  import opened Binomial
  import opened ClopperPearson
  import opened Wilson

  datatype Verdict = Safe | Inconclusive | Violated

  datatype Failure = NothingScreened | CountOutOfRange | BadConfidence | BadThreshold | BadMethod | NotATamperReport

  datatype TamperCensus = TamperCensus(
    screened: nat, tampered: nat, fraction: real, interval: Interval, confidence: real,
    threshold: real, kind: string, verdict: Verdict)

  datatype Result = Estimated(census: TamperCensus) | Refused(why: Failure)

  function VerdictOf(i: Interval, threshold: real): Verdict {
    if i.high < threshold then Safe else if i.low >= threshold then Violated else Inconclusive
  }

  /** How far a verdict is from safe. */
  function Severity(v: Verdict): nat {
    match v
    case Safe => 0
    case Inconclusive => 1
    case Violated => 2
  }

  /** The quantile and the root that the Wilson method computes once the parameters pass. */
  predicate Numerics(n: int, x: int, confidence: real, threshold: real, kind: string, z: real, root: real) {
    Check(n, x, confidence, threshold, kind) == [] && kind == "wilson" ==> z > 0.0 && IsRoot(root, Radicand(n, x, z))
  }

  function IntervalFor(kind: string, n: nat, x: nat, confidence: real, z: real, root: real): Interval
    requires n > 0
  {
    if kind == "wilson" then Score(n, x, z, root) else Bounds(n, x, confidence)
  }

  function Check(n: int, x: int, confidence: real, threshold: real, kind: string): (e: seq<Failure>)
    ensures |e| <= 1
    ensures e == [] <==>
              n >= 1 && 0 <= x <= n && 0.0 < confidence < 1.0 && 0.0 < threshold < 1.0
              && (kind == "wilson" || kind == "clopper-pearson")
  {
    if n < 1 then [NothingScreened]
    else if !(0 <= x <= n) then [CountOutOfRange]
    else if !(0.0 < confidence < 1.0) then [BadConfidence]
    else if !(0.0 < threshold < 1.0) then [BadThreshold]
    else if kind != "wilson" && kind != "clopper-pearson" then [BadMethod]
    else []
  }

  /** The first check that fails is reported; otherwise the sample, its fraction, its interval,
      which is ordered and lies in [0, 1], and its verdict. */
  predicate IsEstimate(r: Result, n: int, x: int, confidence: real, threshold: real, kind: string, z: real, root: real) {
    var e := Check(n, x, confidence, threshold, kind);
    if e != [] then r == Refused(e[0])
    else
      && r.Estimated? && r.census.screened == n && r.census.tampered == x && r.census.fraction == Fraction(n, x)
      && r.census.interval == IntervalFor(kind, n, x, confidence, z, root)
      && 0.0 <= r.census.interval.low <= r.census.interval.high <= 1.0
      && r.census.verdict == VerdictOf(r.census.interval, threshold)
      && r.census.confidence == confidence && r.census.threshold == threshold && r.census.kind == kind
  }

  /** What a Wilson census says: its interval holds exactly the fractions that the score test
      accepts, and it is safe or violated exactly when all of them are below the threshold, or
      all at or above it. */
  ghost predicate WilsonMeans(c: TamperCensus, z: real) {
    && (forall p :: c.interval.low <= p <= c.interval.high <==> Accepts(c.screened, c.tampered, z, p))
    && (c.verdict == Safe <==> forall p :: Accepts(c.screened, c.tampered, z, p) ==> p < c.threshold)
    && (c.verdict == Violated <==> forall p :: Accepts(c.screened, c.tampered, z, p) ==> p >= c.threshold)
  }

  /** What an exact census says about the fraction `p`, up to the last bracket: below the
      interval, and only there, so many tampered nodes are less likely than half of what the
      confidence leaves; above it, and only there, so few are at most that likely.  A verdict
      says the same of the fractions beyond the threshold. */
  ghost predicate ExactMeansAt(c: TamperCensus, p: real) {
    var n, x, w, half := c.screened, c.tampered, Halved(1.0, STEPS + 1), (1.0 - c.confidence) / 2.0;
    && (p <= c.interval.low - w ==> 1.0 - AtMost(n, x - 1, p) < half)
    && (p >= c.interval.low + w ==> 1.0 - AtMost(n, x - 1, p) >= half)
    && (p >= c.interval.high + w ==> AtMost(n, x, p) <= half)
    && (p <= c.interval.high - w ==> AtMost(n, x, p) > half)
    && (c.verdict == Safe && p >= c.threshold + w ==> AtMost(n, x, p) <= half)
    && (c.verdict == Violated && p <= c.threshold - w ==> 1.0 - AtMost(n, x - 1, p) < half)
  }

  /** What an estimate means, whichever method gave it. */
  ghost predicate Meaningful(r: Result, z: real) {
    r.Estimated? ==>
      && r.census.screened > 0 && Times(r.census.fraction, r.census.screened as real) == r.census.tampered as real
      && (r.census.kind == "wilson" ==> WilsonMeans(r.census, z))
      && (r.census.kind == "clopper-pearson" ==> forall p :: 0.0 <= p <= 1.0 ==> ExactMeansAt(r.census, p))
  }

  lemma WilsonCensusMeans(c: TamperCensus, z: real, root: real)
    requires c.screened > 0 && c.tampered <= c.screened && z > 0.0 && IsRoot(root, Radicand(c.screened, c.tampered, z))
    requires c.interval == Score(c.screened, c.tampered, z, root) && c.verdict == VerdictOf(c.interval, c.threshold)
    ensures WilsonMeans(c, z)
  {
    var n, x, i := c.screened, c.tampered, c.interval;
    ScoreIsRegion(n, x, z, root);
    forall p: real ensures i.low <= p <= i.high <==> Accepts(n, x, z, p) {
      AcceptsIsRegion(n, x, z, p);
    }
    assert Accepts(n, x, z, i.low) && Accepts(n, x, z, i.high);
  }

  lemma ExactCensusMeans(c: TamperCensus, p: real)
    requires c.tampered <= c.screened && 0.0 < c.confidence < 1.0 && 0.0 <= p <= 1.0
    requires c.interval == Bounds(c.screened, c.tampered, c.confidence) && c.verdict == VerdictOf(c.interval, c.threshold)
    ensures ExactMeansAt(c, p)
  {
    BoundsAreExact(c.screened, c.tampered, c.confidence, p);
    ClopperPearsonVerdictMeaning(c.screened, c.tampered, c.confidence, c.threshold, p);
  }

  lemma EstimateMeans(r: Result, n: int, x: int, confidence: real, threshold: real, kind: string, z: real, root: real)
    requires Numerics(n, x, confidence, threshold, kind, z, root) && IsEstimate(r, n, x, confidence, threshold, kind, z, root)
    ensures Meaningful(r, z)
  {
    if r.Estimated? {
      QuotBack(x as real, n as real);
      if kind == "wilson" {
        WilsonCensusMeans(r.census, z, root);
      } else {
        forall p | 0.0 <= p <= 1.0 ensures ExactMeansAt(r.census, p) {
          ExactCensusMeans(r.census, p);
        }
      }
    }
  }

  method Estimate(n: int, x: int, confidence: real, threshold: real, kind: string, z: real, root: real) returns (r: Result)
    requires Numerics(n, x, confidence, threshold, kind, z, root)
    ensures IsEstimate(r, n, x, confidence, threshold, kind, z, root) && Meaningful(r, z)
  {
    if n < 1 {
      return Refused(NothingScreened);
    }
    if !(0 <= x <= n) {
      return Refused(CountOutOfRange);
    }
    if !(0.0 < confidence < 1.0) {
      return Refused(BadConfidence);
    }
    if !(0.0 < threshold < 1.0) {
      return Refused(BadThreshold);
    }
    if kind != "wilson" && kind != "clopper-pearson" {
      return Refused(BadMethod);
    }
    var i: Interval;
    if kind == "wilson" {
      ScoreIsRegion(n, x, z, root);
      i := Score(n, x, z, root);
    } else {
      IntervalIsOrdered(n, x, confidence);
      i := ClopperPearsonInterval(n, x, confidence);
    }
    r := Estimated(TamperCensus(n, x, Fraction(n, x), i, confidence, threshold, kind, VerdictOf(i, threshold)));
    EstimateMeans(r, n, x, confidence, threshold, kind, z, root);
  }

  // ------------------------------------------------------------------- verdicts

  /** For either method, one more tampered node in the same sample never moves the verdict
      toward safe. */
  lemma VerdictNeverImproves(n: nat, x: nat, confidence: real, threshold: real, kind: string, z: real, root: real, root': real)
    requires n > 0 && x < n && 0.0 < confidence < 1.0
    requires kind == "wilson" ==> z > 0.0 && IsRoot(root, Radicand(n, x, z)) && IsRoot(root', Radicand(n, x + 1, z))
    ensures
      Severity(VerdictOf(IntervalFor(kind, n, x, confidence, z, root), threshold)) <=
      Severity(VerdictOf(IntervalFor(kind, n, x + 1, confidence, z, root'), threshold))
  {
    if kind == "wilson" {
      ScoreIsRegion(n, x, z, root);
      ScoreIsRegion(n, x + 1, z, root');
      ScoreGrowsWithCount(n, x, z, root, root');
    } else {
      IntervalIsOrdered(n, x, confidence);
      IntervalIsOrdered(n, x + 1, confidence);
      BoundsGrowWithCount(n, x, confidence);
    }
  }

  /** What the Wilson verdicts mean: safe when every fraction the score test accepts is below
      the threshold, violated when every one is at or above it. */
  lemma WilsonVerdictMeaning(n: nat, x: nat, z: real, root: real, threshold: real)
    requires n > 0 && x <= n && z > 0.0 && IsRoot(root, Radicand(n, x, z))
    ensures VerdictOf(Score(n, x, z, root), threshold) == Safe <==> (forall p :: InRegion(n, x, z, p) ==> p < threshold)
    ensures VerdictOf(Score(n, x, z, root), threshold) == Violated <==> (forall p :: InRegion(n, x, z, p) ==> p >= threshold)
  {
    ScoreIsRegion(n, x, z, root);
    var i := Score(n, x, z, root);
    assert InRegion(n, x, z, i.low) && InRegion(n, x, z, i.high);
  }

  /** What a safe or violated Clopper-Pearson verdict rules out, up to the last bracket. */
  lemma ClopperPearsonVerdictMeaning(n: nat, x: nat, confidence: real, threshold: real, p: real)
    requires x <= n && 0.0 < confidence < 1.0 && 0.0 <= p <= 1.0
    ensures
      var v, w := VerdictOf(Bounds(n, x, confidence), threshold), Halved(1.0, STEPS + 1);
      && (v == Safe && p >= threshold + w ==> AtMost(n, x, p) <= (1.0 - confidence) / 2.0)
      && (v == Violated && p <= threshold - w ==> 1.0 - AtMost(n, x - 1, p) < (1.0 - confidence) / 2.0)
  {
    BoundsAreExact(n, x, confidence, p);
    IntervalIsOrdered(n, x, confidence);
  }

  /** The counts on which the exact method gives this verdict. */
  function Gives(n: nat, confidence: real, threshold: real, v: Verdict): nat -> bool {
    (x: nat) => x <= n && VerdictOf(Bounds(n, x, confidence), threshold) == v
  }

  /** A wrong verdict of the exact method is rare.  With a true fraction at or above the threshold,
      beyond the slack, safe is reported with probability at most half of what the confidence
      leaves; with one at or below it, so is violated. */
  lemma WrongVerdictsAreRare(n: nat, confidence: real, threshold: real, p: real)
    requires 0.0 < confidence < 1.0 && 0.0 <= p <= 1.0
    ensures p >= threshold + SLACK ==> Mass(n, n, p, Gives(n, confidence, threshold, Safe)) <= (1.0 - confidence) / 2.0
    ensures p <= threshold - SLACK ==> Mass(n, n, p, Gives(n, confidence, threshold, Violated)) <= (1.0 - confidence) / 2.0
  {
    if p >= threshold + SLACK {
      TooHighIsRare(n, n, confidence, p, Gives(n, confidence, threshold, Safe));
    }
    if p <= threshold - SLACK {
      forall x: nat | x <= n && Gives(n, confidence, threshold, Violated)(x) ensures TooLow(n, confidence, p)(x) {
        IntervalIsOrdered(n, x, confidence);
      }
      TooLowIsRare(n, 0, confidence, p, Gives(n, confidence, threshold, Violated));
    }
  }

  // -------------------------------------------------------------- from decisions

  datatype Report = Abliteration(abliterated: bool) | Distribution(fragile: bool)

  /** One admission decision: its reports by agent, in dictionary order. */
  type Decision = seq<(string, Report)>

  function Flatten(decisions: seq<Decision>): seq<(string, Report)> {
    if decisions == [] then [] else Flatten(decisions[..|decisions| - 1]) + decisions[|decisions| - 1]
  }

  predicate IsLast(reports: seq<(string, Report)>, i: nat)
    requires i < |reports|
  {
    forall j :: i < j < |reports| ==> reports[j].0 != reports[i].0
  }

  ghost function Agents(reports: seq<(string, Report)>): set<string> {
    set i | 0 <= i < |reports| :: reports[i].0
  }

  /** Agents whose last report says abliterated. */
  ghost function Tampered(reports: seq<(string, Report)>): set<string> {
    set i | 0 <= i < |reports| && IsLast(reports, i) && reports[i].1 == Abliteration(true) :: reports[i].0
  }

  ghost predicate AllTamperReports(reports: seq<(string, Report)>) {
    forall i :: 0 <= i < |reports| ==> reports[i].1.Abliteration?
  }

  /** The dictionary holds each agent's last verdict. */
  ghost predicate Pooled(m: map<string, bool>, reports: seq<(string, Report)>) {
    && m.Keys == Agents(reports)
    && (forall i :: 0 <= i < |reports| && IsLast(reports, i) ==> reports[i].0 in m && reports[i].1 == Abliteration(m[reports[i].0]))
  }

  lemma PoolOne(m: map<string, bool>, reports: seq<(string, Report)>, agent: string, bad: bool)
    requires Pooled(m, reports)
    ensures Pooled(m[agent := bad], reports + [(agent, Abliteration(bad))])
  {
    var more := reports + [(agent, Abliteration(bad))];
    var m' := m[agent := bad];
    assert forall i :: 0 <= i < |reports| ==> more[i] == reports[i];
    assert more[|reports|].0 == agent;
    forall a ensures a in Agents(more) <==> a in Agents(reports) || a == agent {
      if a in Agents(reports) {
        var i :| 0 <= i < |reports| && reports[i].0 == a;
        assert more[i].0 == a;
      }
    }
    forall i | 0 <= i < |more| && IsLast(more, i) ensures more[i].1 == Abliteration(m'[more[i].0]) {
      if i < |reports| {
        assert more[|reports|].0 != more[i].0;
        assert IsLast(reports, i);
      }
    }
  }

  /** Every reported agent has a last report. */
  lemma {:induction false} HasLast(reports: seq<(string, Report)>, agent: string, i: nat) returns (last: nat)
    requires i < |reports| && reports[i].0 == agent
    ensures last < |reports| && reports[last].0 == agent && IsLast(reports, last)
    decreases |reports| - i
  {
    if IsLast(reports, i) {
      last := i;
    } else {
      var j :| i < j < |reports| && reports[j].0 == reports[i].0;
      last := HasLast(reports, agent, j);
    }
  }

  lemma PooledCounts(m: map<string, bool>, reports: seq<(string, Report)>)
    requires Pooled(m, reports)
    ensures |m| == |Agents(reports)|
    ensures (set a | a in m && m[a]) == Tampered(reports)
  {
    assert |m| == |m.Keys|;
    forall a ensures a in (set b | b in m && m[b]) <==> a in Tampered(reports) {
      if a in m && m[a] {
        var i :| 0 <= i < |reports| && reports[i].0 == a;
        var last := HasLast(reports, a, i);
        assert reports[last].1 == Abliteration(true);
      }
    }
  }

  /** Deduplicated by agent with the last verdict winning; a trust report anywhere is refused. */
  method Pool(decisions: seq<Decision>) returns (ok: bool, pooled: map<string, bool>)
    ensures ok <==> AllTamperReports(Flatten(decisions))
    ensures ok ==> |pooled| == |Agents(Flatten(decisions))|
    ensures ok ==> (set a | a in pooled && pooled[a]) == Tampered(Flatten(decisions))
  {
    pooled := map[];
    ghost var seen: seq<(string, Report)> := [];
    for d := 0 to |decisions|
      invariant seen == Flatten(decisions[..d])
      invariant AllTamperReports(seen) && Pooled(pooled, seen)
    {
      var reports := decisions[d];
      ghost var before := seen;
      assert decisions[..d + 1][..d] == decisions[..d];
      assert Flatten(decisions[..d + 1]) == before + reports;
      for i := 0 to |reports|
        invariant seen == before + reports[..i]
        invariant AllTamperReports(seen) && Pooled(pooled, seen)
      {
        var (agent, report) := reports[i];
        if report.Distribution? {
          assert (before + reports)[|before| + i] == reports[i];
          PrefixBad(decisions, d + 1);
          return false, map[];
        }
        PoolOne(pooled, seen, agent, report.abliterated);
        pooled := pooled[agent := report.abliterated];
        seen := seen + [(agent, report)];
        assert reports[..i + 1] == reports[..i] + [reports[i]];
      }
      assert reports[..|reports|] == reports;
    }
    assert decisions[..|decisions|] == decisions;
    PooledCounts(pooled, seen);
    ok := true;
  }

  lemma {:induction false} PrefixBad(decisions: seq<Decision>, d: nat)
    requires d <= |decisions| && !AllTamperReports(Flatten(decisions[..d]))
    ensures !AllTamperReports(Flatten(decisions))
    decreases |decisions| - d
  {
    if d == |decisions| {
      assert decisions[..d] == decisions;
    } else {
      assert decisions[..d + 1][..d] == decisions[..d];
      var shorter, longer := Flatten(decisions[..d]), Flatten(decisions[..d + 1]);
      assert longer == shorter + decisions[d];
      var i :| 0 <= i < |shorter| && !shorter[i].1.Abliteration?;
      assert longer[i] == shorter[i];
      PrefixBad(decisions, d + 1);
    }
  }

  lemma TamperedAreAgents(reports: seq<(string, Report)>)
    ensures Tampered(reports) <= Agents(reports) && |Tampered(reports)| <= |Agents(reports)|
  {
    SubsetSize(Tampered(reports), Agents(reports));
  }

  lemma {:induction false} SubsetSize(a: set<string>, b: set<string>)
    requires a <= b
    ensures |a| <= |b|
  {
    if a != {} {
      var x :| x in a;
      SubsetSize(a - {x}, b - {x});
    }
  }

  /** A node screened in several rounds counts once, with its last verdict. */
  method FromDecisions(decisions: seq<Decision>, confidence: real, threshold: real, kind: string, z: real, root: real)
    returns (r: Result)
    requires var all := Flatten(decisions); Numerics(|Agents(all)|, |Tampered(all)|, confidence, threshold, kind, z, root)
    ensures
      var all := Flatten(decisions);
      if !AllTamperReports(all) then r == Refused(NotATamperReport)
      else IsEstimate(r, |Agents(all)|, |Tampered(all)|, confidence, threshold, kind, z, root) && Meaningful(r, z)
  {
    var ok, pooled := Pool(decisions);
    if !ok {
      return Refused(NotATamperReport);
    }
    TamperedAreAgents(Flatten(decisions));
    if |pooled| == 0 {
      return Refused(NothingScreened);
    }
    var tampered := set a | a in pooled && pooled[a];
    r := Estimate(|pooled|, |tampered|, confidence, threshold, kind, z, root);
  }
}
