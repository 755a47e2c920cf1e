/** Clopper-Pearson bounds by bisection over exact reals (byzantine_census.py, `_bisect` and
    `_clopper_pearson_interval`).
 */
module ClopperPearson {
  import opened Binomial

  datatype Interval = Interval(low: real, high: real)

  const STEPS := 100

  /** One tail equation: P(X >= x | p) = alpha, or P(X <= x | p) = alpha. */
  datatype Tail = Tail(lower: bool, n: nat, x: int, alpha: real)

  /** The bisection moves up at `p`. */
  predicate Up(t: Tail, p: real) {
    if t.lower then (1.0 - AtMost(t.n, t.x - 1, Clamp(p))) - t.alpha < 0.0
    else AtMost(t.n, t.x, Clamp(p)) - t.alpha > 0.0
  }

  function Bisect(t: Tail, lo: real, hi: real, steps: nat): real
    decreases steps
  {
    var mid := 0.5 * (lo + hi);
    if steps == 0 then mid
    else if Up(t, mid) then Bisect(t, mid, hi, steps - 1)
    else Bisect(t, lo, mid, steps - 1)
  }

  method BisectBound(lowerBranch: bool, n: nat, x: int, alpha: real) returns (r: real)
    ensures r == Bisect(Tail(lowerBranch, n, x, alpha), 0.0, 1.0, STEPS)
  {
    ghost var t := Tail(lowerBranch, n, x, alpha);
    var lo, hi := 0.0, 1.0;
    for i := 0 to STEPS
      invariant Bisect(t, lo, hi, STEPS - i) == Bisect(t, 0.0, 1.0, STEPS)
    {
      var mid := 0.5 * (lo + hi);
      if lowerBranch {
        var below := BinomCdf(n, x - 1, mid);
        var value := (1.0 - below) - alpha;
        if value < 0.0 {
          lo := mid;
        } else {
          hi := mid;
        }
      } else {
        var below := BinomCdf(n, x, mid);
        var value := below - alpha;
        if value > 0.0 {
          lo := mid;
        } else {
          hi := mid;
        }
      }
    }
    r := 0.5 * (lo + hi);
  }

  function Bounds(n: nat, x: int, confidence: real): Interval {
    var alpha := 1.0 - confidence;
    Interval(
      if x == 0 then 0.0 else Bisect(Tail(true, n, x, alpha / 2.0), 0.0, 1.0, STEPS),
      if x == n then 1.0 else Bisect(Tail(false, n, x, alpha / 2.0), 0.0, 1.0, STEPS))
  }

  method ClopperPearsonInterval(n: nat, x: int, confidence: real) returns (r: Interval)
    ensures r == Bounds(n, x, confidence)
  {
    var alpha := 1.0 - confidence;
    var lo, hi := 0.0, 1.0;
    if x != 0 {
      lo := BisectBound(true, n, x, alpha / 2.0);
    }
    if x != n {
      hi := BisectBound(false, n, x, alpha / 2.0);
    }
    r := Interval(lo, hi);
  }

  // ------------------------------------------------- two bisections side by side

  lemma {:induction false} StaysInBracket(t: Tail, lo: real, hi: real, steps: nat)
    requires lo <= hi
    ensures lo <= Bisect(t, lo, hi, steps) <= hi
    decreases steps
  {
    if steps > 0 {
      var mid := 0.5 * (lo + hi);
      if Up(t, mid) {
        StaysInBracket(t, mid, hi, steps - 1);
      } else {
        StaysInBracket(t, lo, mid, steps - 1);
      }
    }
  }

  /** Wherever the first bisection moves up, so does the second. */
  ghost predicate Follows(t: Tail, u: Tail) {
    forall p: real :: Up(t, p) ==> Up(u, p)
  }

  /** The bracket after so many steps. */
  function Bracket(t: Tail, lo: real, hi: real, steps: nat): (real, real)
    decreases steps
  {
    var mid := 0.5 * (lo + hi);
    if steps == 0 then (lo, hi)
    else if Up(t, mid) then Bracket(t, mid, hi, steps - 1)
    else Bracket(t, lo, mid, steps - 1)
  }

  lemma {:induction false} BracketHolds(t: Tail, lo: real, hi: real, steps: nat)
    requires lo <= hi
    ensures
      var b := Bracket(t, lo, hi, steps);
      lo <= b.0 <= b.1 <= hi && Bisect(t, lo, hi, steps) == 0.5 * (b.0 + b.1)
    decreases steps
  {
    if steps > 0 {
      var mid := 0.5 * (lo + hi);
      if Up(t, mid) {
        BracketHolds(t, mid, hi, steps - 1);
      } else {
        BracketHolds(t, lo, mid, steps - 1);
      }
    }
  }

  /** After every number of steps the brackets of two independent bisections are the same, or
      the first lies below the second. */
  lemma {:induction false} BracketsNeverCross(t: Tail, u: Tail, lo: real, hi: real, steps: nat)
    requires Follows(t, u) && lo <= hi
    ensures
      var b, c := Bracket(t, lo, hi, steps), Bracket(u, lo, hi, steps);
      b == c || b.1 <= c.0
    decreases steps
  {
    if steps > 0 {
      var mid := 0.5 * (lo + hi);
      if Up(t, mid) {
        BracketsNeverCross(t, u, mid, hi, steps - 1);
      } else if Up(u, mid) {
        BracketHolds(t, lo, mid, steps - 1);
        BracketHolds(u, mid, hi, steps - 1);
      } else {
        BracketsNeverCross(t, u, lo, mid, steps - 1);
      }
    }
  }

  /** Two independent bisections keep the same bracket until they part, and then their brackets
      are ordered for good; so are the bounds they return. */
  lemma BisectionsNeverCross(t: Tail, u: Tail, lo: real, hi: real, steps: nat)
    requires Follows(t, u) && lo <= hi
    ensures
      forall k: nat :: k <= steps ==>
        var b, c := Bracket(t, lo, hi, k), Bracket(u, lo, hi, k);
        b == c || b.1 <= c.0
    ensures Bisect(t, lo, hi, steps) <= Bisect(u, lo, hi, steps)
  {
    forall k: nat | k <= steps
      ensures
        var b, c := Bracket(t, lo, hi, k), Bracket(u, lo, hi, k);
        b == c || b.1 <= c.0
    {
      BracketsNeverCross(t, u, lo, hi, k);
    }
    BracketHolds(t, lo, hi, steps);
    BracketHolds(u, lo, hi, steps);
  }

  lemma LowerFollowsUpper(n: nat, x: int, alpha: real)
    requires alpha <= 0.5
    ensures Follows(Tail(true, n, x, alpha), Tail(false, n, x, alpha))
  {
    forall p: real | Up(Tail(true, n, x, alpha), p) ensures Up(Tail(false, n, x, alpha), p) {
      AtMostGrows(n, x - 1, Clamp(p));
    }
  }

  lemma FollowsNextCount(lower: bool, n: nat, x: int, alpha: real)
    ensures Follows(Tail(lower, n, x, alpha), Tail(lower, n, x + 1, alpha))
  {
    forall p: real | Up(Tail(lower, n, x, alpha), p) ensures Up(Tail(lower, n, x + 1, alpha), p) {
      AtMostGrows(n, x - 1, Clamp(p));
      AtMostGrows(n, x, Clamp(p));
    }
  }

  // ------------------------------------------------------------------ theorems

  /** The interval is ordered and lies in [0, 1], for every sample and confidence. */
  lemma IntervalIsOrdered(n: nat, x: int, confidence: real)
    requires 0.0 < confidence < 1.0
    ensures 0.0 <= Bounds(n, x, confidence).low <= Bounds(n, x, confidence).high <= 1.0
  {
    var half := (1.0 - confidence) / 2.0;
    StaysInBracket(Tail(true, n, x, half), 0.0, 1.0, STEPS);
    StaysInBracket(Tail(false, n, x, half), 0.0, 1.0, STEPS);
    LowerFollowsUpper(n, x, half);
    BisectionsNeverCross(Tail(true, n, x, half), Tail(false, n, x, half), 0.0, 1.0, STEPS);
  }

  /** One more tampered node in the same sample lowers neither bound. */
  lemma BoundsGrowWithCount(n: nat, x: int, confidence: real)
    requires 0 <= x < n && 0.0 < confidence < 1.0
    ensures Bounds(n, x, confidence).low <= Bounds(n, x + 1, confidence).low
    ensures Bounds(n, x, confidence).high <= Bounds(n, x + 1, confidence).high
  {
    var half := (1.0 - confidence) / 2.0;
    IntervalIsOrdered(n, x, confidence);
    IntervalIsOrdered(n, x + 1, confidence);
    FollowsNextCount(true, n, x, half);
    FollowsNextCount(false, n, x, half);
    BisectionsNeverCross(Tail(true, n, x, half), Tail(true, n, x + 1, half), 0.0, 1.0, STEPS);
    BisectionsNeverCross(Tail(false, n, x, half), Tail(false, n, x + 1, half), 0.0, 1.0, STEPS);
  }

  /** More confidence, wider interval. */
  lemma IntervalsNest(n: nat, x: int, confidence: real, confidence': real)
    requires 0.0 < confidence <= confidence' < 1.0
    ensures Bounds(n, x, confidence').low <= Bounds(n, x, confidence).low
    ensures Bounds(n, x, confidence).high <= Bounds(n, x, confidence').high
  {
    var half, half' := (1.0 - confidence) / 2.0, (1.0 - confidence') / 2.0;
    assert Follows(Tail(true, n, x, half'), Tail(true, n, x, half));
    assert Follows(Tail(false, n, x, half), Tail(false, n, x, half'));
    BisectionsNeverCross(Tail(true, n, x, half'), Tail(true, n, x, half), 0.0, 1.0, STEPS);
    BisectionsNeverCross(Tail(false, n, x, half), Tail(false, n, x, half'), 0.0, 1.0, STEPS);
  }

  // ------------------------------------------------------------------ exactness

  function Halved(width: real, steps: nat): real
    decreases steps
  {
    if steps == 0 then width else Halved(width / 2.0, steps - 1)
  }

  lemma UpIsDownwardClosed(t: Tail, p: real, q: real)
    requires 0.0 <= p <= q <= 1.0 && Up(t, q)
    ensures Up(t, p)
  {
    AtMostShrinks(t.n, t.x - 1, p, q);
    AtMostShrinks(t.n, t.x, p, q);
  }

  /** The bisection tells the two sides of the tail equation apart to within half of its last
      bracket. */
  lemma {:induction false} BisectFindsCrossing(t: Tail, lo: real, hi: real, steps: nat)
    requires 0.0 <= lo <= hi <= 1.0 && Up(t, lo) && !Up(t, hi)
    ensures
      var r, w := Bisect(t, lo, hi, steps), Halved(hi - lo, steps + 1);
      && (forall p :: 0.0 <= p <= r - w ==> Up(t, p))
      && (forall p :: r + w <= p <= 1.0 ==> !Up(t, p))
    decreases steps
  {
    var mid := 0.5 * (lo + hi);
    if steps == 0 {
      assert Halved(hi - lo, 1) == Halved((hi - lo) / 2.0, 0) == (hi - lo) / 2.0;
      forall p | 0.0 <= p <= lo ensures Up(t, p) {
        UpIsDownwardClosed(t, p, lo);
      }
      forall p | hi <= p <= 1.0 ensures !Up(t, p) {
        if Up(t, p) {
          UpIsDownwardClosed(t, hi, p);
        }
      }
    } else {
      assert Halved(hi - lo, steps + 1) == Halved((hi - lo) / 2.0, steps);
      if Up(t, mid) {
        assert hi - mid == (hi - lo) / 2.0;
        BisectFindsCrossing(t, mid, hi, steps - 1);
      } else {
        assert mid - lo == (hi - lo) / 2.0;
        BisectFindsCrossing(t, lo, mid, steps - 1);
      }
    }
  }

  /** The tails that make the interval exact: below the lower bound a sample with this many
      tampered nodes is too unlikely, above the upper bound so is one with this few; between the
      bounds neither is.  Each statement holds up to 2^-101, half of the last bracket. */
  lemma BoundsAreExact(n: nat, x: int, confidence: real, p: real)
    requires 0 <= x <= n && 0.0 < confidence < 1.0 && 0.0 <= p <= 1.0
    ensures
      var i, w, half := Bounds(n, x, confidence), Halved(1.0, STEPS + 1), (1.0 - confidence) / 2.0;
      && (p <= i.low - w ==> 1.0 - AtMost(n, x - 1, p) < half)
      && (p >= i.low + w ==> 1.0 - AtMost(n, x - 1, p) >= half)
      && (p >= i.high + w ==> AtMost(n, x, p) <= half)
      && (p <= i.high - w ==> AtMost(n, x, p) > half)
  {
    var half := (1.0 - confidence) / 2.0;
    AtMostCertain(n, x);
    AtMostCertain(n, x - 1);
    HalvedPositive(1.0, STEPS + 1);
    if x > 0 {
      BisectFindsCrossing(Tail(true, n, x, half), 0.0, 1.0, STEPS);
      assert Up(Tail(true, n, x, half), p) <==> 1.0 - AtMost(n, x - 1, p) < half;
    }
    if x < n {
      BisectFindsCrossing(Tail(false, n, x, half), 0.0, 1.0, STEPS);
      assert Up(Tail(false, n, x, half), p) <==> AtMost(n, x, p) > half;
    } else {
      AtMostAll(n, x, p);
    }
  }

  lemma {:induction false} HalvedPositive(width: real, steps: nat)
    requires width > 0.0
    ensures Halved(width, steps) > 0.0
    decreases steps
  {
    if steps > 0 {
      HalvedPositive(width / 2.0, steps - 1);
    }
  }

  // ------------------------------------------------------------------- coverage

  /** The probability that the number of tampered nodes, at most `k`, is one of the selected. */
  function Mass(n: nat, k: int, p: real, chosen: nat -> bool): real
    decreases k
  {
    if k < 0 then 0.0 else Mass(n, k - 1, p, chosen) + if chosen(k) then Pmf(n, k, p) else 0.0
  }

  lemma {:induction false} PowNonNegative(p: real, k: nat)
    requires p >= 0.0
    ensures Pow(p, k) >= 0.0
  {
    if k > 0 {
      PowNonNegative(p, k - 1);
      TimesNonNegative(p, Pow(p, k - 1));
    }
  }

  lemma TermNonNegative(c: real, u: real, v: real)
    requires c >= 0.0 && u >= 0.0 && v >= 0.0
    ensures Term(c, u, v) >= 0.0
  {
    assert c * u >= 0.0;
  }

  lemma PmfNonNegative(n: nat, k: nat, p: real)
    requires 0.0 <= p <= 1.0
    ensures Pmf(n, k, p) >= 0.0
  {
    if k <= n {
      PowNonNegative(p, k);
      PowNonNegative(1.0 - p, n - k);
      TermNonNegative(Choose(n, k) as real, Pow(p, k), Pow(1.0 - p, n - k));
    }
  }

  lemma AtMostStep(n: nat, k: nat, p: real)
    ensures AtMost(n, k, p) == AtMost(n, k - 1, p) + Pmf(n, k, p)
  {
    SumIsAtMost(n, k, p);
    SumIsAtMost(n, k - 1, p);
  }

  /** Counts from `b` on weigh no more than all of them together. */
  lemma {:induction false} MassFrom(n: nat, b: nat, k: int, p: real, chosen: nat -> bool)
    requires 0.0 <= p <= 1.0 && k >= b - 1 && forall x: nat :: x < b ==> !chosen(x)
    ensures 0.0 <= Mass(n, k, p, chosen) <= AtMost(n, k, p) - AtMost(n, b - 1, p)
    decreases k
  {
    if k >= b {
      MassFrom(n, b, k - 1, p, chosen);
      AtMostStep(n, k, p);
      PmfNonNegative(n, k, p);
    } else {
      NoMass(n, k, p, chosen);
    }
  }

  lemma {:induction false} NoMass(n: nat, k: int, p: real, chosen: nat -> bool)
    requires forall x: nat :: x <= k ==> !chosen(x)
    ensures Mass(n, k, p, chosen) == 0.0
    decreases k
  {
    if k >= 0 {
      NoMass(n, k - 1, p, chosen);
    }
  }

  lemma {:induction false} MassComplement(n: nat, k: int, p: real, chosen: nat -> bool, others: nat -> bool)
    requires k >= -1 && forall x: nat :: x <= k ==> chosen(x) != others(x)
    ensures Mass(n, k, p, chosen) + Mass(n, k, p, others) == AtMost(n, k, p)
    decreases k
  {
    if k >= 0 {
      MassComplement(n, k - 1, p, chosen, others);
      AtMostStep(n, k, p);
    }
  }

  lemma {:induction false} MassUnion(n: nat, k: int, p: real, both: nat -> bool, a: nat -> bool, b: nat -> bool)
    requires 0.0 <= p <= 1.0 && forall x: nat :: x <= k && both(x) ==> a(x) || b(x)
    ensures Mass(n, k, p, both) <= Mass(n, k, p, a) + Mass(n, k, p, b)
    decreases k
  {
    if k >= 0 {
      MassUnion(n, k - 1, p, both, a, b);
      PmfNonNegative(n, k, p);
    }
  }

  /** Half of the last bracket, 2^-101. */
  const SLACK := Halved(1.0, STEPS + 1)

  /** The fraction lies at or above the upper bound that the count gives, and beyond the slack. */
  function TooHigh(n: nat, confidence: real, p: real): nat -> bool {
    (x: nat) => x <= n && p >= Bounds(n, x, confidence).high + SLACK
  }

  function TooLow(n: nat, confidence: real, p: real): nat -> bool {
    (x: nat) => x <= n && p <= Bounds(n, x, confidence).low - SLACK
  }

  /** Counts whose interval lies below the fraction are rare: at most half of what is left. */
  lemma {:induction false} TooHighIsRare(n: nat, k: int, confidence: real, p: real, chosen: nat -> bool)
    requires 0.0 < confidence < 1.0 && 0.0 <= p <= 1.0 && k <= n
    requires forall x: nat :: x <= n && chosen(x) ==> TooHigh(n, confidence, p)(x)
    ensures Mass(n, k, p, chosen) <= (1.0 - confidence) / 2.0
    decreases k
  {
    if k >= 0 {
      if chosen(k) {
        MassFrom(n, 0, k, p, chosen);
        BoundsAreExact(n, k, confidence, p);
      } else {
        TooHighIsRare(n, k - 1, confidence, p, chosen);
      }
    }
  }

  /** Counts whose interval lies above the fraction are rare as well.  Nothing below `b` is one. */
  lemma {:induction false} TooLowIsRare(n: nat, b: nat, confidence: real, p: real, chosen: nat -> bool)
    requires 0.0 < confidence < 1.0 && 0.0 <= p <= 1.0 && b <= n + 1
    requires forall x: nat :: x <= n && chosen(x) ==> TooLow(n, confidence, p)(x)
    requires forall x: nat :: x < b ==> !chosen(x)
    ensures Mass(n, n, p, chosen) <= (1.0 - confidence) / 2.0
    decreases n + 1 - b
  {
    if b == n + 1 {
      NoMass(n, n, p, chosen);
    } else if chosen(b) {
      MassFrom(n, b, n, p, chosen);
      AtMostAll(n, n, p);
      BoundsAreExact(n, b, confidence, p);
    } else {
      TooLowIsRare(n, b + 1, confidence, p, chosen);
    }
  }

  /** The interval of the count, widened by the slack, contains the fraction. */
  function Covers(n: nat, confidence: real, p: real): nat -> bool {
    (x: nat) => x <= n && Bounds(n, x, confidence).low - SLACK < p < Bounds(n, x, confidence).high + SLACK
  }

  /** Coverage, the guarantee the method is named exact for: whatever the true fraction is, the
      interval computed from the sample contains it with at least the stated confidence. */
  lemma CoverageHolds(n: nat, confidence: real, p: real)
    requires 0.0 < confidence < 1.0 && 0.0 <= p <= 1.0
    ensures Mass(n, n, p, Covers(n, confidence, p)) >= confidence
  {
    var covered, high, low := Covers(n, confidence, p), TooHigh(n, confidence, p), TooLow(n, confidence, p);
    var missed := (x: nat) => !covered(x);
    MassComplement(n, n, p, covered, missed);
    AtMostAll(n, n, p);
    MassUnion(n, n, p, missed, high, low);
    TooHighIsRare(n, n, confidence, p, high);
    TooLowIsRare(n, 0, confidence, p, low);
  }
}
