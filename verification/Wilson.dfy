/** The Wilson score interval over exact reals (byzantine_census.py, `_wilson_interval`).  The
    normal quantile `z` and the square root are inputs; the root is any non-negative real whose
    square is the radicand.
 */
module Wilson {
  import opened Binomial
  import opened ClopperPearson

  function Sq(a: real): real { a * a }

  function Quot(a: real, d: real): real
    requires d != 0.0
  {
    a / d
  }

  function Fraction(n: nat, x: nat): real
    requires n > 0
  {
    Quot(x as real, n as real)
  }

  predicate IsRoot(root: real, v: real) {
    root >= 0.0 && Sq(root) == v
  }

  lemma SqPositive(a: real)
    ensures Sq(a) >= 0.0
    ensures a > 0.0 ==> Sq(a) > 0.0
  {
    assert Sq(a) == Times(a, a);
    if a > 0.0 {
      TimesPositive(a, a);
    }
  }

  lemma QuotNonNegative(a: real, d: real)
    requires a >= 0.0 && d > 0.0
    ensures Quot(a, d) >= 0.0
  {
  }

  function Radicand(n: nat, x: nat, z: real): real
    requires n > 0
  {
    var N, f := n as real, Fraction(n, x);
    SqPositive(N);
    Quot(Times(f, 1.0 - f), N) + Quot(Sq(z), 4.0 * Sq(N))
  }

  function Denominator(n: nat, z: real): (d: real)
    requires n > 0
    ensures d >= 1.0
  {
    SqPositive(z);
    QuotNonNegative(Sq(z), n as real);
    1.0 + Quot(Sq(z), n as real)
  }

  function Center(n: nat, x: nat, z: real): real
    requires n > 0
  {
    Quot(Fraction(n, x) + Quot(Sq(z), 2.0 * n as real), Denominator(n, z))
  }

  function HalfWidth(n: nat, z: real, root: real): real
    requires n > 0
  {
    Times(Quot(z, Denominator(n, z)), root)
  }

  /** With the clamps the code applies. */
  function Score(n: nat, x: nat, z: real, root: real): Interval
    requires n > 0
  {
    var low, high := Center(n, x, z) - HalfWidth(n, z, root), Center(n, x, z) + HalfWidth(n, z, root);
    Interval(if low < 0.0 then 0.0 else low, if high > 1.0 then 1.0 else high)
  }

  /** The score test at level `z` does not reject `p`. */
  predicate InRegion(n: nat, x: nat, z: real, p: real)
    requires n > 0
  {
    Times(n as real, Sq(Fraction(n, x) - p)) <= Times(Sq(z), Times(p, 1.0 - p))
  }

  // -------------------------------------------------------------------- algebra

  lemma TimesPositive(a: real, b: real)
    requires a > 0.0 && b > 0.0
    ensures Times(a, b) > 0.0
  {
  }

  lemma TimesOrder(c: real, a: real, b: real)
    requires a <= b && c >= 0.0
    ensures Times(c, a) <= Times(c, b)
    ensures Times(a, c) <= Times(b, c)
  {
    TimesNonNegative(c, b - a);
    assert Times(c, b - a) == Times(c, b) - Times(c, a);
  }

  lemma SqOrder(a: real, b: real)
    requires 0.0 <= a <= b
    ensures Sq(a) <= Sq(b)
    ensures a < b ==> Sq(a) < Sq(b)
  {
    TimesNonNegative(b - a, b + a);
    assert Times(b - a, b + a) == Sq(b) - Sq(a);
    if a < b {
      TimesPositive(b - a, b + a);
    }
  }

  lemma SqWithin(u: real, H: real)
    requires H >= 0.0
    ensures Sq(u) <= Sq(H) <==> -H <= u <= H
  {
    var v := if u >= 0.0 then u else -u;
    assert Sq(u) == Sq(v);
    if v <= H {
      SqOrder(v, H);
    } else {
      SqOrder(H, v);
    }
  }

  lemma QuotBack(a: real, d: real)
    requires d > 0.0
    ensures Times(Quot(a, d), d) == a
  {
  }

  lemma QuotIs(q: real, d: real, a: real)
    requires d > 0.0 && Times(q, d) == a
    ensures Quot(a, d) == q
  {
  }

  lemma QuotOrder(a: real, d: real, p: real)
    requires d > 0.0
    ensures a <= Times(d, p) <==> Quot(a, d) <= p
    ensures Times(d, p) <= a <==> p <= Quot(a, d)
  {
    var q := Quot(a, d);
    QuotBack(a, d);
    assert Times(d, p) == Times(p, d);
    if q <= p {
      TimesOrder(d, q, p);
    }
    if p <= q {
      TimesOrder(d, p, q);
    }
    if q < p {
      TimesPositive(d, p - q);
      assert Times(d, p - q) == Times(d, p) - a;
    }
    if p < q {
      TimesPositive(d, q - p);
      assert Times(d, q - p) == a - Times(d, p);
    }
  }

  lemma QuotSplit(C: real, H: real, D: real)
    requires D > 0.0
    ensures Quot(C - H, D) == Quot(C, D) - Quot(H, D) && Quot(C + H, D) == Quot(C, D) + Quot(H, D)
  {
  }

  /** The centre over the common denominator N + s. */
  lemma CenterScaled(N: real, f: real, s: real)
    requires N > 0.0 && s >= 0.0 && 1.0 + Quot(s, N) >= 1.0
    ensures Quot(f + Quot(s, 2.0 * N), 1.0 + Quot(s, N)) == Quot(Times(N, f) + s / 2.0, N + s)
  {
    var h, k := Quot(s, 2.0 * N), Quot(s, N);
    QuotBack(s, 2.0 * N);
    QuotBack(s, N);
    var c := Quot(f + h, 1.0 + k);
    QuotBack(f + h, 1.0 + k);
    assert Times(c, N + s) == N * (c * (1.0 + k)) by {
      assert N + s == N * (1.0 + k);
      assert c * (N * (1.0 + k)) == N * (c * (1.0 + k));
    }
    assert N * (f + h) == Times(N, f) + s / 2.0;
    QuotIs(c, N + s, Times(N, f) + s / 2.0);
  }

  /** The half width over the common denominator N + s. */
  lemma HalfScaled(N: real, z: real, s: real, root: real)
    requires N > 0.0 && s >= 0.0 && 1.0 + Quot(s, N) >= 1.0
    ensures Times(Quot(z, 1.0 + Quot(s, N)), root) == Quot(Times(z, Times(N, root)), N + s)
  {
    var k := Quot(s, N);
    QuotBack(s, N);
    var q := Quot(z, 1.0 + k);
    QuotBack(z, 1.0 + k);
    assert Times(Times(q, root), N + s) == N * root * (q * (1.0 + k)) by {
      assert N + s == N * (1.0 + k);
      assert (q * root) * (N * (1.0 + k)) == N * root * (q * (1.0 + k));
    }
    assert N * root * z == Times(z, Times(N, root));
    QuotIs(Times(q, root), N + s, Times(z, Times(N, root)));
  }

  /** N^2 times the radicand. */
  lemma RadicandScaled(N: real, f: real, s: real, root: real)
    requires N > 0.0 && Sq(N) > 0.0
    requires Sq(root) == Quot(Times(f, 1.0 - f), N) + Quot(s, 4.0 * Sq(N))
    ensures Sq(Times(N, root)) == Times(N, Times(f, 1.0 - f)) + s / 4.0
  {
    var a, b := Quot(Times(f, 1.0 - f), N), Quot(s, 4.0 * Sq(N));
    QuotBack(Times(f, 1.0 - f), N);
    QuotBack(s, 4.0 * Sq(N));
    assert Sq(Times(N, root)) == Times(Sq(N), Sq(root)) by {
      assert (N * root) * (N * root) == (N * N) * (root * root);
    }
    assert Times(Sq(N), a + b) == Times(N, Times(a, N)) + Times(b, Sq(N)) by {
      assert (N * N) * (a + b) == N * (a * N) + b * (N * N);
    }
    assert Times(b, 4.0 * Sq(N)) == 4.0 * Times(b, Sq(N));
  }

  /** The discriminant of the score test is the square of the scaled half width. */
  lemma Discriminant(N: real, f: real, z: real, r: real)
    requires Sq(r) == Times(N, Times(f, 1.0 - f)) + Sq(z) / 4.0
    ensures
      var s, C := Sq(z), Times(N, f) + Sq(z) / 2.0;
      Sq(Times(z, r)) == Sq(C) - Times(N + s, Times(Times(N, f), f))
  {
    var s, u := Sq(z), Times(N, f);
    assert Sq(Times(z, r)) == s * Sq(r) by {
      assert (z * r) * (z * r) == (z * z) * (r * r);
    }
    assert Times(N, Times(f, 1.0 - f)) == u - u * f by {
      assert N * (f * (1.0 - f)) == N * f - (N * f) * f;
    }
    assert s * (u - u * f + s / 4.0) == s * u - s * (u * f) + s * s / 4.0;
    assert Sq(u + s / 2.0) == u * u + u * s + s * s / 4.0;
    assert Times(N + s, Times(u, f)) == u * u + s * (u * f) by {
      assert N * (u * f) == u * (N * f);
      assert (N + s) * (u * f) == N * (u * f) + s * (u * f);
    }
  }

  /** The quadratic inequality of the score test, completed to a square. */
  lemma RegionIsSquare(N: real, f: real, s: real, p: real)
    requires N > 0.0 && s >= 0.0
    ensures
      var D, C := N + s, Times(N, f) + s / 2.0;
      Times(N, Sq(f - p)) <= Times(s, Times(p, 1.0 - p)) <==>
      Sq(Times(D, p) - C) <= Sq(C) - Times(D, Times(Times(N, f), f))
  {
    var D, C, k := N + s, Times(N, f) + s / 2.0, Times(Times(N, f), f);
    var g := Times(N, Sq(f - p)) - Times(s, Times(p, 1.0 - p));
    QuadraticForm(N, f, s, p);
    CompletedSquare(D, C, k, p);
    assert Sq(Times(D, p) - C) - (Sq(C) - Times(D, k)) == Times(D, g);
    if g > 0.0 {
      TimesPositive(D, g);
    } else {
      TimesNonNegative(D, -g);
      assert Times(D, -g) == -Times(D, g);
    }
  }

  lemma QuadraticForm(N: real, f: real, s: real, p: real)
    ensures Times(N, Sq(f - p)) - Times(s, Times(p, 1.0 - p)) ==
            Times(N + s, Sq(p)) - 2.0 * Times(Times(N, f) + s / 2.0, p) + Times(Times(N, f), f)
  {
    assert Sq(f - p) == f * f - 2.0 * (f * p) + p * p;
    assert Times(N, Sq(f - p)) == N * (f * f) - 2.0 * (N * (f * p)) + N * (p * p);
    assert N * (f * f) == (N * f) * f && N * (f * p) == (N * f) * p;
    assert Times(s, Times(p, 1.0 - p)) == s * p - s * (p * p);
    assert Times(N + s, Sq(p)) == N * (p * p) + s * (p * p);
    assert Times(Times(N, f) + s / 2.0, p) == (N * f) * p + s / 2.0 * p;
  }

  lemma CompletedSquare(D: real, C: real, k: real, p: real)
    ensures Sq(Times(D, p) - C) - (Sq(C) - Times(D, k)) == Times(D, Times(D, Sq(p)) - 2.0 * Times(C, p) + k)
  {
    var u := D * p;
    assert Sq(u - C) == u * u - 2.0 * (u * C) + C * C;
    assert D * (D * (p * p)) == u * u;
    assert D * (C * p) == u * C;
    assert Times(D, Times(D, Sq(p)) - 2.0 * Times(C, p) + k) == D * (D * (p * p)) - 2.0 * (D * (C * p)) + D * k;
  }

  // ------------------------------------------------------------------- theorems

  lemma RegionBetween(N: real, f: real, s: real, H: real, p: real)
    requires N > 0.0 && s >= 0.0 && H >= 0.0
    requires Sq(H) == Sq(Times(N, f) + s / 2.0) - Times(N + s, Times(Times(N, f), f))
    ensures
      var D, C := N + s, Times(N, f) + s / 2.0;
      Quot(C, D) - Quot(H, D) <= p <= Quot(C, D) + Quot(H, D) <==> Times(N, Sq(f - p)) <= Times(s, Times(p, 1.0 - p))
  {
    var D, C := N + s, Times(N, f) + s / 2.0;
    RegionIsSquare(N, f, s, p);
    SqWithin(Times(D, p) - C, H);
    QuotOrder(C - H, D, p);
    QuotOrder(C + H, D, p);
    QuotSplit(C, H, D);
  }

  /** The interval before the clamps is exactly the set of fractions the score test accepts. */
  lemma IntervalIsRegion(n: nat, x: nat, z: real, root: real, p: real)
    requires n > 0 && x <= n && z > 0.0 && IsRoot(root, Radicand(n, x, z))
    ensures Center(n, x, z) - HalfWidth(n, z, root) <= p <= Center(n, x, z) + HalfWidth(n, z, root) <==> InRegion(n, x, z, p)
  {
    var N, f, s := n as real, Fraction(n, x), Sq(z);
    SqPositive(z);
    SqPositive(N);
    QuotNonNegative(s, N);
    CenterScaled(N, f, s);
    HalfScaled(N, z, s, root);
    RadicandScaled(N, f, s, root);
    TimesNonNegative(N, root);
    TimesNonNegative(z, Times(N, root));
    Discriminant(N, f, z, Times(N, root));
    RegionBetween(N, f, s, Times(z, Times(N, root)), p);
  }

  /** Accepted fractions are fractions. */
  lemma RegionInUnit(n: nat, x: nat, z: real, p: real)
    requires n > 0 && z > 0.0 && InRegion(n, x, z, p)
    ensures 0.0 <= p <= 1.0
  {
    SqPositive(Fraction(n, x) - p);
    TimesNonNegative(n as real, Sq(Fraction(n, x) - p));
    SqPositive(z);
    OtherFactor(Sq(z), Times(p, 1.0 - p));
    UnitProduct(p);
  }

  lemma OtherFactor(s: real, v: real)
    requires s > 0.0 && Times(s, v) >= 0.0
    ensures v >= 0.0
  {
  }

  lemma UnitProduct(p: real)
    requires Times(p, 1.0 - p) >= 0.0
    ensures 0.0 <= p <= 1.0
  {
  }

  lemma WidthNonNegative(n: nat, z: real, root: real)
    requires n > 0 && z > 0.0 && root >= 0.0
    ensures HalfWidth(n, z, root) >= 0.0
  {
    QuotNonNegative(z, Denominator(n, z));
    TimesNonNegative(Quot(z, Denominator(n, z)), root);
  }

  lemma FractionInUnit(n: nat, x: nat)
    requires n > 0 && x <= n
    ensures 0.0 <= Fraction(n, x) <= 1.0
  {
    QuotOrder(x as real, n as real, 0.0);
    QuotOrder(x as real, n as real, 1.0);
  }

  lemma ObservedInRegion(n: nat, x: nat, z: real)
    requires n > 0 && x <= n
    ensures InRegion(n, x, z, Fraction(n, x))
  {
    var f := Fraction(n, x);
    FractionInUnit(n, x);
    TimesNonNegative(f, 1.0 - f);
    SqPositive(z);
    TimesNonNegative(Sq(z), Times(f, 1.0 - f));
  }

  /** The clamps never act, the interval contains the observed fraction, and it is the whole
      acceptance region of the score test. */
  lemma ScoreIsRegion(n: nat, x: nat, z: real, root: real)
    requires n > 0 && x <= n && z > 0.0 && IsRoot(root, Radicand(n, x, z))
    ensures
      var i := Score(n, x, z, root);
      && i.low == Center(n, x, z) - HalfWidth(n, z, root) && i.high == Center(n, x, z) + HalfWidth(n, z, root)
      && 0.0 <= i.low <= Fraction(n, x) <= i.high <= 1.0
      && forall p :: i.low <= p <= i.high <==> InRegion(n, x, z, p)
  {
    var low, high := Center(n, x, z) - HalfWidth(n, z, root), Center(n, x, z) + HalfWidth(n, z, root);
    WidthNonNegative(n, z, root);
    forall p: real ensures low <= p <= high <==> InRegion(n, x, z, p) {
      IntervalIsRegion(n, x, z, root, p);
    }
    assert InRegion(n, x, z, low) && InRegion(n, x, z, high);
    RegionInUnit(n, x, z, low);
    RegionInUnit(n, x, z, high);
    ObservedInRegion(n, x, z);
  }

  /** The score test at level `z` accepts the fraction `p` for `x` of `n`: the count is within `z`
      standard deviations of its expectation. */
  predicate Accepts(n: nat, x: nat, z: real, p: real) {
    Sq(x as real - Times(n as real, p)) <= Times(Sq(z), Times(n as real, Times(p, 1.0 - p)))
  }

  lemma ScaledSquare(N: real, f: real, p: real)
    ensures Sq(Times(f, N) - Times(N, p)) == Times(N, Times(N, Sq(f - p)))
  {
    assert Times(f, N) - Times(N, p) == N * (f - p);
    assert (N * (f - p)) * (N * (f - p)) == N * (N * ((f - p) * (f - p)));
  }

  lemma ScaledOrder(N: real, a: real, b: real)
    requires N > 0.0
    ensures Times(N, a) <= Times(N, b) <==> a <= b
  {
    if a <= b {
      TimesOrder(N, a, b);
    } else {
      TimesPositive(N, a - b);
      assert Times(N, a - b) == Times(N, a) - Times(N, b);
    }
  }

  lemma AcceptsIsRegion(n: nat, x: nat, z: real, p: real)
    requires n > 0
    ensures Accepts(n, x, z, p) <==> InRegion(n, x, z, p)
  {
    var N, f, s, v := n as real, Fraction(n, x), Sq(z), Times(p, 1.0 - p);
    QuotBack(x as real, N);
    ScaledSquare(N, f, p);
    assert Times(s, Times(N, v)) == Times(N, Times(s, v));
    ScaledOrder(N, Times(N, Sq(f - p)), Times(s, v));
  }

  lemma FractionGrows(n: nat, x: nat)
    requires n > 0
    ensures Fraction(n, x) <= Fraction(n, x + 1)
  {
    QuotBack(x as real, n as real);
    var f := Fraction(n, x);
    assert Times(f, n as real) == Times(n as real, f);
    QuotOrder((x + 1) as real, n as real, f);
  }

  /** A fraction on one side of two observations is accepted by the nearer one if it is by the
      farther one. */
  lemma NearerAccepts(n: nat, near: nat, far: nat, z: real, p: real)
    requires n > 0 && InRegion(n, far, z, p)
    requires
      || p <= Fraction(n, near) <= Fraction(n, far)
      || Fraction(n, far) <= Fraction(n, near) <= p
    ensures InRegion(n, near, z, p)
  {
    FartherSquare(Fraction(n, near) - p, Fraction(n, far) - p);
    TimesOrder(n as real, Sq(Fraction(n, near) - p), Sq(Fraction(n, far) - p));
  }

  lemma FartherSquare(a: real, b: real)
    requires 0.0 <= a <= b || b <= a <= 0.0
    ensures Sq(a) <= Sq(b)
  {
    if 0.0 <= a <= b {
      SqOrder(a, b);
    } else {
      SqOrder(-a, -b);
      assert Sq(-a) == Sq(a) && Sq(-b) == Sq(b);
    }
  }

  /** One more tampered node in the same sample lowers neither bound. */
  lemma ScoreGrowsWithCount(n: nat, x: nat, z: real, root: real, root': real)
    requires n > 0 && x < n && z > 0.0
    requires IsRoot(root, Radicand(n, x, z)) && IsRoot(root', Radicand(n, x + 1, z))
    ensures Score(n, x, z, root).low <= Score(n, x + 1, z, root').low
    ensures Score(n, x, z, root).high <= Score(n, x + 1, z, root').high
  {
    ScoreIsRegion(n, x, z, root);
    ScoreIsRegion(n, x + 1, z, root');
    FractionGrows(n, x);
    var i, j := Score(n, x, z, root), Score(n, x + 1, z, root');
    if j.low < i.low {
      assert InRegion(n, x + 1, z, j.low);
      NearerAccepts(n, x, x + 1, z, j.low);
    }
    if j.high < i.high {
      assert InRegion(n, x, z, i.high);
      NearerAccepts(n, x + 1, x, z, i.high);
    }
  }

  /** A larger quantile, a wider interval. */
  lemma ScoresNest(n: nat, x: nat, z: real, z': real, root: real, root': real)
    requires n > 0 && x <= n && 0.0 < z <= z'
    requires IsRoot(root, Radicand(n, x, z)) && IsRoot(root', Radicand(n, x, z'))
    ensures Score(n, x, z', root').low <= Score(n, x, z, root).low
    ensures Score(n, x, z, root).high <= Score(n, x, z', root').high
  {
    ScoreIsRegion(n, x, z, root);
    ScoreIsRegion(n, x, z', root');
    var i := Score(n, x, z, root);
    assert InRegion(n, x, z, i.low) && InRegion(n, x, z, i.high);
    LargerQuantileAccepts(n, x, z, z', i.low);
    LargerQuantileAccepts(n, x, z, z', i.high);
  }

  lemma LargerQuantileAccepts(n: nat, x: nat, z: real, z': real, p: real)
    requires n > 0 && 0.0 < z <= z' && InRegion(n, x, z, p)
    ensures InRegion(n, x, z', p)
  {
    RegionInUnit(n, x, z, p);
    TimesNonNegative(p, 1.0 - p);
    SqOrder(z, z');
    TimesOrder(Times(p, 1.0 - p), Sq(z), Sq(z'));
  }
}
