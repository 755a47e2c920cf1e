/** Binomial tails over exact reals (byzantine_census.py, `_binom_cdf`).

    `AtMost(n, x, p)` is the probability of at most `x` successes in `n` trials, defined by what
    the last trial does.  The code's sum of binomial terms is proved equal to it.
 */
module Binomial {

  function Factorial(n: nat): (f: nat)
    ensures f >= 1
  {
    if n == 0 then 1 else n * Factorial(n - 1)
  }

  function Choose(n: nat, k: nat): nat {
    if k == 0 then 1 else if n == 0 then 0 else Choose(n - 1, k - 1) + Choose(n - 1, k)
  }

  function Times(a: real, b: real): real { a * b }

  lemma TimesNonNegative(a: real, b: real)
    requires a >= 0.0 && b >= 0.0
    ensures Times(a, b) >= 0.0
  {
  }

  function Pow(p: real, k: nat): real {
    if k == 0 then 1.0 else Times(p, Pow(p, k - 1))
  }

  function Term(c: real, u: real, v: real): real { c * u * v }

  /** The coefficient as the code writes it: n! / (k! (n-k)!). */
  function Coefficient(n: nat, k: nat): real
    requires k <= n
  {
    Ratio(Factorial(n), Factorial(k), Factorial(n - k))
  }

  function Ratio(total: nat, f: nat, g: nat): real
    requires f >= 1 && g >= 1
  {
    total as real / (f as real * g as real)
  }

  /** One term of the sum. */
  function Pmf(n: nat, k: nat, p: real): real {
    if k > n then 0.0 else Term(Choose(n, k) as real, Pow(p, k), Pow(1.0 - p, n - k))
  }

  /** P(X <= x) with X the number of successes in n trials of probability p. */
  function AtMost(n: nat, x: int, p: real): real
    decreases n
  {
    if x < 0 then 0.0
    else if n == 0 then 1.0
    else Mixture(p, AtMost(n - 1, x - 1, p), AtMost(n - 1, x, p))
  }

  /** Weight `p` on the first value, the rest on the second. */
  function Mixture(p: real, a: real, b: real): real {
    p * a + (1.0 - p) * b
  }

  function Clamp(p: real): real {
    if p <= 0.0 then 0.0 else if p >= 1.0 then 1.0 else p
  }

  // ------------------------------------------------------------- coefficients

  lemma {:induction false} ChooseBeyond(n: nat, k: nat)
    requires k > n
    ensures Choose(n, k) == 0
  {
    if n > 0 {
      ChooseBeyond(n - 1, k - 1);
      ChooseBeyond(n - 1, k);
    }
  }

  lemma {:induction false} ChooseAll(n: nat)
    ensures Choose(n, n) == 1
  {
    if n > 0 {
      ChooseAll(n - 1);
      ChooseBeyond(n - 1, n);
    }
  }

  lemma PascalStep(a: int, b: int, k: int, m: int, f: int, g: int, total: int)
    requires a * f * (m * g) == total && b * (k * f) * g == total
    ensures (a + b) * (k * f) * (m * g) == (k + m) * total
  {
    var fg := f * g;
    assert a * f * (m * g) == m * (a * fg);
    assert b * (k * f) * g == k * (b * fg);
    assert (k * f) * (m * g) == k * m * fg;
    assert (a + b) * (k * f) * (m * g) == (a + b) * (k * m * fg);
    assert (a + b) * (k * m * fg) == k * (m * (a * fg)) + m * (k * (b * fg));
  }

  /** Pascal's triangle counts what the factorials count. */
  lemma {:induction false} ChooseIsFactorialRatio(n: nat, k: nat)
    requires k <= n
    ensures Choose(n, k) * Factorial(k) * Factorial(n - k) == Factorial(n)
  {
    if k == n {
      ChooseAll(n);
    } else if k > 0 {
      ChooseIsFactorialRatio(n - 1, k - 1);
      ChooseIsFactorialRatio(n - 1, k);
      PascalStep(Choose(n - 1, k - 1), Choose(n - 1, k), k, n - k, Factorial(k - 1), Factorial(n - k - 1), Factorial(n - 1));
    }
  }

  lemma CoefficientIsChoose(n: nat, k: nat)
    requires k <= n
    ensures Coefficient(n, k) == Choose(n, k) as real
  {
    ChooseIsFactorialRatio(n, k);
    RatioIs(Choose(n, k), Factorial(k), Factorial(n - k), Factorial(n));
  }

  lemma RatioIs(c: nat, f: nat, g: nat, total: nat)
    requires f >= 1 && g >= 1 && c * f * g == total
    ensures Ratio(total, f, g) == c as real
  {
    var d := f as real * g as real;
    assert d >= 1.0;
    assert (c * f * g) as real == c as real * d;
  }

  // ------------------------------------------------------------ sum = recursion

  function SumPmf(n: nat, x: int, p: real): real
    decreases if x < 0 then 0 else x + 1
  {
    if x < 0 then 0.0 else SumPmf(n, x - 1, p) + Pmf(n, x, p)
  }

  lemma TermStep(a: real, b: real, p: real, u: real, v: real)
    ensures Term(a + b, Times(p, u), Times(1.0 - p, v)) ==
            Mixture(p, Term(a, u, Times(1.0 - p, v)), Term(b, Times(p, u), v))
  {
    var q := 1.0 - p;
    var w := p * q * (u * v);
    assert (p * u) * (q * v) == w;
    assert (a + b) * (p * u) * (q * v) == (a + b) * w;
    assert p * (a * u * (q * v)) == a * w;
    assert q * (b * (p * u) * v) == b * w;
  }

  lemma EdgeTerms(p: real, u: real)
    ensures Term(1.0, 1.0, Times(1.0 - p, u)) == Mixture(p, 0.0, Term(1.0, 1.0, u))
    ensures Term(1.0, Times(p, u), 1.0) == Mixture(p, Term(1.0, u, 1.0), 0.0)
  {
  }

  lemma MixAdd(p: real, a: real, b: real, c: real, d: real)
    ensures Mixture(p, a, b) + Mixture(p, c, d) == Mixture(p, a + c, b + d)
  {
    assert p * (a + c) == p * a + p * c;
    assert (1.0 - p) * (b + d) == (1.0 - p) * b + (1.0 - p) * d;
  }

  /** A term splits by the last trial. */
  lemma PmfSplits(n: nat, k: nat, p: real)
    requires n > 0
    ensures Pmf(n, k, p) == Mixture(p, if k == 0 then 0.0 else Pmf(n - 1, k - 1, p), Pmf(n - 1, k, p))
  {
    var q := 1.0 - p;
    if k == 0 {
      EdgeTerms(p, Pow(q, n - 1));
    } else if k == n {
      ChooseAll(n);
      ChooseAll(n - 1);
      EdgeTerms(p, Pow(p, n - 1));
    } else if k < n {
      TermStep(Choose(n - 1, k - 1) as real, Choose(n - 1, k) as real, p, Pow(p, k - 1), Pow(q, n - 1 - k));
    }
  }

  lemma {:induction false} SumSplits(n: nat, x: int, p: real)
    requires n > 0
    ensures SumPmf(n, x, p) == Mixture(p, SumPmf(n - 1, x - 1, p), SumPmf(n - 1, x, p))
    decreases if x < 0 then 0 else x + 1
  {
    if x >= 0 {
      SumSplits(n, x - 1, p);
      PmfSplits(n, x, p);
      MixAdd(p, SumPmf(n - 1, x - 2, p), SumPmf(n - 1, x - 1, p),
             if x == 0 then 0.0 else Pmf(n - 1, x - 1, p), Pmf(n - 1, x, p));
    }
  }

  /** The sum of binomial terms is the probability of at most `x` successes. */
  lemma {:induction false} SumIsAtMost(n: nat, x: int, p: real)
    ensures SumPmf(n, x, p) == AtMost(n, x, p)
    decreases n
  {
    if x >= 0 {
      if n == 0 {
        SumOfNoTrials(x, p);
      } else {
        SumSplits(n, x, p);
        SumIsAtMost(n - 1, x - 1, p);
        SumIsAtMost(n - 1, x, p);
      }
    }
  }

  lemma {:induction false} SumOfNoTrials(x: nat, p: real)
    ensures SumPmf(0, x, p) == 1.0
  {
    if x > 0 {
      SumOfNoTrials(x - 1, p);
    }
  }

  // ------------------------------------------------------------------- bounds

  lemma MixMonotone(p: real, a: real, b: real, a': real, b': real)
    requires 0.0 <= p <= 1.0 && a <= a' && b <= b'
    ensures Mixture(p, a, b) <= Mixture(p, a', b')
  {
    assert p * (a' - a) >= 0.0 && (1.0 - p) * (b' - b) >= 0.0;
    assert Mixture(p, a', b') - Mixture(p, a, b) == p * (a' - a) + (1.0 - p) * (b' - b);
  }

  lemma MixShift(p: real, q: real, a: real, b: real)
    requires p <= q && a <= b
    ensures Mixture(q, a, b) <= Mixture(p, a, b)
  {
    var d, e := q - p, b - a;
    assert d * e >= 0.0;
    assert Mixture(p, a, b) - Mixture(q, a, b) == d * e;
  }

  lemma {:induction false} AtMostIsProbability(n: nat, x: int, p: real)
    requires 0.0 <= p <= 1.0
    ensures 0.0 <= AtMost(n, x, p) <= 1.0
    decreases n
  {
    if x >= 0 && n > 0 {
      AtMostIsProbability(n - 1, x - 1, p);
      AtMostIsProbability(n - 1, x, p);
      MixMonotone(p, 0.0, 0.0, AtMost(n - 1, x - 1, p), AtMost(n - 1, x, p));
      MixMonotone(p, AtMost(n - 1, x - 1, p), AtMost(n - 1, x, p), 1.0, 1.0);
    }
  }

  lemma {:induction false} AtMostAll(n: nat, x: int, p: real)
    requires x >= n
    ensures AtMost(n, x, p) == 1.0
    decreases n
  {
    if n > 0 {
      AtMostAll(n - 1, x - 1, p);
      AtMostAll(n - 1, x, p);
    }
  }

  lemma {:induction false} AtMostCertain(n: nat, x: int)
    ensures AtMost(n, x, 0.0) == if x < 0 then 0.0 else 1.0
    ensures AtMost(n, x, 1.0) == if x < n then 0.0 else 1.0
    decreases n
  {
    if n > 0 && x >= 0 {
      AtMostCertain(n - 1, x - 1);
      AtMostCertain(n - 1, x);
    }
  }

  /** More allowed successes, larger probability. */
  lemma {:induction false} AtMostGrows(n: nat, x: int, p: real)
    requires 0.0 <= p <= 1.0
    ensures AtMost(n, x, p) <= AtMost(n, x + 1, p)
    decreases n
  {
    if x < 0 {
      AtMostIsProbability(n, x + 1, p);
    } else if n > 0 {
      AtMostGrows(n - 1, x - 1, p);
      AtMostGrows(n - 1, x, p);
      MixMonotone(p, AtMost(n - 1, x - 1, p), AtMost(n - 1, x, p), AtMost(n - 1, x, p), AtMost(n - 1, x + 1, p));
    }
  }

  /** Likelier successes, smaller probability of few of them. */
  lemma {:induction false} AtMostShrinks(n: nat, x: int, p: real, q: real)
    requires 0.0 <= p <= q <= 1.0
    ensures AtMost(n, x, q) <= AtMost(n, x, p)
    decreases n
  {
    if x >= 0 && n > 0 {
      AtMostShrinks(n - 1, x - 1, p, q);
      AtMostShrinks(n - 1, x, p, q);
      AtMostGrows(n - 1, x - 1, p);
      var a, b := AtMost(n - 1, x - 1, p), AtMost(n - 1, x, p);
      MixMonotone(q, AtMost(n - 1, x - 1, q), AtMost(n - 1, x, q), a, b);
      MixShift(p, q, a, b);
    }
  }

  // --------------------------------------------------------------- the method

  /** The loop over the terms, with the code's shortcuts and its final `min`.  All of them agree
      with one probability: the shortcuts are its limiting cases, and the clamp never acts. */
  method BinomCdf(n: nat, x: int, p: real) returns (r: real)
    ensures r == AtMost(n, x, Clamp(p))
  {
    AtMostCertain(n, x);
    if x < 0 {
      return 0.0;
    }
    if x >= n {
      AtMostAll(n, x, Clamp(p));
      return 1.0;
    }
    if p <= 0.0 {
      return 1.0;
    }
    if p >= 1.0 {
      return 0.0;
    }
    var total := 0.0;
    for k := 0 to x + 1
      invariant total == SumPmf(n, k - 1, p)
    {
      CoefficientIsChoose(n, k);
      total := total + Term(Coefficient(n, k), Pow(p, k), Pow(1.0 - p, n - k));
    }
    SumIsAtMost(n, x, p);
    AtMostIsProbability(n, x, p);
    r := if total <= 1.0 then total else 1.0;
  }
}
