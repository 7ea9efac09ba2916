/** The exponentially weighted average on its own: closed form, monotonicity, and how it
    follows shifted and reflected observations. */
module Smoothing {
  import opened RealSums
  import opened Pdf
  import opened Estimator

  function Ewma(lam: real, start: real, os: seq<real>): real {
    if os == [] then start else Fold(lam, Ewma(lam, start, os[..|os| - 1]), os[|os| - 1])
  }

  /** Sum of (1 - lambda)^(n - 1 - i) * os[i] over the first j observations of n. */
  function WeightedSum(lam: real, os: seq<real>, n: nat, j: nat): real
    requires j <= |os| && j <= n
  {
    if j == 0 then 0.0
    else WeightedSum(lam, os, n, j - 1) + Pow(1.0 - lam, n - j) * os[j - 1]
  }

  /** One more observation ages every weight by one factor. */
  lemma {:induction false} WeightsAge(lam: real, os: seq<real>, n: nat, j: nat)
    requires j <= |os| && j <= n
    ensures WeightedSum(lam, os, n + 1, j) == (1.0 - lam) * WeightedSum(lam, os, n, j)
  {
    if j > 0 {
      WeightsAge(lam, os, n, j - 1);
      var a, w, p, o := 1.0 - lam, WeightedSum(lam, os, n, j - 1), Pow(1.0 - lam, n - j), os[j - 1];
      assert Pow(a, n + 1 - j) == a * p;
      Distribute(a, w, p, o);
    }
  }

  lemma Distribute(a: real, w: real, p: real, o: real)
    ensures a * (w + p * o) == a * w + (a * p) * o
  {
    assert a * (w + p * o) == a * w + a * (p * o);
    assert a * (p * o) == (a * p) * o;
  }

  lemma {:induction false} WeightedSumPrefix(lam: real, os: seq<real>, k: nat, n: nat, j: nat)
    requires j <= k <= |os| && j <= n
    ensures WeightedSum(lam, os[..k], n, j) == WeightedSum(lam, os, n, j)
  {
    if j > 0 {
      WeightedSumPrefix(lam, os, k, n, j - 1);
    }
  }

  /** (1 - lambda)^n * start + lambda * sum of (1 - lambda)^(n-1-i) * o_i. */
  function Weighted(lam: real, start: real, os: seq<real>): real {
    var n := |os|;
    Pow(1.0 - lam, n) * start + lam * WeightedSum(lam, os, n, n)
  }

  lemma WeightedSnoc(lam: real, start: real, os: seq<real>)
    requires os != []
    ensures var n := |os| - 1;
            Weighted(lam, start, os) == lam * os[n] + (1.0 - lam) * Weighted(lam, start, os[..n])
  {
    var n, a := |os| - 1, 1.0 - lam;
    var o, p := os[n], Pow(1.0 - lam, n);
    WeightedSumPrefix(lam, os, n, n, n);
    WeightsAge(lam, os, n, n);
    var w := WeightedSum(lam, os[..n], n, n);
    var w' := WeightedSum(lam, os, n + 1, n + 1);
    assert w' == a * w + o by {
      assert Pow(a, 0) == 1.0;
    }
    ClosedFormStep(lam, a, start, o, Weighted(lam, start, os[..n]), p, w, Pow(a, n + 1), w');
  }

  /** The running average is the exponentially weighted sum of the start and the observations. */
  lemma {:induction false} ClosedForm(lam: real, start: real, os: seq<real>)
    ensures Ewma(lam, start, os) == Weighted(lam, start, os)
  {
    if os == [] {
      assert WeightedSum(lam, os, 0, 0) == 0.0;
    } else {
      ClosedForm(lam, start, os[..|os| - 1]);
      WeightedSnoc(lam, start, os);
    }
  }

  lemma ClosedFormStep(lam: real, a: real, start: real, o: real, c: real, p: real, w: real, p': real, w': real)
    requires c == p * start + lam * w && p' == a * p && w' == a * w + o
    ensures lam * o + a * c == p' * start + lam * w'
  {
    assert a * c == a * (p * start) + a * (lam * w);
    assert a * (p * start) == p' * start;
    assert a * (lam * w) == lam * (a * w);
    assert lam * w' == lam * (a * w) + lam * o;
  }

  lemma MixMonotone(a: real, b: real, x: real, x': real, y: real, y': real)
    requires a >= 0.0 && b >= 0.0 && x <= x' && y <= y'
    ensures a * x + b * y <= a * x' + b * y'
  {
    assert a * x <= a * x';
    assert b * y <= b * y';
  }

  lemma FoldMonotone(lam: real, c: real, c': real, o: real, o': real)
    requires 0.0 < lam <= 1.0 && c <= c' && o <= o'
    ensures Fold(lam, c, o) <= Fold(lam, c', o')
  {
    MixMonotone(lam, 1.0 - lam, o, o', c, c');
  }

  lemma {:induction false} Monotone(lam: real, c: real, c': real, os: seq<real>, os': seq<real>)
    requires 0.0 < lam <= 1.0 && c <= c' && Pointwise(os, os')
    ensures Ewma(lam, c, os) <= Ewma(lam, c', os')
  {
    if os != [] {
      var n := |os| - 1;
      Monotone(lam, c, c', os[..n], os'[..n]);
      FoldMonotone(lam, Ewma(lam, c, os[..n]), Ewma(lam, c', os'[..n]), os[n], os'[n]);
    }
  }

  lemma FoldShift(lam: real, c: real, o: real, d: real)
    ensures Fold(lam, c + d, o + d) == Fold(lam, c, o) + d
  {
    assert lam * (o + d) == lam * o + lam * d;
    assert (1.0 - lam) * (c + d) == (1.0 - lam) * c + (1.0 - lam) * d;
    assert (1.0 - lam) * d == d - lam * d;
  }

  lemma {:induction false} EwmaShift(lam: real, start: real, os: seq<real>, d: real)
    ensures Ewma(lam, start + d, Shift(os, d)) == Ewma(lam, start, os) + d
  {
    if os != [] {
      var n := |os| - 1;
      EwmaShift(lam, start, os[..n], d);
      assert Shift(os, d)[..n] == Shift(os[..n], d);
      FoldShift(lam, Ewma(lam, start, os[..n]), os[n], d);
    }
  }

  lemma FoldScale(lam: real, c: real, o: real, a: real)
    ensures Fold(lam, Times(a, c), Times(a, o)) == Times(a, Fold(lam, c, o))
  {
    assert lam * (a * o) == a * (lam * o);
    assert (1.0 - lam) * (a * c) == a * ((1.0 - lam) * c);
    assert a * (lam * o + (1.0 - lam) * c) == a * (lam * o) + a * ((1.0 - lam) * c);
  }

  lemma {:induction false} EwmaScale(lam: real, start: real, os: seq<real>, a: real)
    ensures Ewma(lam, Times(a, start), Scale(os, a)) == Times(a, Ewma(lam, start, os))
  {
    if os != [] {
      var n := |os| - 1;
      EwmaScale(lam, start, os[..n], a);
      assert Scale(os, a)[..n] == Scale(os[..n], a);
      FoldScale(lam, Ewma(lam, start, os[..n]), os[n], a);
    }
  }

  lemma FoldReflect(lam: real, c: real, o: real, m: real)
    ensures Fold(lam, m + m - c, m + m - o) == m + m - Fold(lam, c, o)
  {
    var d := m + m;
    assert lam * (d - o) == lam * d - lam * o;
    assert (1.0 - lam) * (d - c) == (1.0 - lam) * d - (1.0 - lam) * c;
    assert (1.0 - lam) * d == d - lam * d;
  }

  /** What is left of a distance after n steps towards a constant stream. */
  function Remaining(lam: real, n: nat, distance: real): real {
    Pow(1.0 - lam, n) * distance
  }

  /** Against a constant stream the distance to it shrinks geometrically. */
  lemma {:induction false} GapGeometric(lam: real, start: real, os: seq<real>, target: real)
    requires forall i :: 0 <= i < |os| ==> os[i] == target
    ensures target - Ewma(lam, start, os) == Remaining(lam, |os|, target - start)
  {
    if os != [] {
      var n := |os| - 1;
      GapGeometric(lam, start, os[..n], target);
      var c, p, a := Ewma(lam, start, os[..n]), Pow(1.0 - lam, n), 1.0 - lam;
      assert target - Fold(lam, c, target) == a * (target - c) by {
        assert a * (target - c) == a * target - a * c;
        assert a * target == target - lam * target;
      }
      assert a * (p * (target - start)) == (a * p) * (target - start);
    }
  }

  lemma {:induction false} RemainingShrinks(lam: real, t: nat, n: nat, distance: real)
    requires 0.0 < lam <= 1.0 && t <= n && distance >= 0.0
    ensures Remaining(lam, n, distance) <= Remaining(lam, t, distance)
    decreases n
  {
    if t < n {
      RemainingShrinks(lam, t, n - 1, distance);
      ShrinkStep(lam, n - 1, distance);
    }
  }

  lemma ShrinkStep(lam: real, n: nat, x: real)
    requires 0.0 < lam <= 1.0 && x >= 0.0
    ensures Remaining(lam, n + 1, x) <= Remaining(lam, n, x)
  {
    var a, p := 1.0 - lam, Pow(1.0 - lam, n);
    PowUnit(a, n);
    var p' := Pow(a, n + 1);
    assert p' == a * p;
    assert (1.0 - a) * p >= 0.0;
    assert p - p' == (1.0 - a) * p;
    ScaleOrder(p', p, x);
  }

  lemma ScaleOrder(x: real, y: real, k: real)
    requires x <= y && k >= 0.0
    ensures x * k <= y * k
  {
  }

  /** While the observations stay `d` above the limit and the average below it, the average
      gains at least lambda * d per step. */
  lemma FoldGains(lam: real, c: real, o: real, limit: real, d: real, gain: real)
    requires 0.0 < lam <= 1.0 && c <= limit && o >= limit + d && gain == lam * d
    ensures Fold(lam, c, o) >= c + gain
  {
    assert lam * o >= lam * (c + d);
    assert lam * (c + d) == lam * c + lam * d;
    assert (1.0 - lam) * c == c - lam * c;
  }

  // ---------------------------------------------------------------- variance of the average

  /** Sum of the squares of the weights that ClosedForm gives the first j observations of n, apart from
      the common factor lambda. */
  function SquaredWeights(lam: real, n: nat, j: nat): real
    requires j <= n
  {
    if j == 0 then 0.0 else SquaredWeights(lam, n, j - 1) + Square(Pow(1.0 - lam, n - j))
  }

  /** The variance of the average of n uncorrelated observations of the given variance. */
  function VarianceOfAverage(lam: real, variance: real, n: nat): real {
    Times(Square(lam), Times(SquaredWeights(lam, n, n), variance))
  }

  lemma SquareOfProduct(x: real, y: real)
    ensures Square(x * y) == Square(x) * Square(y)
  {
    assert (x * y) * (x * y) == (x * x) * (y * y);
  }

  lemma {:induction false} SquaredWeightsAge(lam: real, n: nat, j: nat)
    requires j <= n
    ensures SquaredWeights(lam, n + 1, j) == Square(1.0 - lam) * SquaredWeights(lam, n, j)
  {
    if j > 0 {
      SquaredWeightsAge(lam, n, j - 1);
      var a, w, p := 1.0 - lam, SquaredWeights(lam, n, j - 1), Pow(1.0 - lam, n - j);
      assert Pow(a, n + 1 - j) == a * p;
      SquareOfProduct(a, p);
      assert Square(a) * (w + Square(p)) == Square(a) * w + Square(a) * Square(p);
    }
  }

  /** One more observation adds its own share and ages the rest. */
  lemma VarianceStep(lam: real, variance: real, n: nat)
    ensures VarianceOfAverage(lam, variance, n + 1) ==
            Times(Square(lam), variance) + Times(Square(1.0 - lam), VarianceOfAverage(lam, variance, n))
  {
    SquaredWeightsAge(lam, n, n);
    assert Pow(1.0 - lam, 0) == 1.0 && Square(1.0) == 1.0;
    VarianceStepProducts(Square(lam), Square(1.0 - lam), SquaredWeights(lam, n, n), variance);
  }

  lemma VarianceStepProducts(l: real, a: real, w: real, v: real)
    ensures Times(l, Times(a * w + 1.0, v)) == Times(l, v) + Times(a, Times(l, Times(w, v)))
  {
    assert (a * w + 1.0) * v == a * (w * v) + v;
    assert l * (a * (w * v) + v) == l * (a * (w * v)) + l * v;
    assert l * (a * (w * v)) == a * (l * (w * v));
  }

  /** The variance that one more observation leaves as it is. */
  predicate IsSteady(lam: real, variance: real, x: real) {
    x == Times(Square(lam), variance) + Times(Square(1.0 - lam), x)
  }

  lemma RatioIsSteady(lam: real)
    requires lam != 2.0
    ensures Ratio(lam) == Square(lam) + Square(1.0 - lam) * Ratio(lam)
  {
    var q := Ratio(lam);
    assert q * (2.0 - lam) == lam;
    assert Square(1.0 - lam) == 1.0 - 2.0 * lam + lam * lam;
    assert Square(1.0 - lam) * q == q - lam * (q * (2.0 - lam));
  }

  /** EstimatorVariance is the steady one and no other value is. */
  lemma SteadyIff(lam: real, variance: real, x: real)
    requires lam != 0.0 && lam != 2.0
    ensures IsSteady(lam, variance, x) <==> x == EstimatorVariance(lam, variance)
  {
    var e := EstimatorVariance(lam, variance);
    RatioIsSteady(lam);
    SteadyProducts(Square(lam), Square(1.0 - lam), Ratio(lam), variance);
    assert IsSteady(lam, variance, e);
    if IsSteady(lam, variance, x) {
      SteadyUnique(lam, x - e);
    }
  }

  lemma SteadyProducts(l: real, a: real, q: real, v: real)
    requires q == l + a * q
    ensures q * v == Times(l, v) + Times(a, q * v)
  {
    assert (l + a * q) * v == l * v + a * (q * v);
  }

  lemma SteadyUnique(lam: real, d: real)
    requires lam != 0.0 && lam != 2.0 && d == Square(1.0 - lam) * d
    ensures d == 0.0
  {
    var y := 2.0 - lam;
    var c := lam * y;
    assert Square(1.0 - lam) == 1.0 - c;
    assert c * d == 0.0;
    NonZeroProduct(lam, y, c);
    if d != 0.0 {
      NonZeroProduct(c, d, c * d);
    }
  }

  lemma NonZeroProduct(x: real, y: real, r: real)
    requires x != 0.0 && y != 0.0 && r == x * y
    ensures r != 0.0
  {
    if (x > 0.0) == (y > 0.0) {
      ProductPositive(x, y, r);
    } else {
      ProductPositive(-x, y, -r);
    }
  }

  /** EstimatorVariance is what the variance of the average settles to: what is missing after n
      observations shrinks by the square of 1 - lambda with each one. */
  lemma {:induction false} VarianceSettles(lam: real, variance: real, n: nat)
    requires lam != 0.0 && lam != 2.0
    ensures EstimatorVariance(lam, variance) - VarianceOfAverage(lam, variance, n) ==
            Times(Pow(Square(1.0 - lam), n), EstimatorVariance(lam, variance))
  {
    var e, a := EstimatorVariance(lam, variance), Square(1.0 - lam);
    if n == 0 {
      assert VarianceOfAverage(lam, variance, 0) == 0.0;
    } else {
      VarianceSettles(lam, variance, n - 1);
      VarianceStep(lam, variance, n - 1);
      SteadyIff(lam, variance, e);
      SettleProducts(a, Times(Square(lam), variance), e, VarianceOfAverage(lam, variance, n - 1), Pow(a, n - 1));
    }
  }

  lemma SettleProducts(a: real, l: real, e: real, v: real, p: real)
    requires e == l + Times(a, e) && e - v == Times(p, e)
    ensures e - (l + Times(a, v)) == Times(a * p, e)
  {
    assert a * e - a * v == a * (p * e);
  }
}
