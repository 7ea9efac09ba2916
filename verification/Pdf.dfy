/** Maximum-likelihood estimates of the baseline distribution (pkg/stat/pdf.go). */
module Pdf {
  import opened Common
  import opened RealSums

  /** LogNormal works on logarithms of the observations, Poisson on the raw counts. */
  datatype Kind = LogNormal | Poisson

  function Mean(values: seq<real>): real {
    if values == [] then 0.0 else Sum(values) / (|values| as real)
  }

  lemma ProductPositive(x: real, y: real, r: real)
    requires r == x * y
    requires (x > 0.0 && y > 0.0) || (x < 0.0 && y < 0.0)
    ensures r > 0.0
  {
  }

  function Square(x: real): (r: real)
    ensures if x == 0.0 then r == 0.0 else r > 0.0
  {
    var r := x * x;
    if x != 0.0 then ProductPositive(x, x, r); r else r
  }

  /** Sum of squared deviations from `mean`. */
  function SquaredDeviations(values: seq<real>, mean: real): real {
    if values == [] then 0.0
    else
      SquaredDeviations(values[..|values| - 1], mean) + Square(values[|values| - 1] - mean)
  }

  /** The unbiased sample variance.  None where the source divides by zero: a
      single observation has no sample variance. */
  function VarianceNormal(values: seq<real>, mean: real): Option<real> {
    if |values| == 1 then None
    else Some(SquaredDeviations(values, mean) / ((|values| - 1) as real))
  }

  function Variance(kind: Kind, values: seq<real>, mean: real): Option<real> {
    match kind
    case LogNormal => VarianceNormal(values, mean)
    case Poisson => Some(mean)
  }

  method MeanNormal(values: seq<real>) returns (m: real)
    ensures m == Mean(values)
  {
    if |values| == 0 {
      return 0.0;
    }
    var s := 0.0;
    for i := 0 to |values|
      invariant s == Sum(values[..i])
    {
      assert values[..i + 1][..i] == values[..i];
      s := s + values[i];
    }
    assert values[..|values|] == values;
    m := s / (|values| as real);
  }

  method VarianceNormalLoop(values: seq<real>, mean: real) returns (v: Option<real>)
    ensures v == VarianceNormal(values, mean)
  {
    var s := 0.0;
    for i := 0 to |values|
      invariant s == SquaredDeviations(values[..i], mean)
    {
      assert values[..i + 1][..i] == values[..i];
      s := s + Square(values[i] - mean);
    }
    assert values[..|values|] == values;
    v := if |values| == 1 then None else Some(s / ((|values| - 1) as real));
  }

  // ---------------------------------------------------------------- positivity

  lemma {:induction false} DeviationsZeroIff(values: seq<real>, mean: real)
    ensures SquaredDeviations(values, mean) >= 0.0
    ensures SquaredDeviations(values, mean) == 0.0 <==> forall i :: 0 <= i < |values| ==> values[i] == mean
  {
    if values != [] {
      var n := |values| - 1;
      var front, d := values[..n], values[n] - mean;
      DeviationsZeroIff(front, mean);
      assert Square(d) >= 0.0 && (Square(d) == 0.0 <==> d == 0.0);
      if forall i :: 0 <= i < |front| ==> front[i] == mean {
        assert forall i :: 0 <= i < n ==> values[i] == front[i];
      } else {
        var i :| 0 <= i < |front| && front[i] != mean;
        assert values[i] != mean;
      }
    }
  }

  lemma MeanOfConstant(values: seq<real>)
    requires values != [] && Constant(values)
    ensures Mean(values) == values[0]
  {
    SumConstant(values);
    var n := |values| as real;
    assert Sum(values) / n == values[0] by {
      assert n > 0.0;
      assert Sum(values) == n * values[0];
      DivideBack(n, values[0]);
    }
  }

  lemma DivideBack(n: real, x: real)
    requires n != 0.0
    ensures (n * x) / n == x
  {
    assert (n * x) / n * n == n * x;
  }

  /** At the computed mean the sample variance is never negative, and it is
      positive exactly when the window is not constant. */
  lemma VariancePositiveIff(values: seq<real>)
    requires |values| >= 2
    ensures var v := VarianceNormal(values, Mean(values));
            v.Some? && v.value >= 0.0 && (v.value > 0.0 <==> !Constant(values))
  {
    var mean := Mean(values);
    var s := SquaredDeviations(values, mean);
    var n := (|values| - 1) as real;
    DeviationsZeroIff(values, mean);
    assert s == (s / n) * n;
    assert s > 0.0 ==> s / n > 0.0;
    if Constant(values) {
      MeanOfConstant(values);
      assert forall i :: 0 <= i < |values| ==> values[i] == mean;
    } else {
      var i :| 0 <= i < |values| && values[i] != values[0];
      assert values[i] != mean || values[0] != mean;
    }
  }

  // ---------------------------------------------------------------- what the estimates are

  /** Sum of deviations from m. */
  function Deviations(values: seq<real>, m: real): real {
    if values == [] then 0.0
    else Deviations(values[..|values| - 1], m) + (values[|values| - 1] - m)
  }

  lemma {:induction false} DeviationsAre(values: seq<real>, m: real)
    ensures Deviations(values, m) == Sum(values) - (|values| as real) * m
  {
    if values != [] {
      var n := |values| - 1;
      DeviationsAre(values[..n], m);
      assert |values| as real == n as real + 1.0;
    }
  }

  /** The mean is the value from which the deviations cancel. */
  lemma MeanIff(values: seq<real>, m: real)
    requires values != []
    ensures m == Mean(values) <==> Deviations(values, m) == 0.0
    ensures m == Mean(values) <==> Times(|values| as real, m) == Sum(values)
  {
    var n := |values| as real;
    DeviationsAre(values, m);
    assert (Sum(values) / n) * n == Sum(values);
    if n * m == Sum(values) {
      DivideBack(n, m);
    }
  }

  /** Sum of the squared differences of all pairs of values. */
  function PairSquares(values: seq<real>): real {
    if values == [] then 0.0
    else
      var n := |values| - 1;
      PairSquares(values[..n]) + SquaredDeviations(values[..n], values[n])
  }

  function SumOfSquares(values: seq<real>): real {
    if values == [] then 0.0 else SumOfSquares(values[..|values| - 1]) + Square(values[|values| - 1])
  }

  lemma SquareOfDifference(x: real, y: real)
    ensures Square(x - y) == Square(x) - 2.0 * Times(y, x) + Square(y)
  {
  }

  /** Squared deviations from any point, by the sums of values and squares. */
  lemma {:induction false} DeviationsExpand(values: seq<real>, m: real)
    ensures SquaredDeviations(values, m) ==
            SumOfSquares(values) - 2.0 * Times(m, Sum(values)) + Times(|values| as real, Square(m))
  {
    if values != [] {
      var n := |values| - 1;
      DeviationsExpand(values[..n], m);
      assert |values| as real == n as real + 1.0;
      ExpandStep(n as real, m, values[n], SumOfSquares(values[..n]), Sum(values[..n]));
    }
  }

  lemma ExpandStep(n: real, m: real, x: real, q: real, s: real)
    ensures q - 2.0 * Times(m, s) + Times(n, Square(m)) + Square(x - m) ==
            (q + Square(x)) - 2.0 * Times(m, s + x) + Times(n + 1.0, Square(m))
  {
    SquareOfDifference(x, m);
    TimesSum(m, s, x);
    assert (n + 1.0) * Square(m) == n * Square(m) + Square(m);
  }

  lemma {:induction false} PairsExpand(values: seq<real>)
    ensures PairSquares(values) == Times(|values| as real, SumOfSquares(values)) - Square(Sum(values))
  {
    if values != [] {
      var n := |values| - 1;
      var x, s, q := values[n], Sum(values[..n]), SumOfSquares(values[..n]);
      PairsExpand(values[..n]);
      DeviationsExpand(values[..n], x);
      assert |values| as real == n as real + 1.0;
      PairsStep(n as real, x, s, q);
    }
  }

  lemma PairsStep(n: real, x: real, s: real, q: real)
    ensures (Times(n, q) - Square(s)) + (q - 2.0 * Times(x, s) + Times(n, Square(x))) ==
            Times(n + 1.0, q + Square(x)) - Square(s + x)
  {
    assert (n + 1.0) * (q + Square(x)) == n * q + n * Square(x) + q + Square(x);
    assert (s + x) * (s + x) == s * s + 2.0 * (x * s) + x * x;
  }

  /** The sample variance is the squared differences of all pairs over n (n - 1). */
  lemma VarianceByPairs(values: seq<real>)
    requires |values| >= 2
    ensures var v := VarianceNormal(values, Mean(values));
            v.Some? && Times((|values| * (|values| - 1)) as real, v.value) == PairSquares(values)
  {
    PairsByDeviations(values);
    OverPairs(|values|, SquaredDeviations(values, Mean(values)));
  }

  lemma PairsByDeviations(values: seq<real>)
    requires values != []
    ensures PairSquares(values) == Times(|values| as real, SquaredDeviations(values, Mean(values)))
  {
    var m := Mean(values);
    PairsExpand(values);
    DeviationsExpand(values, m);
    MeanIff(values, m);
    ByPairs(|values| as real, m, Sum(values), SumOfSquares(values));
  }

  lemma ByPairs(n: real, m: real, s: real, q: real)
    requires Times(n, m) == s
    ensures Times(n, q - 2.0 * Times(m, s) + Times(n, Square(m))) == Times(n, q) - Square(s)
  {
    assert n * (m * s) == s * s;
    assert n * (n * (m * m)) == (n * m) * (n * m);
    assert n * (q - 2.0 * (m * s) + n * (m * m)) == n * q - 2.0 * (n * (m * s)) + n * (n * (m * m));
  }

  lemma OverPairs(k: int, d: real)
    requires k >= 2
    ensures Times((k * (k - 1)) as real, d / ((k - 1) as real)) == Times(k as real, d)
  {
    var n := (k - 1) as real;
    var v := d / n;
    assert v * n == d;
    RealProduct(k, k - 1);
    assert ((k as real) * n) * v == (k as real) * (n * v);
  }

  lemma {:induction false} RealProduct(k: nat, l: nat)
    ensures (k * l) as real == (k as real) * (l as real)
  {
    if l > 0 {
      RealProduct(k, l - 1);
      assert k * l == k * (l - 1) + k;
      assert l as real == (l - 1) as real + 1.0;
    }
  }

  // ---------------------------------------------------------------- equivariance

  lemma MeanShift(values: seq<real>, c: real)
    requires values != []
    ensures Mean(Shift(values, c)) == Mean(values) + c
  {
    SumShift(values, c);
    var n := |values| as real;
    assert (Sum(values) + n * c) / n == Sum(values) / n + (n * c) / n;
    DivideBack(n, c);
  }

  lemma {:induction false} DeviationsShift(values: seq<real>, mean: real, c: real)
    ensures SquaredDeviations(Shift(values, c), mean + c) == SquaredDeviations(values, mean)
  {
    if values != [] {
      var n := |values| - 1;
      assert Shift(values, c)[..n] == Shift(values[..n], c);
      DeviationsShift(values[..n], mean, c);
    }
  }

  /** Moving every observation by one constant moves the mean and leaves the
      sample variance alone. */
  lemma EstimatesShift(values: seq<real>, c: real)
    requires values != []
    ensures Mean(Shift(values, c)) == Mean(values) + c
    ensures VarianceNormal(Shift(values, c), Mean(Shift(values, c))) == VarianceNormal(values, Mean(values))
  {
    MeanShift(values, c);
    DeviationsShift(values, Mean(values), c);
  }

  lemma SquareScale(a: real, x: real, y: real)
    ensures Square(Times(a, x) - Times(a, y)) == Times(a * a, Square(x - y))
  {
    var d := x - y;
    assert a * x - a * y == a * d;
    assert (a * d) * (a * d) == (a * a) * (d * d);
  }

  lemma {:induction false} DeviationsScale(values: seq<real>, mean: real, a: real)
    ensures SquaredDeviations(Scale(values, a), Times(a, mean)) == Times(a * a, SquaredDeviations(values, mean))
  {
    if values != [] {
      var n := |values| - 1;
      assert Scale(values, a)[..n] == Scale(values[..n], a);
      DeviationsScale(values[..n], mean, a);
      SquareScale(a, values[n], mean);
      TimesSum(a * a, SquaredDeviations(values[..n], mean), Square(values[n] - mean));
    }
  }

  lemma TimesSum(a: real, x: real, y: real)
    ensures Times(a, x + y) == Times(a, x) + Times(a, y)
  {
  }

  lemma DivideScaled(a: real, x: real, n: real)
    requires n != 0.0
    ensures Times(a, x) / n == Times(a, x / n)
  {
    var q := x / n;
    assert q * n == x;
    assert (a * q) * n == a * x;
    DivideBack(n, a * q);
  }

  /** Scaling every observation scales the mean, and the sample variance quadratically. */
  lemma EstimatesScale(values: seq<real>, a: real)
    requires |values| >= 2
    ensures Mean(Scale(values, a)) == Times(a, Mean(values))
    ensures VarianceNormal(Scale(values, a), Mean(Scale(values, a))).value
         == Times(a * a, VarianceNormal(values, Mean(values)).value)
  {
    SumScale(values, a);
    DivideScaled(a, Sum(values), |values| as real);
    DeviationsScale(values, Mean(values), a);
    DivideScaled(a * a, SquaredDeviations(values, Mean(values)), (|values| - 1) as real);
  }
}
