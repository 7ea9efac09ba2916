/** Sums, powers and pointwise maps over sequences of reals, shared by the ring
    buffer, the sampled series and the estimator. */
module RealSums {

  function Sum(s: seq<real>): real {
    if s == [] then 0.0 else Sum(s[..|s| - 1]) + s[|s| - 1]
  }

  function Pow(b: real, n: nat): real {
    if n == 0 then 1.0 else b * Pow(b, n - 1)
  }

  /** Adds `c` to every element. */
  function Shift(s: seq<real>, c: real): (r: seq<real>)
    ensures |r| == |s| && forall i :: 0 <= i < |s| ==> r[i] == s[i] + c
  {
    seq(|s|, i requires 0 <= i < |s| => s[i] + c)
  }

  /** Reflects every element about `m`. */
  function Reflect(s: seq<real>, m: real): (r: seq<real>)
    ensures |r| == |s| && forall i :: 0 <= i < |s| ==> r[i] == m + m - s[i]
  {
    seq(|s|, i requires 0 <= i < |s| => m + m - s[i])
  }

  function Times(a: real, x: real): real {
    a * x
  }

  /** Multiplies every element by `a`. */
  function Scale(s: seq<real>, a: real): (r: seq<real>)
    ensures |r| == |s| && forall i :: 0 <= i < |s| ==> r[i] == Times(a, s[i])
  {
    seq(|s|, i requires 0 <= i < |s| => Times(a, s[i]))
  }

  ghost predicate Pointwise(s: seq<real>, t: seq<real>) {
    |s| == |t| && forall i :: 0 <= i < |s| ==> s[i] <= t[i]
  }

  ghost predicate Constant(s: seq<real>) {
    forall i :: 0 <= i < |s| ==> s[i] == s[0]
  }

  lemma {:induction false} SumAppend(s: seq<real>, t: seq<real>)
    ensures Sum(s + t) == Sum(s) + Sum(t)
    decreases |t|
  {
    if t == [] {
      assert s + t == s;
    } else {
      var n := |t| - 1;
      assert (s + t)[..|s + t| - 1] == s + t[..n];
      SumAppend(s, t[..n]);
    }
  }

  lemma {:induction false} SumShift(s: seq<real>, c: real)
    ensures Sum(Shift(s, c)) == Sum(s) + (|s| as real) * c
  {
    if s != [] {
      var n := |s| - 1;
      assert Shift(s, c)[..n] == Shift(s[..n], c);
      SumShift(s[..n], c);
      assert (|s| as real) * c == (n as real) * c + c;
    }
  }

  lemma {:induction false} SumScale(s: seq<real>, a: real)
    ensures Sum(Scale(s, a)) == Times(a, Sum(s))
  {
    if s != [] {
      var n := |s| - 1;
      assert Scale(s, a)[..n] == Scale(s[..n], a);
      SumScale(s[..n], a);
      assert a * Sum(s) == a * Sum(s[..n]) + a * s[n];
    }
  }

  lemma {:induction false} SumConstant(s: seq<real>)
    requires Constant(s) && s != []
    ensures Sum(s) == (|s| as real) * s[0]
  {
    var n := |s| - 1;
    if n > 0 {
      SumConstant(s[..n]);
      assert (|s| as real) * s[0] == (n as real) * s[0] + s[0];
    } else {
      assert Sum(s[..n]) == 0.0;
    }
  }

  lemma {:induction false} SumPositive(s: seq<real>)
    requires s != [] && forall i :: 0 <= i < |s| ==> s[i] > 0.0
    ensures Sum(s) > 0.0
  {
    var n := |s| - 1;
    if n > 0 {
      SumPositive(s[..n]);
    } else {
      assert Sum(s[..n]) == 0.0;
    }
  }

  lemma {:induction false} PowUnit(b: real, n: nat)
    requires 0.0 <= b <= 1.0
    ensures 0.0 <= Pow(b, n) <= 1.0
  {
    if n > 0 {
      PowUnit(b, n - 1);
      UnitProduct(b, Pow(b, n - 1));
    }
  }

  lemma ProductMonotone(x: real, x': real, y: real)
    requires x <= x' && y >= 0.0
    ensures x * y <= x' * y
  {
  }

  lemma UnitProduct(x: real, y: real)
    requires 0.0 <= x <= 1.0 && 0.0 <= y <= 1.0
    ensures 0.0 <= x * y <= y
  {
    ProductMonotone(0.0, x, y);
    assert x * y <= y by {
      assert (1.0 - x) * y >= 0.0;
      assert (1.0 - x) * y == y - x * y;
    }
  }
}
