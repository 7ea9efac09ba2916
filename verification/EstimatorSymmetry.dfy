/** Change of units for log-normal statistics.  Multiplying the raw observations by a constant adds
    a constant to their logarithms; taking logarithms to another base scales them. */
module EstimatorSymmetry {
  import opened RealSums
  import opened Pdf
  import opened Estimator
  import opened EstimatorRuns
  import opened Smoothing
  import EstimatorBands

  // ---------------------------------------------------------------- adding a constant

  /** The first usable baseline, if any, is at the same place in both streams. */
  ghost predicate SameBaseline(cfg: Config, obs: seq<real>, obs': seq<real>) {
    forall n: nat :: IsBaseline(cfg, obs, n) <==> IsBaseline(cfg, obs', n)
  }

  ghost predicate SamePhases(cfg: Config, obs: seq<real>, obs': seq<real>)
    requires cfg.lambda != 2.0 && |obs| == |obs'|
  {
    forall p: nat :: p <= |obs| ==> Run(cfg, Fresh(), obs[..p]).phase == Run(cfg, Fresh(), obs'[..p]).phase
  }

  /** The full window ending before index n is not constant. */
  ghost predicate VaryingAt(cfg: Config, obs: seq<real>, n: nat) {
    cfg.capacity <= n <= |obs| && !Constant(obs[n - cfg.capacity..n])
  }

  ghost predicate FirstVarying(cfg: Config, obs: seq<real>, n: nat) {
    VaryingAt(cfg, obs, n) && forall m: nat :: m < n ==> !VaryingAt(cfg, obs, m)
  }

  lemma WindowShift(obs: seq<real>, c: real, a: nat, b: nat)
    requires a <= b <= |obs|
    ensures Shift(obs, c)[a..b] == Shift(obs[a..b], c)
  {
  }

  lemma LimitShift(cfg: Config, w: seq<real>, c: real)
    requires cfg.lambda != 2.0 && cfg.kind == LogNormal && w != []
    requires Ready(cfg, w) && Ready(cfg, Shift(w, c))
    ensures Mean(Shift(w, c)) == Mean(w) + c
    ensures LimitOf(cfg, Shift(w, c), 1) == LimitOf(cfg, w, 1) + c
  {
    EstimatesShift(w, c);
  }

  lemma BaselineOfPrefix(cfg: Config, obs: seq<real>, p: nat, n: nat)
    requires p <= |obs|
    ensures IsBaseline(cfg, obs[..p], n) <==> n <= p && IsBaseline(cfg, obs, n)
  {
    forall m: nat
      ensures ReadyAt(cfg, obs[..p], m) <==> m <= p && ReadyAt(cfg, obs, m)
    {
      ReadyAtPrefix(cfg, obs, p, m);
    }
  }

  lemma AverageShift(cfg: Config, obs: seq<real>, c: real, n: nat, t: nat)
    requires cfg.lambda != 2.0 && cfg.kind == LogNormal && cfg.capacity >= 1
    requires ReadyAt(cfg, obs, n) && ReadyAt(cfg, Shift(obs, c), n) && n <= t <= |obs|
    ensures Average(cfg, Shift(obs, c), n, t) == Average(cfg, obs, n, t) + c
    ensures Upper(cfg, Shift(obs, c), n) == Upper(cfg, obs, n) + c
  {
    WindowShift(obs, c, n - cfg.capacity, n);
    WindowShift(obs, c, n, t);
    LimitShift(cfg, obs[n - cfg.capacity..n], c);
    EwmaShift(cfg.lambda, Start(cfg, obs, n), obs[n..t], c);
  }

  /** The verdict on a stream is the verdict on the shifted stream. */
  lemma VerdictShift(cfg: Config, obs: seq<real>, c: real, v: Verdict)
    requires cfg.lambda != 2.0 && cfg.kind == LogNormal && cfg.capacity >= 1
    requires SameBaseline(cfg, obs, Shift(obs, c)) && Justified(cfg, obs, v)
    ensures Justified(cfg, Shift(obs, c), v)
  {
    var obs' := Shift(obs, c);
    match v
    case Collecting =>
      forall n: nat
        ensures !ReadyAt(cfg, obs', n)
      {
        if ReadyAt(cfg, obs', n) {
          var b := LeastReady(cfg, obs', n);
        }
      }
    case Testing(n) => ReachesShift(cfg, obs, c, n);
    case Tripped(n, t) => ReachesShift(cfg, obs, c, n);
  }

  lemma ReachesShift(cfg: Config, obs: seq<real>, c: real, n: nat)
    requires cfg.lambda != 2.0 && cfg.kind == LogNormal && cfg.capacity >= 1
    requires ReadyAt(cfg, obs, n) && ReadyAt(cfg, Shift(obs, c), n)
    ensures forall t: nat :: Reaches(cfg, Shift(obs, c), n, t) <==> Reaches(cfg, obs, n, t)
  {
    forall t: nat
      ensures Reaches(cfg, Shift(obs, c), n, t) <==> Reaches(cfg, obs, n, t)
    {
      if n < t <= |obs| {
        AverageShift(cfg, obs, c, n, t);
      }
    }
  }

  lemma {:induction false} LeastReady(cfg: Config, obs: seq<real>, n: nat) returns (b: nat)
    requires ReadyAt(cfg, obs, n)
    ensures b <= n && IsBaseline(cfg, obs, b)
    decreases n
  {
    if m: nat :| m < n && ReadyAt(cfg, obs, m) {
      b := LeastReady(cfg, obs, m);
    } else {
      b := n;
    }
  }

  /** With the baseline in the same place, a shifted stream takes the statistic through the same
      phases, and average and limit shift along. */
  lemma ShiftEquivariant(cfg: Config, obs: seq<real>, c: real)
    requires cfg.lambda != 2.0 && cfg.kind == LogNormal && cfg.capacity >= 1
    requires SameBaseline(cfg, obs, Shift(obs, c))
    ensures var r, r' := Run(cfg, Fresh(), obs), Run(cfg, Fresh(), Shift(obs, c));
            && r'.phase == r.phase
            && (r.phase != UCLInitial ==> r'.current == r.current + c && r'.limit == r.limit + c)
  {
    var v := RunMeetsSpec(cfg, obs);
    VerdictShift(cfg, obs, c, v);
    FreshRunIsSpecified(cfg, Shift(obs, c), v);
    match v
    case Collecting =>
    case Testing(n) => AverageShift(cfg, obs, c, n, |obs|);
    case Tripped(n, t) => AverageShift(cfg, obs, c, n, t);
  }

  lemma CollectingIff(cfg: Config, obs: seq<real>, p: nat)
    requires cfg.lambda != 2.0 && cfg.capacity >= 1 && p <= |obs|
    ensures Run(cfg, Fresh(), obs[..p]).phase == UCLInitial <==> !ReadyBy(cfg, obs, p)
  {
    var v := RunMeetsSpec(cfg, obs[..p]);
    forall m: nat
      ensures ReadyAt(cfg, obs[..p], m) <==> m <= p && ReadyAt(cfg, obs, m)
    {
      ReadyAtPrefix(cfg, obs, p, m);
    }
  }

  /** Some window ending by p is usable. */
  ghost predicate ReadyBy(cfg: Config, obs: seq<real>, p: nat) {
    exists m: nat :: m <= p && ReadyAt(cfg, obs, m)
  }

  lemma ReadyByAgrees(cfg: Config, obs: seq<real>, obs': seq<real>, p: nat)
    requires cfg.lambda != 2.0 && cfg.capacity >= 1 && |obs| == |obs'| && p <= |obs|
    requires SamePhases(cfg, obs, obs')
    ensures ReadyBy(cfg, obs, p) <==> ReadyBy(cfg, obs', p)
  {
    CollectingIff(cfg, obs, p);
    CollectingIff(cfg, obs', p);
    assert Run(cfg, Fresh(), obs[..p]).phase == Run(cfg, Fresh(), obs'[..p]).phase;
  }

  lemma BaselineFollowsReadiness(cfg: Config, obs: seq<real>, obs': seq<real>, n: nat)
    requires |obs| == |obs'| && IsBaseline(cfg, obs, n)
    requires forall p: nat :: p <= |obs| ==> (ReadyBy(cfg, obs, p) <==> ReadyBy(cfg, obs', p))
    ensures IsBaseline(cfg, obs', n)
  {
    assert ReadyBy(cfg, obs, n);
    var m: nat :| m <= n && ReadyAt(cfg, obs', m);
    var b := LeastReady(cfg, obs', m);
    assert ReadyBy(cfg, obs', b);
    assert ReadyBy(cfg, obs, b);
  }

  /** A change of latency unit leaves the whole sequence of phases unchanged exactly when it does not
      move the first usable baseline. */
  lemma ShiftKeepsPhasesIff(cfg: Config, obs: seq<real>, c: real)
    requires cfg.lambda != 2.0 && cfg.kind == LogNormal && cfg.capacity >= 1
    ensures SamePhases(cfg, obs, Shift(obs, c)) <==> SameBaseline(cfg, obs, Shift(obs, c))
  {
    var obs' := Shift(obs, c);
    if SameBaseline(cfg, obs, obs') {
      forall p: nat | p <= |obs|
        ensures Run(cfg, Fresh(), obs[..p]).phase == Run(cfg, Fresh(), obs'[..p]).phase
      {
        WindowShift(obs, c, 0, p);
        forall n: nat
          ensures IsBaseline(cfg, obs[..p], n) <==> IsBaseline(cfg, obs'[..p], n)
        {
          BaselineOfPrefix(cfg, obs, p, n);
          BaselineOfPrefix(cfg, obs', p, n);
        }
        ShiftEquivariant(cfg, obs[..p], c);
      }
    }
    if SamePhases(cfg, obs, obs') {
      forall p: nat | p <= |obs|
        ensures ReadyBy(cfg, obs, p) <==> ReadyBy(cfg, obs', p)
      {
        ReadyByAgrees(cfg, obs, obs', p);
      }
      forall n: nat
        ensures IsBaseline(cfg, obs, n) <==> IsBaseline(cfg, obs', n)
      {
        if IsBaseline(cfg, obs, n) {
          BaselineFollowsReadiness(cfg, obs, obs', n);
        } else if IsBaseline(cfg, obs', n) {
          BaselineFollowsReadiness(cfg, obs', obs, n);
        }
      }
    }
  }

  lemma ReadyIff(cfg: Config, obs: seq<real>, n: nat)
    requires cfg.kind == LogNormal && cfg.capacity >= 2 && cfg.capacity <= n <= |obs|
    ensures var w := obs[n - cfg.capacity..n];
            ReadyAt(cfg, obs, n) <==> Mean(w) > 0.0 && !Constant(w)
  {
    VariancePositiveIff(obs[n - cfg.capacity..n]);
  }

  /** It does not when the first full window that is not constant has a positive mean in both units. */
  lemma VaryingWindowIsBaseline(cfg: Config, obs: seq<real>, c: real, n: nat)
    requires cfg.lambda != 2.0 && cfg.kind == LogNormal && cfg.capacity >= 2
    requires FirstVarying(cfg, obs, n)
    requires Mean(obs[n - cfg.capacity..n]) > 0.0 && Mean(obs[n - cfg.capacity..n]) + c > 0.0
    ensures SamePhases(cfg, obs, Shift(obs, c))
  {
    FirstVaryingIsBaseline(cfg, obs, n);
    var obs' := Shift(obs, c);
    forall m: nat
      ensures VaryingAt(cfg, obs', m) <==> VaryingAt(cfg, obs, m)
    {
      if cfg.capacity <= m <= |obs| {
        ConstantShift(obs[m - cfg.capacity..m], c);
        WindowShift(obs, c, m - cfg.capacity, m);
      }
    }
    WindowShift(obs, c, n - cfg.capacity, n);
    MeanShift(obs[n - cfg.capacity..n], c);
    FirstVaryingIsBaseline(cfg, obs', n);
    ShiftKeepsPhasesIff(cfg, obs, c);
  }

  lemma ConstantShift(w: seq<real>, c: real)
    ensures Constant(Shift(w, c)) <==> Constant(w)
  {
    if Constant(Shift(w, c)) {
      forall i | 0 <= i < |w|
        ensures w[i] == w[0]
      {
        assert Shift(w, c)[i] == Shift(w, c)[0];
      }
    }
  }

  lemma FirstVaryingIsBaseline(cfg: Config, obs: seq<real>, n: nat)
    requires cfg.kind == LogNormal && cfg.capacity >= 2 && FirstVarying(cfg, obs, n)
    requires Mean(obs[n - cfg.capacity..n]) > 0.0
    ensures IsBaseline(cfg, obs, n)
    ensures forall m: nat :: IsBaseline(cfg, obs, m) ==> m == n
  {
    ReadyIff(cfg, obs, n);
    forall m: nat | m < n
      ensures !ReadyAt(cfg, obs, m)
    {
      if cfg.capacity <= m {
        assert !VaryingAt(cfg, obs, m);
        ReadyIff(cfg, obs, m);
      }
    }
  }

  // ---------------------------------------------------------------- scaling

  lemma RootOfScaled(sqrt: real -> real, a: real, v: real)
    requires IsSqrt(sqrt) && a > 0.0 && v >= 0.0
    ensures sqrt(Times(a * a, v)) == Times(a, sqrt(v))
  {
    var r, s, t := sqrt(v), sqrt(Times(a * a, v)), Times(a, sqrt(v));
    assert r >= 0.0 && r * r == v;
    ProductPositive(a, a, a * a);
    EstimatorBands.Scale(a * a, 0.0, v);
    EstimatorBands.Scale(a, 0.0, r);
    assert s >= 0.0 && s * s == Times(a * a, v);
    Associate(a, r);
    EstimatorBands.SquareOrder(s, t);
    EstimatorBands.SquareOrder(t, s);
  }

  lemma Associate(a: real, r: real)
    ensures Times(a, r) * Times(a, r) == Times(a * a, r * r)
  {
  }

  lemma Commute(x: real, y: real, z: real)
    ensures x * (y * z) == y * (x * z)
  {
  }

  lemma BandScale(cfg: Config, variance: real, a: real)
    requires WellFormed(cfg) && a > 0.0 && variance >= 0.0
    ensures Band(cfg, Times(a * a, variance)) == Times(a, Band(cfg, variance))
  {
    var v := EstimatorVariance(cfg.lambda, variance);
    EstimatorBands.EstimatorVarianceMonotone(cfg.lambda, cfg.lambda, variance);
    Commute(Ratio(cfg.lambda), a * a, variance);
    assert EstimatorVariance(cfg.lambda, Times(a * a, variance)) == Times(a * a, v);
    RootOfScaled(cfg.sqrt, a, v);
    Commute(Factor(cfg), a, cfg.sqrt(v));
  }

  lemma LimitScale(cfg: Config, w: seq<real>, a: real)
    requires WellFormed(cfg) && cfg.kind == LogNormal && w != [] && a > 0.0
    ensures Ready(cfg, Scale(w, a)) <==> Ready(cfg, w)
    ensures Ready(cfg, w) ==>
              Mean(Scale(w, a)) == Times(a, Mean(w)) && LimitOf(cfg, Scale(w, a), 1) == Times(a, LimitOf(cfg, w, 1))
  {
    if |w| >= 2 {
      EstimatesScale(w, a);
      VariancePositiveIff(w);
      var mean, variance := Mean(w), VarianceNormal(w, Mean(w)).value;
      ProductPositive(a, a, a * a);
      EstimatorBands.StrictScale(a, mean, 0.0);
      EstimatorBands.StrictScale(a * a, variance, 0.0);
      if Ready(cfg, w) {
        BandScale(cfg, variance, a);
        TimesSum(a, mean, Band(cfg, variance));
      }
    }
  }

  lemma WindowScale(obs: seq<real>, a: real, lo: nat, hi: nat)
    requires lo <= hi <= |obs|
    ensures Scale(obs, a)[lo..hi] == Scale(obs[lo..hi], a)
  {
  }

  lemma ReadyScale(cfg: Config, obs: seq<real>, a: real, n: nat)
    requires WellFormed(cfg) && cfg.kind == LogNormal && a > 0.0
    ensures ReadyAt(cfg, Scale(obs, a), n) <==> ReadyAt(cfg, obs, n)
  {
    if cfg.capacity <= n <= |obs| {
      WindowScale(obs, a, n - cfg.capacity, n);
      LimitScale(cfg, obs[n - cfg.capacity..n], a);
    }
  }

  lemma AverageScale(cfg: Config, obs: seq<real>, a: real, n: nat, t: nat)
    requires WellFormed(cfg) && cfg.kind == LogNormal && a > 0.0
    requires ReadyAt(cfg, obs, n) && ReadyAt(cfg, Scale(obs, a), n) && n <= t <= |obs|
    ensures Average(cfg, Scale(obs, a), n, t) == Times(a, Average(cfg, obs, n, t))
    ensures Upper(cfg, Scale(obs, a), n) == Times(a, Upper(cfg, obs, n))
  {
    WindowScale(obs, a, n - cfg.capacity, n);
    WindowScale(obs, a, n, t);
    LimitScale(cfg, obs[n - cfg.capacity..n], a);
    EwmaScale(cfg.lambda, Start(cfg, obs, n), obs[n..t], a);
  }

  lemma ReachesScale(cfg: Config, obs: seq<real>, a: real, n: nat, t: nat)
    requires WellFormed(cfg) && cfg.kind == LogNormal && a > 0.0
    requires ReadyAt(cfg, obs, n) && ReadyAt(cfg, Scale(obs, a), n)
    ensures Reaches(cfg, Scale(obs, a), n, t) <==> Reaches(cfg, obs, n, t)
  {
    if n < t <= |obs| {
      AverageScale(cfg, obs, a, n, t);
      EstimatorBands.StrictScale(a, Upper(cfg, obs, n), Average(cfg, obs, n, t));
    }
  }

  lemma VerdictScale(cfg: Config, obs: seq<real>, a: real, v: Verdict)
    requires WellFormed(cfg) && cfg.kind == LogNormal && a > 0.0 && Justified(cfg, obs, v)
    ensures Justified(cfg, Scale(obs, a), v)
  {
    forall n: nat
      ensures ReadyAt(cfg, Scale(obs, a), n) <==> ReadyAt(cfg, obs, n)
    {
      ReadyScale(cfg, obs, a, n);
    }
    if v.Testing? || v.Tripped? {
      forall t: nat
        ensures Reaches(cfg, Scale(obs, a), v.n, t) <==> Reaches(cfg, obs, v.n, t)
      {
        ReachesScale(cfg, obs, a, v.n, t);
      }
    }
  }

  /** The base of the logarithm does not matter: scaling every transformed observation takes the
      statistic through the same phases, with average and limit scaled, on every stream. */
  lemma ScaleEquivariant(cfg: Config, obs: seq<real>, a: real)
    requires WellFormed(cfg) && cfg.kind == LogNormal && a > 0.0
    ensures var r, r' := Run(cfg, Fresh(), obs), Run(cfg, Fresh(), Scale(obs, a));
            r'.phase == r.phase && r'.current == Times(a, r.current) && r'.limit == Times(a, r.limit)
  {
    var v := RunMeetsSpec(cfg, obs);
    VerdictScale(cfg, obs, a, v);
    FreshRunIsSpecified(cfg, Scale(obs, a), v);
    match v
    case Collecting =>
    case Testing(n) => AverageScale(cfg, obs, a, n, |obs|);
    case Tripped(n, t) => AverageScale(cfg, obs, a, n, t);
  }
}
