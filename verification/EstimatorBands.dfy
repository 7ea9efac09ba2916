/** The control band: what every run keeps between average and limit, exactly when it does,
    and how the band depends on lambda. */
module EstimatorBands {
  import opened Common
  import opened RealSums
  import opened Pdf
  import opened Estimator
  import opened EstimatorRuns
  import opened Smoothing
  import Series

  /** Testing means strictly inside the limit, tripped means at or past it. */
  predicate Banded(m: Model) {
    && (m.phase == TestingUCL ==> m.current < m.limit)
    && (m.phase == UCLTrip ==> m.current >= m.limit)
    && (m.phase == TestingLCL ==> m.current > m.limit)
    && (m.phase == LCLTrip ==> m.current <= m.limit)
  }

  /** The limit in force was computed from some full window that was a usable baseline. */
  ghost predicate Anchored(cfg: Config, m: Model)
    requires cfg.lambda != 2.0
  {
    && (m.phase in {TestingUCL, UCLTrip} ==>
          exists w :: |w| == cfg.capacity && Ready(cfg, w) && m.limit == LimitOf(cfg, w, 1))
    && (m.phase in {TestingLCL, LCLTrip} ==>
          exists w :: |w| == cfg.capacity && Ready(cfg, w) && m.limit == LimitOf(cfg, w, -1))
  }

  /** Manual transitions leave the testing and tripped phases to Record. */
  predicate Permitted(e: Event) {
    e.Manual? ==> e.to in {Reset, UCLInitial, LCLInitial}
  }

  ghost predicate AlwaysBanded(cfg: Config)
    requires cfg.lambda != 2.0
  {
    forall es: seq<Event> :: (forall e :: e in es ==> Permitted(e)) ==> Banded(RunEvents(cfg, Fresh(), es))
  }

  // ---------------------------------------------------------------- roots and ratios

  lemma RootPositive(sqrt: real -> real, v: real)
    requires IsSqrt(sqrt) && v > 0.0
    ensures sqrt(v) > 0.0
  {
    var r := sqrt(v);
    assert r >= 0.0 && r * r == v;
    assert r * r != 0.0 * r;
  }

  lemma RootMonotone(sqrt: real -> real, u: real, v: real)
    requires IsSqrt(sqrt) && 0.0 <= u <= v
    ensures sqrt(u) <= sqrt(v)
  {
    SquareOrder(sqrt(u), sqrt(v));
    assert sqrt(u) * sqrt(u) == u && sqrt(v) * sqrt(v) == v;
  }

  lemma SquareOrder(r: real, s: real)
    requires r >= 0.0 && s >= 0.0
    ensures r > s ==> r * r > s * s
  {
    if r > s {
      assert r * r - s * s == (r - s) * (r + s);
      ProductPositive(r - s, r + s, (r - s) * (r + s));
    }
  }

  lemma StrictScale(p: real, x: real, y: real)
    requires p > 0.0
    ensures x > y <==> x * p > y * p
  {
    assert x * p - y * p == (x - y) * p;
    if x > y {
      ProductPositive(x - y, p, (x - y) * p);
    } else {
      assert (y - x) * p >= 0.0;
    }
  }

  lemma RatioPositive(lam: real)
    requires 0.0 < lam <= 1.0
    ensures 0.0 < Ratio(lam) <= 1.0
  {
    var q, d := lam / (2.0 - lam), 2.0 - lam;
    assert q * d == lam;
    StrictScale(d, q, 0.0);
    StrictScale(d, q, 1.0);
  }

  lemma RatioMonotone(l: real, l': real)
    requires 0.0 < l <= l' <= 1.0
    ensures Ratio(l) <= Ratio(l')
  {
    var d, d' := 2.0 - l, 2.0 - l';
    var q, q' := l / d, l' / d';
    assert q * d == l && q' * d' == l';
    ProductPositive(d, d', d * d');
    StrictScale(d * d', q, q');
    assert q * (d * d') == (q * d) * d';
    assert q' * (d * d') == (q' * d') * d;
    assert l * d' <= l' * d by {
      assert l * d' == 2.0 * l - l * l';
      assert l' * d == 2.0 * l' - l * l';
    }
  }

  /** A positive variance gives a band of positive width exactly for a positive factor. */
  lemma BandPositiveIff(cfg: Config, variance: real)
    requires WellFormed(cfg) && variance > 0.0
    ensures Band(cfg, variance) > 0.0 <==> Factor(cfg) > 0.0
  {
    RatioPositive(cfg.lambda);
    var v := EstimatorVariance(cfg.lambda, variance);
    ProductPositive(Ratio(cfg.lambda), variance, v);
    RootPositive(cfg.sqrt, v);
    ScaleSign(Factor(cfg), cfg.sqrt(v));
  }

  lemma ScaleSign(k: real, r: real)
    requires r > 0.0
    ensures k * r > 0.0 <==> k > 0.0
  {
    if k > 0.0 {
      ProductPositive(k, r, k * r);
    } else {
      assert k * r <= 0.0 * r;
    }
  }

  /** Both limits lie k standard deviations of the average from the mean, where the variance of the
      average is the one that one more observation of the given variance leaves as it is. */
  lemma LimitIsKSigma(cfg: Config, mean: real, variance: real, direction: int, x: real, h: real)
    requires WellFormed(cfg) && variance >= 0.0
    requires IsSteady(cfg.lambda, variance, x) && h >= 0.0 && h * h == x
    ensures var k := if cfg.k.Some? then cfg.k.value else 5.7;
            Limit(cfg, mean, variance, direction) == if direction >= 0 then mean + k * h else mean - k * h
  {
    SteadyIff(cfg.lambda, variance, x);
    EstimatorVarianceMonotone(cfg.lambda, cfg.lambda, variance);
    OneRoot(cfg.sqrt(x), h, x);
  }

  lemma OneRoot(r: real, s: real, v: real)
    requires r >= 0.0 && s >= 0.0 && r * r == v && s * s == v
    ensures r == s
  {
    SquareOrder(r, s);
    SquareOrder(s, r);
  }

  /** A log-normal window has the unbiased sample variance, which the squared differences of its pairs
      give, and a Poisson window has its mean for variance. */
  predicate IsVariance(kind: Kind, w: seq<real>, v: real) {
    match kind
    case LogNormal => |w| >= 2 && Times((|w| * (|w| - 1)) as real, v) == PairSquares(w)
    case Poisson => Times(|w| as real, v) == Sum(w)
  }

  /** The limit that a usable window sets. */
  lemma WindowSetsLimit(cfg: Config, w: seq<real>, direction: int, v: real, x: real, h: real)
    requires WellFormed(cfg) && w != [] && Ready(cfg, w)
    requires IsVariance(cfg.kind, w, v) && IsSteady(cfg.lambda, v, x) && h >= 0.0 && h * h == x
    ensures var k := if cfg.k.Some? then cfg.k.value else 5.7;
            LimitOf(cfg, w, direction) == if direction >= 0 then Mean(w) + k * h else Mean(w) - k * h
  {
    VarianceIsUnique(cfg.kind, w, v);
    LimitIsKSigma(cfg, Mean(w), v, direction, x, h);
  }

  lemma VarianceIsUnique(kind: Kind, w: seq<real>, v: real)
    requires w != [] && IsVariance(kind, w, v)
    ensures Variance(kind, w, Mean(w)) == Some(v)
  {
    match kind
    case LogNormal =>
      VarianceByPairs(w);
      SameFactor((|w| * (|w| - 1)) as real, v, VarianceNormal(w, Mean(w)).value);
    case Poisson =>
      MeanIff(w, Mean(w));
      SameFactor(|w| as real, v, Mean(w));
  }

  lemma SameFactor(a: real, x: real, y: real)
    requires a != 0.0 && Times(a, x) == Times(a, y)
    ensures x == y
  {
    assert a * (x - y) == 0.0;
    if x != y {
      NonZeroProduct(a, x - y, a * (x - y));
    }
  }

  /** Which windows are usable: those with a positive mean and, for log-normal statistics, at least two
      different values. */
  lemma ReadyIff(cfg: Config, w: seq<real>)
    requires w != []
    ensures Ready(cfg, w) <==> Mean(w) > 0.0 && (cfg.kind == LogNormal ==> !Constant(w))
  {
    if cfg.kind == LogNormal && |w| >= 2 {
      VariancePositiveIff(w);
    }
  }

  /** The band widens with lambda, so for equal factor, mean and variance an EWMA statistic has its
      limits inside those of the Shewhart statistic, which is the one with lambda = 1. */
  lemma BandMonotoneInLambda(cfg: Config, l: real, mean: real, variance: real)
    requires WellFormed(cfg) && Factor(cfg) > 0.0 && variance >= 0.0 && cfg.lambda <= l <= 1.0
    ensures var wide := cfg.(lambda := l);
            && Limit(cfg, mean, variance, 1) <= Limit(wide, mean, variance, 1)
            && Limit(wide, mean, variance, -1) <= Limit(cfg, mean, variance, -1)
  {
    EstimatorVarianceMonotone(cfg.lambda, l, variance);
    RootMonotone(cfg.sqrt, EstimatorVariance(cfg.lambda, variance), EstimatorVariance(l, variance));
    Scale(Factor(cfg), cfg.sqrt(EstimatorVariance(cfg.lambda, variance)), cfg.sqrt(EstimatorVariance(l, variance)));
  }

  lemma EstimatorVarianceMonotone(l: real, l': real, variance: real)
    requires 0.0 < l <= l' <= 1.0 && variance >= 0.0
    ensures 0.0 <= EstimatorVariance(l, variance) <= EstimatorVariance(l', variance)
  {
    RatioMonotone(l, l');
    RatioPositive(l);
    Scale(variance, Ratio(l), Ratio(l'));
    Scale(variance, 0.0, Ratio(l));
  }

  lemma Scale(k: real, x: real, y: real)
    requires k >= 0.0 && x <= y
    ensures k * x <= k * y && x * k <= y * k
  {
  }

  // ---------------------------------------------------------------- every run

  lemma BaselineBanded(cfg: Config, w: seq<real>)
    requires WellFormed(cfg) && Ready(cfg, w)
    ensures Mean(w) < LimitOf(cfg, w, 1) <==> Factor(cfg) > 0.0
    ensures Mean(w) > LimitOf(cfg, w, -1) <==> Factor(cfg) > 0.0
  {
    BandPositiveIff(cfg, Variance(cfg.kind, w, Mean(w)).value);
  }

  lemma StepKeepsBand(cfg: Config, m: Model, e: Event)
    requires WellFormed(cfg) && Factor(cfg) > 0.0 && Permitted(e)
    requires Banded(m) && Anchored(cfg, m)
    ensures Banded(Exec(cfg, m, e)) && Anchored(cfg, Exec(cfg, m, e))
  {
    if e.Observe? && e.obs.Some? && m.phase in {UCLInitial, LCLInitial} {
      var log := m.log + [e.obs.value];
      var w := Series.View(cfg.capacity, log);
      if |log| >= cfg.capacity && Ready(cfg, w) {
        BaselineBanded(cfg, w);
      }
    }
  }

  /** On every run of records and permitted manual transitions the phase and the arithmetic agree,
      and the limit in force belongs to a usable baseline window. */
  lemma {:induction false} RunsStayBanded(cfg: Config, es: seq<Event>)
    requires WellFormed(cfg) && Factor(cfg) > 0.0
    requires forall e :: e in es ==> Permitted(e)
    ensures Banded(RunEvents(cfg, Fresh(), es)) && Anchored(cfg, RunEvents(cfg, Fresh(), es))
  {
    if es != [] {
      var front, e := es[..|es| - 1], es[|es| - 1];
      RunsStayBanded(cfg, front);
      StepKeepsBand(cfg, RunEvents(cfg, Fresh(), front), e);
    }
  }

  /** The configurations in which no window is ever a usable baseline: a single observation has
      no sample variance. */
  predicate NeverTests(cfg: Config) {
    cfg.capacity == 1 && cfg.kind == LogNormal
  }

  lemma {:induction false} NeverTestsCollects(cfg: Config, es: seq<Event>)
    requires WellFormed(cfg) && NeverTests(cfg)
    requires forall e :: e in es ==> Permitted(e)
    ensures RunEvents(cfg, Fresh(), es).phase in {Reset, UCLInitial, LCLInitial}
  {
    if es != [] {
      NeverTestsCollects(cfg, es[..|es| - 1]);
      assert es[|es| - 1] in es;
    }
  }

  /** Every run stays banded exactly when the control-limit factor is positive, which the source
      does not check, or the statistic can never start a test. */
  lemma BandedIffPositiveFactor(cfg: Config)
    requires WellFormed(cfg)
    ensures AlwaysBanded(cfg) <==> Factor(cfg) > 0.0 || NeverTests(cfg)
  {
    if Factor(cfg) > 0.0 {
      forall es: seq<Event> | forall e :: e in es ==> Permitted(e)
        ensures Banded(RunEvents(cfg, Fresh(), es))
      {
        RunsStayBanded(cfg, es);
      }
    } else if NeverTests(cfg) {
      forall es: seq<Event> | forall e :: e in es ==> Permitted(e)
        ensures Banded(RunEvents(cfg, Fresh(), es))
      {
        NeverTestsCollects(cfg, es);
      }
    } else {
      var es := WarmUp(cfg.capacity);
      WarmUpStartsTest(cfg);
      assert !Banded(RunEvents(cfg, Fresh(), es));
    }
  }

  function Ramp(n: nat): (w: seq<real>)
    ensures |w| == n && forall i :: 0 <= i < n ==> w[i] == if i == 0 then 1.0 else 2.0
  {
    seq(n, i => if i == 0 then 1.0 else 2.0)
  }

  function WarmUp(n: nat): (es: seq<Event>)
    ensures |es| == n && forall e :: e in es ==> Permitted(e)
  {
    seq(n, i requires 0 <= i < n => Observe(Some(Ramp(n)[i])))
  }

  lemma RampReady(cfg: Config)
    requires cfg.capacity >= 1 && !NeverTests(cfg)
    ensures Ready(cfg, Ramp(cfg.capacity))
  {
    var w := Ramp(cfg.capacity);
    SumPositive(w);
    var n := |w| as real;
    assert (Sum(w) / n) * n == Sum(w);
    assert Mean(w) > 0.0;
    if cfg.kind == LogNormal {
      assert w[0] != w[1];
      VariancePositiveIff(w);
    }
  }

  lemma {:induction false} WarmUpCollects(cfg: Config, k: nat)
    requires WellFormed(cfg) && k < cfg.capacity
    ensures RunEvents(cfg, Fresh(), WarmUp(cfg.capacity)[..k]) == Model(UCLInitial, Ramp(cfg.capacity)[..k], 0.0, 0.0)
  {
    if k > 0 {
      WarmUpCollects(cfg, k - 1);
      assert WarmUp(cfg.capacity)[..k][..k - 1] == WarmUp(cfg.capacity)[..k - 1];
      assert Ramp(cfg.capacity)[..k] == Ramp(cfg.capacity)[..k - 1] + [Ramp(cfg.capacity)[k - 1]];
    }
  }

  lemma WarmUpStartsTest(cfg: Config)
    requires WellFormed(cfg) && !NeverTests(cfg)
    ensures var m := RunEvents(cfg, Fresh(), WarmUp(cfg.capacity));
            m.phase == TestingUCL && (m.current < m.limit <==> Factor(cfg) > 0.0)
  {
    var n := cfg.capacity;
    var w := Ramp(n);
    WarmUpCollects(cfg, n - 1);
    assert w == w[..n - 1] + [w[n - 1]];
    assert Series.View(n, w) == w;
    RampReady(cfg);
    BaselineBanded(cfg, w);
  }

  /** Which manual transitions are harmless at all: from a banded model, exactly those the machine
      refuses, those to Reset or a collecting phase, and starting a test whose stale average
      happens to lie inside the stale limit.  Forcing a trip by hand never is. */
  lemma ManualKeepsBandIff(m: Model, to: Phase, resetSeries: bool)
    requires Banded(m)
    ensures Banded(Transition(m, to, resetSeries).0) <==>
              || !Edge(m.phase, to)
              || to in {Reset, UCLInitial, LCLInitial}
              || (to == TestingUCL && m.current < m.limit)
              || (to == TestingLCL && m.current > m.limit)
  {
  }

  // ---------------------------------------------------------------- two statistics of one test

  lemma SameBaselines(cfg: Config, wide: Config, obs: seq<real>, n: nat)
    requires wide == cfg.(lambda := wide.lambda)
    ensures ReadyAt(wide, obs, n) <==> ReadyAt(cfg, obs, n)
    ensures IsBaseline(wide, obs, n) <==> IsBaseline(cfg, obs, n)
  {
    forall m: nat
      ensures ReadyAt(wide, obs, m) <==> ReadyAt(cfg, obs, m)
    {
      assert cfg.capacity <= m <= |obs| ==>
          (Ready(wide, obs[m - cfg.capacity..m]) <==> Ready(cfg, obs[m - cfg.capacity..m]));
    }
  }

  lemma WiderUpper(cfg: Config, l: real, obs: seq<real>, n: nat)
    requires WellFormed(cfg) && Factor(cfg) > 0.0 && cfg.lambda <= l <= 1.0 && ReadyAt(cfg, obs, n)
    ensures var wide := cfg.(lambda := l);
            && ReadyAt(wide, obs, n) && Start(wide, obs, n) == Start(cfg, obs, n)
            && Upper(cfg, obs, n) <= Upper(wide, obs, n)
  {
    var w := obs[n - cfg.capacity..n];
    SameBaselines(cfg, cfg.(lambda := l), obs, n);
    BandMonotoneInLambda(cfg, l, Mean(w), Variance(cfg.kind, w, Mean(w)).value);
  }

  /** Statistics that differ only in lambda, as the EWMA and Shewhart statistics of a test do, leave
      their collecting phase at the same record, from the same mean, and the one with the larger lambda
      tests against a limit that is no smaller. */
  lemma StatisticsStartTogether(cfg: Config, l: real, obs: seq<real>)
    requires WellFormed(cfg) && Factor(cfg) > 0.0 && cfg.lambda <= l <= 1.0
    ensures var wide := cfg.(lambda := l);
            var r, r' := Run(cfg, Fresh(), obs), Run(wide, Fresh(), obs);
            && (r.phase == UCLInitial <==> r'.phase == UCLInitial)
            && (r.phase != UCLInitial ==> r.limit <= r'.limit)
            && (IsBaseline(cfg, obs, |obs|) ==>
                  r.phase == TestingUCL && r'.phase == TestingUCL && r.current == r'.current)
  {
    var wide := cfg.(lambda := l);
    var v := RunMeetsSpec(cfg, obs);
    var v' := RunMeetsSpec(wide, obs);
    VerdictsMatch(cfg, wide, obs, v, v');
    if !v.Collecting? {
      WiderUpper(cfg, l, obs, v.n);
    }
    if IsBaseline(cfg, obs, |obs|) {
      SameBaselines(cfg, wide, obs, |obs|);
      StartsAt(cfg, obs);
      StartsAt(wide, obs);
      WiderUpper(cfg, l, obs, |obs|);
    }
  }

  lemma VerdictsMatch(cfg: Config, wide: Config, obs: seq<real>, v: Verdict, v': Verdict)
    requires cfg.lambda != 2.0 && wide.lambda != 2.0 && wide == cfg.(lambda := wide.lambda)
    requires Justified(cfg, obs, v) && Justified(wide, obs, v')
    ensures v.Collecting? <==> v'.Collecting?
    ensures !v.Collecting? ==> v'.n == v.n && IsBaseline(cfg, obs, v.n)
  {
    forall n: nat
      ensures ReadyAt(wide, obs, n) <==> ReadyAt(cfg, obs, n)
    {
      SameBaselines(cfg, wide, obs, n);
    }
    if !v.Collecting? && !v'.Collecting? {
      assert ReadyAt(cfg, obs, v.n) && ReadyAt(wide, obs, v'.n);
      assert !(v.n < v'.n) && !(v'.n < v.n);
    }
  }

  lemma StartsAt(cfg: Config, obs: seq<real>)
    requires cfg.lambda != 2.0 && cfg.capacity >= 1 && IsBaseline(cfg, obs, |obs|)
    ensures Run(cfg, Fresh(), obs).phase == TestingUCL && Run(cfg, Fresh(), obs).current == Start(cfg, obs, |obs|)
  {
    FreshRunIsSpecified(cfg, obs, Testing(|obs|));
    assert obs[|obs|..] == [];
  }
}
