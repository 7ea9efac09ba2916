/** When a statistic that is testing a limit trips: an exact condition on the running average,
    comparison of two streams, bounds on the delay, and the mirror image of the upper and lower test. */
module EstimatorTrips {
  import opened Common
  import opened RealSums
  import opened Pdf
  import opened Estimator
  import opened EstimatorRuns
  import opened Smoothing

  /** The average over the first t observations is at or past the limit. */
  predicate Past(cfg: Config, m: Model, obs: seq<real>, t: nat) {
    0 < t <= |obs| && AtLimit(m, Ewma(cfg.lambda, m.current, obs[..t]))
  }

  ghost predicate HasPast(cfg: Config, m: Model, obs: seq<real>) {
    exists t: nat :: Past(cfg, m, obs, t)
  }

  lemma HasPastSnoc(cfg: Config, m: Model, obs: seq<real>)
    requires obs != []
    ensures HasPast(cfg, m, obs) <==>
              HasPast(cfg, m, obs[..|obs| - 1]) || AtLimit(m, Ewma(cfg.lambda, m.current, obs))
  {
    var n := |obs| - 1;
    assert obs[..n + 1] == obs;
    forall t: nat | t <= n
      ensures Past(cfg, m, obs, t) <==> Past(cfg, m, obs[..n], t)
    {
      assert obs[..n][..t] == obs[..t];
    }
    assert Past(cfg, m, obs, n + 1) <==> AtLimit(m, Ewma(cfg.lambda, m.current, obs));
  }

  /** From either testing phase the statistic has tripped exactly when the running average has been at
      or past the limit at some point; until then it is the running average. */
  lemma {:induction false} TrippedIff(cfg: Config, m: Model, obs: seq<real>)
    requires cfg.lambda != 2.0 && m.phase in {TestingUCL, TestingLCL}
    ensures var r := Run(cfg, m, obs);
            && r.limit == m.limit
            && r.phase == (if HasPast(cfg, m, obs) then TripOf(m.phase) else m.phase)
            && (r.phase == m.phase ==> r.current == Ewma(cfg.lambda, m.current, obs))
  {
    if obs != [] {
      var n := |obs| - 1;
      TrippedIff(cfg, m, obs[..n]);
      HasPastSnoc(cfg, m, obs);
      var before := Run(cfg, m, obs[..n]);
      if before.phase == m.phase {
        TestStep(cfg, before, obs[n]);
      }
    }
  }

  /** While testing either limit, the average is the exponentially weighted sum of everything since the
      baseline. */
  lemma TestingClosedForm(cfg: Config, m: Model, obs: seq<real>)
    requires cfg.lambda != 2.0 && m.phase in {TestingUCL, TestingLCL} && Run(cfg, m, obs).phase == m.phase
    ensures Run(cfg, m, obs).current == Weighted(cfg.lambda, m.current, obs)
  {
    TrippedIff(cfg, m, obs);
    ClosedForm(cfg.lambda, m.current, obs);
  }

  /** A stream that is nowhere smaller, from an average that is no smaller and against a limit that is
      no larger, trips an upper test no later; the smaller one trips a lower test no later. */
  lemma LargerStreamTripsNoLater(cfg: Config, m: Model, m': Model, obs: seq<real>, obs': seq<real>)
    requires 0.0 < cfg.lambda <= 1.0 && m.phase == m'.phase
    requires m.current <= m'.current && Pointwise(obs, obs')
    ensures m.phase == TestingUCL && m'.limit <= m.limit ==>
              (Run(cfg, m, obs).phase == UCLTrip ==> Run(cfg, m', obs').phase == UCLTrip)
    ensures m.phase == TestingLCL && m'.limit <= m.limit ==>
              (Run(cfg, m', obs').phase == LCLTrip ==> Run(cfg, m, obs).phase == LCLTrip)
  {
    if m.phase in {TestingUCL, TestingLCL} && m'.limit <= m.limit {
      TrippedIff(cfg, m, obs);
      TrippedIff(cfg, m', obs');
      forall t: nat | t <= |obs|
        ensures Ewma(cfg.lambda, m.current, obs[..t]) <= Ewma(cfg.lambda, m'.current, obs'[..t])
      {
        Monotone(cfg.lambda, m.current, m'.current, obs[..t], obs'[..t]);
      }
      if m.phase == TestingUCL && HasPast(cfg, m, obs) {
        var t: nat :| Past(cfg, m, obs, t);
        assert Past(cfg, m', obs', t);
      }
      if m.phase == TestingLCL && HasPast(cfg, m', obs') {
        var t: nat :| Past(cfg, m', obs', t);
        assert Past(cfg, m, obs, t);
      }
    }
  }

  // ---------------------------------------------------------------- bounds on the delay

  function Ceil(x: real): int {
    -((-x).Floor)
  }

  /** How far the average is from a stream `d` past the limit. */
  function Gap(m: Model, d: real): real {
    if m.phase == TestingLCL then m.current - m.limit + d else m.limit + d - m.current
  }

  /** `start` plus n steps of `gain`. */
  function Line(start: real, n: nat, gain: real): real {
    if n == 0 then start else Line(start, n - 1, gain) + gain
  }

  lemma {:induction false} LineIs(start: real, n: nat, gain: real)
    ensures Line(start, n, gain) == start + (n as real) * gain
  {
    if n > 0 {
      LineIs(start, n - 1, gain);
      assert n as real == (n - 1) as real + 1.0;
    }
  }

  lemma LineReaches(start: real, n: nat, gain: real, limit: real)
    requires gain > 0.0 && n >= Ceil((limit - start) / gain)
    ensures Line(start, n, gain) >= limit
  {
    var q := (limit - start) / gain;
    assert q * gain == limit - start;
    assert n as real >= q;
    assert (n as real - q) * gain >= 0.0;
    LineIs(start, n, gain);
  }

  /** Below the limit, an observation at least d past it raises the average by `gain` or more. */
  ghost predicate Gains(cfg: Config, limit: real, d: real, gain: real) {
    forall c: real, o: real :: c <= limit && o >= limit + d ==> Fold(cfg.lambda, c, o) >= c + gain
  }

  lemma GainStep(cfg: Config, before: Model, o: real, limit: real, d: real, gain: real)
    requires cfg.lambda != 2.0 && before.phase == TestingUCL && before.limit == limit && before.current < limit
    requires Gains(cfg, limit, d, gain) && o >= limit + d
    ensures var r := Record(cfg, before, Some(o)).0;
            r.phase == TestingUCL ==> before.current + gain <= r.current < limit
  {
    TestStep(cfg, before, o);
    assert Fold(cfg.lambda, before.current, o) >= before.current + gain;
  }

  lemma {:induction false} GainPerRecord(cfg: Config, m: Model, obs: seq<real>, d: real, gain: real)
    requires cfg.lambda != 2.0 && m.phase == TestingUCL && m.current < m.limit
    requires Gains(cfg, m.limit, d, gain)
    requires forall i :: 0 <= i < |obs| ==> obs[i] >= m.limit + d
    ensures var r := Run(cfg, m, obs);
            r.phase == TestingUCL ==> Line(m.current, |obs|, gain) <= r.current < m.limit
  {
    if obs != [] {
      var n := |obs| - 1;
      var before := Run(cfg, m, obs[..n]);
      GainPerRecord(cfg, m, obs[..n], d, gain);
      TrippedIff(cfg, m, obs[..n]);
      if before.phase == TestingUCL {
        GainStep(cfg, before, obs[n], m.limit, d, gain);
      }
    }
  }

  lemma TripsWithGain(cfg: Config, m: Model, obs: seq<real>, d: real, gain: real)
    requires cfg.lambda != 2.0 && m.phase == TestingUCL && m.current < m.limit
    requires Gains(cfg, m.limit, d, gain) && gain > 0.0
    requires forall i :: 0 <= i < |obs| ==> obs[i] >= m.limit + d
    requires |obs| >= Ceil(Gap(m, 0.0) / gain)
    ensures Run(cfg, m, obs).phase == UCLTrip
  {
    assert Gap(m, 0.0) == m.limit - m.current;
    LineReaches(m.current, |obs|, gain, m.limit);
    TrippedIff(cfg, m, obs);
    GainPerRecord(cfg, m, obs, d, gain);
  }

  /** If every observation exceeds the limit by at least d, the statistic has tripped after
      ceil((limit - current) / (lambda * d)) records. */
  lemma TripsWithin(cfg: Config, m: Model, obs: seq<real>, d: real)
    requires 0.0 < cfg.lambda <= 1.0 && m.phase == TestingUCL && m.current < m.limit && d > 0.0
    requires forall i :: 0 <= i < |obs| ==> obs[i] >= m.limit + d
    ensures cfg.lambda * d > 0.0
    ensures |obs| >= Ceil(Gap(m, 0.0) / (cfg.lambda * d)) ==> Run(cfg, m, obs).phase == UCLTrip
  {
    var gain := cfg.lambda * d;
    ProductPositive(cfg.lambda, d, gain);
    forall c: real, o: real | c <= m.limit && o >= m.limit + d
      ensures Fold(cfg.lambda, c, o) >= c + gain
    {
      FoldGains(cfg.lambda, c, o, m.limit, d, gain);
    }
    if |obs| >= Ceil(Gap(m, 0.0) / gain) {
      TripsWithGain(cfg, m, obs, d, gain);
    }
  }

  lemma PastConstantStream(cfg: Config, m: Model, obs: seq<real>, d: real, t: nat)
    requires t <= |obs| && m.phase == TestingUCL && forall i :: 0 <= i < |obs| ==> obs[i] == m.limit + d
    ensures Past(cfg, m, obs, t) <==> t >= 1 && Remaining(cfg.lambda, t, Gap(m, d)) <= d
  {
    GapGeometric(cfg.lambda, m.current, obs[..t], m.limit + d);
  }

  /** Against the constant stream limit + d the trip comes exactly at the first n >= 1 with
      (1 - lambda)^n * (limit - current + d) <= d. */
  lemma ConstantStreamTripsExactly(cfg: Config, m: Model, obs: seq<real>, d: real)
    requires 0.0 < cfg.lambda <= 1.0 && m.phase == TestingUCL && m.current < m.limit && d > 0.0
    requires forall i :: 0 <= i < |obs| ==> obs[i] == m.limit + d
    ensures Run(cfg, m, obs).phase == UCLTrip <==>
              |obs| >= 1 && Remaining(cfg.lambda, |obs|, Gap(m, d)) <= d
  {
    TrippedIff(cfg, m, obs);
    PastConstantStream(cfg, m, obs, d, |obs|);
    if Past(cfg, m, obs, |obs|) {
      assert HasPast(cfg, m, obs);
    }
    if t: nat :| Past(cfg, m, obs, t) {
      PastConstantStream(cfg, m, obs, d, t);
      RemainingShrinks(cfg.lambda, t, |obs|, Gap(m, d));
    }
  }

  // ---------------------------------------------------------------- mirror image

  /** `l` tests the lower limit where `u` tests the upper one, reflected about `mean`. */
  predicate Mirrored(mean: real, u: Model, l: Model) {
    && ((u.phase == TestingUCL && l.phase == TestingLCL) || (u.phase == UCLTrip && l.phase == LCLTrip))
    && l.current == mean + mean - u.current
    && l.limit == mean + mean - u.limit
  }

  lemma {:induction false} MirroredRun(cfg: Config, mean: real, u: Model, l: Model, obs: seq<real>)
    requires cfg.lambda != 2.0 && Mirrored(mean, u, l)
    ensures Mirrored(mean, Run(cfg, u, obs), Run(cfg, l, Reflect(obs, mean)))
  {
    if obs != [] {
      var n := |obs| - 1;
      MirroredRun(cfg, mean, u, l, obs[..n]);
      assert Reflect(obs, mean)[..n] == Reflect(obs[..n], mean);
      FoldReflect(cfg.lambda, Run(cfg, u, obs[..n]).current, obs[n], mean);
    }
  }

  /** Upper and lower testing are mirror images: from the same collected baseline, the lower test on
      the observations reflected about the baseline mean is at every step the reflection of the upper
      test on the originals, so both trip at the same step. */
  lemma MirrorImages(cfg: Config, u: Model, l: Model, o: real, obs: seq<real>)
    requires cfg.lambda != 2.0 && u.phase == UCLInitial && l.phase == LCLInitial && u.log == l.log
    ensures var u', l' := Record(cfg, u, Some(o)).0, Record(cfg, l, Some(o)).0;
            && (u'.phase == TestingUCL <==> l'.phase == TestingLCL)
            && (u'.phase == TestingUCL ==>
                  var mean := u'.current;
                  Mirrored(mean, Run(cfg, u', obs), Run(cfg, l', Reflect(obs, mean))))
  {
    var u', l' := Record(cfg, u, Some(o)).0, Record(cfg, l, Some(o)).0;
    if u'.phase == TestingUCL {
      var mean := u'.current;
      assert Mirrored(mean, u', l');
      MirroredRun(cfg, mean, u', l', obs);
    }
  }

  /** Testing a lower limit is testing the upper limit on everything negated. */
  lemma LowerIsMirror(cfg: Config, l: Model, obs: seq<real>)
    requires cfg.lambda != 2.0 && l.phase == TestingLCL
    ensures Mirrored(0.0, Run(cfg, Negated(l), Reflect(obs, 0.0)), Run(cfg, l, obs))
  {
    assert Reflect(Reflect(obs, 0.0), 0.0) == obs;
    MirroredRun(cfg, 0.0, Negated(l), l, Reflect(obs, 0.0));
  }

  function Negated(l: Model): (u: Model)
    requires l.phase == TestingLCL
    ensures forall d :: Gap(u, d) == Gap(l, d)
  {
    Model(TestingUCL, l.log, -l.current, -l.limit)
  }

  lemma LowerTripsAsUpper(cfg: Config, l: Model, obs: seq<real>)
    requires cfg.lambda != 2.0 && l.phase == TestingLCL
    ensures Run(cfg, l, obs).phase == LCLTrip <==> Run(cfg, Negated(l), Reflect(obs, 0.0)).phase == UCLTrip
  {
    LowerIsMirror(cfg, l, obs);
  }

  /** If every observation is below the lower limit by at least d, the statistic has tripped after
      ceil((current - limit) / (lambda * d)) records. */
  lemma LowerTripsWithin(cfg: Config, m: Model, obs: seq<real>, d: real)
    requires 0.0 < cfg.lambda <= 1.0 && m.phase == TestingLCL && m.current > m.limit && d > 0.0
    requires forall i :: 0 <= i < |obs| ==> obs[i] <= m.limit - d
    ensures cfg.lambda * d > 0.0
    ensures |obs| >= Ceil(Gap(m, 0.0) / (cfg.lambda * d)) ==> Run(cfg, m, obs).phase == LCLTrip
  {
    LowerTripsAsUpper(cfg, m, obs);
    TripsWithin(cfg, Negated(m), Reflect(obs, 0.0), d);
    assert Gap(Negated(m), 0.0) == Gap(m, 0.0);
  }

  /** Against the constant stream limit - d the lower trip comes exactly at the first n >= 1 with
      (1 - lambda)^n * (current - limit + d) <= d. */
  lemma LowerConstantStreamTripsExactly(cfg: Config, m: Model, obs: seq<real>, d: real)
    requires 0.0 < cfg.lambda <= 1.0 && m.phase == TestingLCL && m.current > m.limit && d > 0.0
    requires forall i :: 0 <= i < |obs| ==> obs[i] == m.limit - d
    ensures Run(cfg, m, obs).phase == LCLTrip <==> |obs| >= 1 && Remaining(cfg.lambda, |obs|, Gap(m, d)) <= d
  {
    LowerTripsAsUpper(cfg, m, obs);
    ConstantStreamTripsExactly(cfg, Negated(m), Reflect(obs, 0.0), d);
    assert Gap(Negated(m), d) == Gap(m, d);
  }
}
