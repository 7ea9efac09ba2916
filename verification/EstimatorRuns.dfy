/** What a fresh statistic does with a whole list of observations, stated without the state
    machine: where the baseline is, where the average first reaches the limit, and nothing after. */
module EstimatorRuns {
  import opened Common
  import opened Pdf
  import opened Estimator
  import opened Smoothing
  import Series

  /** The window of the last `capacity` observations ending before index n is a usable baseline. */
  predicate ReadyAt(cfg: Config, obs: seq<real>, n: nat) {
    cfg.capacity <= n <= |obs| && Ready(cfg, obs[n - cfg.capacity..n])
  }

  /** n is the first place with a usable baseline. */
  ghost predicate IsBaseline(cfg: Config, obs: seq<real>, n: nat) {
    ReadyAt(cfg, obs, n) && forall m: nat :: m < n ==> !ReadyAt(cfg, obs, m)
  }

  function Start(cfg: Config, obs: seq<real>, n: nat): real
    requires ReadyAt(cfg, obs, n)
  {
    Mean(obs[n - cfg.capacity..n])
  }

  function Upper(cfg: Config, obs: seq<real>, n: nat): real
    requires cfg.lambda != 2.0 && ReadyAt(cfg, obs, n)
  {
    LimitOf(cfg, obs[n - cfg.capacity..n], 1)
  }

  /** The average over the observations from the baseline at n up to index t. */
  function Average(cfg: Config, obs: seq<real>, n: nat, t: nat): real
    requires ReadyAt(cfg, obs, n) && n <= t <= |obs|
  {
    Ewma(cfg.lambda, Start(cfg, obs, n), obs[n..t])
  }

  predicate Reaches(cfg: Config, obs: seq<real>, n: nat, t: nat)
    requires cfg.lambda != 2.0 && ReadyAt(cfg, obs, n)
  {
    n < t <= |obs| && Average(cfg, obs, n, t) >= Upper(cfg, obs, n)
  }

  ghost predicate IsTrip(cfg: Config, obs: seq<real>, n: nat, t: nat)
    requires cfg.lambda != 2.0 && ReadyAt(cfg, obs, n)
  {
    Reaches(cfg, obs, n, t) && forall u: nat :: u < t ==> !Reaches(cfg, obs, n, u)
  }

  /** Still collecting, testing against the baseline at n, or tripped at t. */
  datatype Verdict = Collecting | Testing(n: nat) | Tripped(n: nat, t: nat)

  ghost predicate Justified(cfg: Config, obs: seq<real>, v: Verdict)
    requires cfg.lambda != 2.0
  {
    match v
    case Collecting => forall n: nat :: !ReadyAt(cfg, obs, n)
    case Testing(n) => IsBaseline(cfg, obs, n) && forall t: nat :: !Reaches(cfg, obs, n, t)
    case Tripped(n, t) => IsBaseline(cfg, obs, n) && IsTrip(cfg, obs, n, t)
  }

  ghost function ModelOf(cfg: Config, obs: seq<real>, v: Verdict): Model
    requires cfg.lambda != 2.0 && Justified(cfg, obs, v)
  {
    match v
    case Collecting => Model(UCLInitial, obs, 0.0, 0.0)
    case Testing(n) => Model(TestingUCL, obs, Average(cfg, obs, n, |obs|), Upper(cfg, obs, n))
    case Tripped(n, t) => Model(UCLTrip, obs, Average(cfg, obs, n, t), Upper(cfg, obs, n))
  }

  // ---------------------------------------------------------------- prefixes

  lemma ReadyAtPrefix(cfg: Config, obs: seq<real>, k: nat, n: nat)
    requires k <= |obs|
    ensures ReadyAt(cfg, obs[..k], n) <==> n <= k && ReadyAt(cfg, obs, n)
    ensures cfg.lambda != 2.0 && n <= k && ReadyAt(cfg, obs, n) ==>
              Start(cfg, obs[..k], n) == Start(cfg, obs, n) && Upper(cfg, obs[..k], n) == Upper(cfg, obs, n)
  {
    if cfg.capacity <= n <= k {
      assert obs[..k][n - cfg.capacity..n] == obs[n - cfg.capacity..n];
    }
  }

  lemma ReachesPrefix(cfg: Config, obs: seq<real>, k: nat, n: nat, t: nat)
    requires cfg.lambda != 2.0 && n <= k <= |obs| && ReadyAt(cfg, obs, n) && ReadyAt(cfg, obs[..k], n)
    ensures Reaches(cfg, obs[..k], n, t) <==> t <= k && Reaches(cfg, obs, n, t)
    ensures n <= t <= k ==> Average(cfg, obs[..k], n, t) == Average(cfg, obs, n, t)
  {
    ReadyAtPrefix(cfg, obs, k, n);
    if n <= t <= k {
      assert obs[..k][n..t] == obs[n..t];
    }
  }

  // ---------------------------------------------------------------- the refinement

  /** Extends a justified verdict by one observation. */
  function Extend(cfg: Config, obs: seq<real>, v: Verdict): Verdict
    requires cfg.lambda != 2.0
  {
    var k := |obs|;
    match v
    case Collecting => if ReadyAt(cfg, obs, k) then Testing(k) else Collecting
    case Testing(n) => if ReadyAt(cfg, obs, n) && Reaches(cfg, obs, n, k) then Tripped(n, k) else v
    case Tripped(_, _) => v
  }

  lemma ExtendJustified(cfg: Config, obs: seq<real>, v: Verdict)
    requires cfg.lambda != 2.0 && obs != [] && Justified(cfg, obs[..|obs| - 1], v)
    ensures Justified(cfg, obs, Extend(cfg, obs, v))
  {
    var k := |obs| - 1;
    forall n: nat
      ensures ReadyAt(cfg, obs[..k], n) <==> n <= k && ReadyAt(cfg, obs, n)
    {
      ReadyAtPrefix(cfg, obs, k, n);
    }
    if v.Testing? || v.Tripped? {
      forall t: nat
        ensures Reaches(cfg, obs[..k], v.n, t) <==> t <= k && Reaches(cfg, obs, v.n, t)
      {
        ReachesPrefix(cfg, obs, k, v.n, t);
      }
    }
  }

  lemma RecordCollecting(cfg: Config, front: seq<real>, o: real)
    requires cfg.lambda != 2.0 && cfg.capacity >= 1
    ensures var obs := front + [o];
            Record(cfg, Model(UCLInitial, front, 0.0, 0.0), Some(o)) ==
            (if ReadyAt(cfg, obs, |obs|)
             then Model(TestingUCL, obs, Average(cfg, obs, |obs|, |obs|), Upper(cfg, obs, |obs|))
             else Model(UCLInitial, obs, 0.0, 0.0), true)
  {
    var obs := front + [o];
    var n := |obs|;
    if n >= cfg.capacity {
      assert Series.View(cfg.capacity, obs) == obs[n - cfg.capacity..n];
      assert obs[n..n] == [];
    }
  }

  /** c is at or past the limit that m tests. */
  predicate AtLimit(m: Model, c: real) {
    if m.phase == TestingLCL then c <= m.limit else c >= m.limit
  }

  function TripOf(phase: Phase): Phase {
    if phase == TestingLCL then LCLTrip else UCLTrip
  }

  lemma TestStep(cfg: Config, before: Model, o: real)
    requires cfg.lambda != 2.0 && before.phase in {TestingUCL, TestingLCL}
    ensures var r, c := Record(cfg, before, Some(o)).0, Fold(cfg.lambda, before.current, o);
            && r.limit == before.limit && r.current == c
            && r.phase == if AtLimit(before, c) then TripOf(before.phase) else before.phase
  {
  }

  lemma AverageStep(cfg: Config, obs: seq<real>, n: nat)
    requires cfg.lambda != 2.0 && obs != [] && n <= |obs| - 1
    requires ReadyAt(cfg, obs, n)
    ensures var k := |obs| - 1;
            && ReadyAt(cfg, obs[..k], n)
            && Average(cfg, obs, n, k + 1) == Fold(cfg.lambda, Average(cfg, obs[..k], n, k), obs[k])
            && Upper(cfg, obs[..k], n) == Upper(cfg, obs, n)
  {
    var k := |obs| - 1;
    ReadyAtPrefix(cfg, obs, k, n);
    ReachesPrefix(cfg, obs, k, n, k);
    assert obs[n..k + 1][..k - n] == obs[n..k];
  }

  lemma ExtendTesting(cfg: Config, obs: seq<real>, n: nat)
    requires cfg.lambda != 2.0 && obs != []
    requires Justified(cfg, obs[..|obs| - 1], Testing(n)) && Justified(cfg, obs, Extend(cfg, obs, Testing(n)))
    ensures Record(cfg, ModelOf(cfg, obs[..|obs| - 1], Testing(n)), Some(obs[|obs| - 1])).0
         == ModelOf(cfg, obs, Extend(cfg, obs, Testing(n)))
  {
    var k := |obs| - 1;
    assert obs == obs[..k] + [obs[k]];
    ReadyAtPrefix(cfg, obs, k, n);
    AverageStep(cfg, obs, n);
    TestStep(cfg, ModelOf(cfg, obs[..k], Testing(n)), obs[k]);
  }

  lemma ExtendModel(cfg: Config, obs: seq<real>, v: Verdict)
    requires cfg.lambda != 2.0 && cfg.capacity >= 1
    requires obs != [] && Justified(cfg, obs[..|obs| - 1], v) && Justified(cfg, obs, Extend(cfg, obs, v))
    ensures Record(cfg, ModelOf(cfg, obs[..|obs| - 1], v), Some(obs[|obs| - 1])).0
         == ModelOf(cfg, obs, Extend(cfg, obs, v))
  {
    var k := |obs| - 1;
    assert obs == obs[..k] + [obs[k]];
    match v
    case Collecting => RecordCollecting(cfg, obs[..k], obs[k]);
    case Testing(n) => ExtendTesting(cfg, obs, n);
    case Tripped(n, t) =>
      ReadyAtPrefix(cfg, obs, k, n);
      ReachesPrefix(cfg, obs, k, n, t);
  }

  /** A fresh statistic ends in exactly the model its verdict describes. */
  lemma {:induction false} RunMeetsSpec(cfg: Config, obs: seq<real>) returns (v: Verdict)
    requires cfg.lambda != 2.0 && cfg.capacity >= 1
    ensures Justified(cfg, obs, v)
    ensures Run(cfg, Fresh(), obs) == ModelOf(cfg, obs, v)
  {
    if obs == [] {
      v := Collecting;
    } else {
      var w := RunMeetsSpec(cfg, obs[..|obs| - 1]);
      v := Extend(cfg, obs, w);
      ExtendJustified(cfg, obs, w);
      ExtendModel(cfg, obs, w);
    }
  }

  lemma VerdictUnique(cfg: Config, obs: seq<real>, v: Verdict, w: Verdict)
    requires cfg.lambda != 2.0 && Justified(cfg, obs, v) && Justified(cfg, obs, w)
    ensures v == w
  {
    if v.Testing? || v.Tripped? {
      assert ReadyAt(cfg, obs, v.n);
      assert w.Testing? || w.Tripped?;
      assert !(v.n < w.n) && !(w.n < v.n);
      if v.Tripped? && w.Tripped? {
        assert !(v.t < w.t) && !(w.t < v.t);
      }
    }
  }

  /** The whole run of a fresh statistic is determined by the specification, for every list of
      defined observations: state, average, limit and recorded series. */
  lemma FreshRunIsSpecified(cfg: Config, obs: seq<real>, v: Verdict)
    requires cfg.lambda != 2.0 && cfg.capacity >= 1
    requires Justified(cfg, obs, v)
    ensures Run(cfg, Fresh(), obs) == ModelOf(cfg, obs, v)
  {
    var w := RunMeetsSpec(cfg, obs);
    VerdictUnique(cfg, obs, v, w);
  }

  // ---------------------------------------------------------------- undefined observations

  function Defined(raw: seq<Option<real>>): seq<real> {
    if raw == [] then []
    else
      var o := raw[|raw| - 1];
      Defined(raw[..|raw| - 1]) + if o.Some? then [o.value] else []
  }

  function Observations(raw: seq<Option<real>>): seq<Event> {
    seq(|raw|, i requires 0 <= i < |raw| => Observe(raw[i]))
  }

  lemma RunSnoc(cfg: Config, m: Model, obs: seq<real>, o: real)
    requires cfg.lambda != 2.0
    ensures Run(cfg, m, obs + [o]) == Record(cfg, Run(cfg, m, obs), Some(o)).0
  {
    assert (obs + [o])[..|obs|] == obs;
  }

  /** Observations whose transform is undefined leave no trace. */
  lemma {:induction false} UndefinedLeavesNoTrace(cfg: Config, m: Model, raw: seq<Option<real>>)
    requires cfg.lambda != 2.0
    ensures RunEvents(cfg, m, Observations(raw)) == Run(cfg, m, Defined(raw))
  {
    if raw != [] {
      var n := |raw| - 1;
      UndefinedLeavesNoTrace(cfg, m, raw[..n]);
      assert Observations(raw)[..n] == Observations(raw[..n]);
      var before := Run(cfg, m, Defined(raw[..n]));
      assert RunEvents(cfg, m, Observations(raw)) == Record(cfg, before, raw[n]).0;
      if raw[n].Some? {
        RunSnoc(cfg, m, Defined(raw[..n]), raw[n].value);
      } else {
        assert Defined(raw) == Defined(raw[..n]);
      }
    }
  }
}
