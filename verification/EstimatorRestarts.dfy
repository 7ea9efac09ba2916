/** What records do to a statistic in any state: from either collecting phase, whatever it has recorded
    and whatever stale average and limit it holds, and from either testing phase. */
module EstimatorRestarts {
  import opened Common
  import opened Estimator
  import opened EstimatorRuns
  import opened EstimatorTrips
  import opened Pdf
  import opened Smoothing
  import Series

  lemma {:induction false} RunAppend(cfg: Config, m: Model, a: seq<real>, b: seq<real>)
    requires cfg.lambda != 2.0
    ensures Run(cfg, m, a + b) == Run(cfg, Run(cfg, m, a), b)
    decreases |b|
  {
    if b == [] {
      assert a + b == a;
    } else {
      assert (a + b)[..|a + b| - 1] == a + b[..|b| - 1];
      RunAppend(cfg, m, a, b[..|b| - 1]);
    }
  }

  /** Every record is kept in the series, in every phase but Reset, which no record leads to. */
  lemma {:induction false} LogGrows(cfg: Config, m: Model, obs: seq<real>)
    requires cfg.lambda != 2.0 && m.phase != Reset
    ensures Run(cfg, m, obs).log == m.log + obs && Run(cfg, m, obs).phase != Reset
  {
    if obs == [] {
      assert m.log + obs == m.log;
    } else {
      var n := |obs| - 1;
      LogGrows(cfg, m, obs[..n]);
      assert m.log + obs[..n] + [obs[n]] == m.log + obs;
    }
  }

  // ---------------------------------------------------------------- collecting

  function TestOf(phase: Phase): Phase {
    if phase == LCLInitial then TestingLCL else TestingUCL
  }

  function Side(phase: Phase): int {
    if phase == LCLInitial then -1 else 1
  }

  /** The window of the last `capacity` records ending at n, which is after the first new one, is a usable
      baseline. */
  predicate UsableAt(cfg: Config, m: Model, obs: seq<real>, n: nat) {
    n > |m.log| && ReadyAt(cfg, m.log + obs, n)
  }

  ghost predicate FirstUsable(cfg: Config, m: Model, obs: seq<real>, n: nat) {
    UsableAt(cfg, m, obs, n) && forall k: nat :: k < n ==> !UsableAt(cfg, m, obs, k)
  }

  /** The statistic that starts testing with the window ending at n. */
  function Started(cfg: Config, m: Model, obs: seq<real>, n: nat): Model
    requires cfg.lambda != 2.0 && UsableAt(cfg, m, obs, n)
  {
    var window := (m.log + obs)[n - cfg.capacity..n];
    Model(TestOf(m.phase), (m.log + obs)[..n], Mean(window), LimitOf(cfg, window, Side(m.phase)))
  }

  lemma UsablePrefix(cfg: Config, m: Model, obs: seq<real>, k: nat, n: nat)
    requires k <= |obs|
    ensures UsableAt(cfg, m, obs[..k], n) <==> n <= |m.log| + k && UsableAt(cfg, m, obs, n)
  {
    assert m.log + obs[..k] == (m.log + obs)[..|m.log| + k];
    ReadyAtPrefix(cfg, m.log + obs, |m.log| + k, n);
  }

  lemma CollectingStep(cfg: Config, m: Model, o: real)
    requires cfg.lambda != 2.0 && cfg.capacity >= 1 && m.phase in {UCLInitial, LCLInitial}
    ensures var n := |m.log| + 1;
            Record(cfg, m, Some(o)).0 ==
            if UsableAt(cfg, m, [o], n) then Started(cfg, m, [o], n) else m.(log := m.log + [o])
  {
    var all := m.log + [o];
    var n := |all|;
    if n >= cfg.capacity {
      assert Series.View(cfg.capacity, all) == all[n - cfg.capacity..n];
      assert all[..n] == all;
    }
  }

  /** A collecting statistic changes nothing but its series until a full window is usable. */
  lemma {:induction false} CollectsUntilUsable(cfg: Config, m: Model, obs: seq<real>)
    requires cfg.lambda != 2.0 && cfg.capacity >= 1 && m.phase in {UCLInitial, LCLInitial}
    requires forall n: nat :: !UsableAt(cfg, m, obs, n)
    ensures Run(cfg, m, obs) == m.(log := m.log + obs)
  {
    if obs == [] {
      assert m.log + obs == m.log;
    } else {
      var k := |obs| - 1;
      forall n: nat
        ensures !UsableAt(cfg, m, obs[..k], n)
      {
        UsablePrefix(cfg, m, obs, k, n);
      }
      CollectsUntilUsable(cfg, m, obs[..k]);
      var before := m.(log := m.log + obs[..k]);
      CollectingStep(cfg, before, obs[k]);
      assert before.log + [obs[k]] == m.log + obs;
      assert !UsableAt(cfg, m, obs, |m.log| + |obs|);
    }
  }

  lemma CollectsBeforeFirstUsable(cfg: Config, m: Model, obs: seq<real>, n: nat, j: nat)
    requires cfg.lambda != 2.0 && cfg.capacity >= 1 && m.phase in {UCLInitial, LCLInitial}
    requires FirstUsable(cfg, m, obs, n) && n == |m.log| + j + 1
    ensures Run(cfg, m, obs[..j]) == m.(log := m.log + obs[..j])
  {
    forall k: nat
      ensures !UsableAt(cfg, m, obs[..j], k)
    {
      UsablePrefix(cfg, m, obs, j, k);
    }
    CollectsUntilUsable(cfg, m, obs[..j]);
  }

  /** What starts does not depend on which of the records were made before. */
  lemma SameStart(cfg: Config, m: Model, obs: seq<real>, n: nat, j: nat)
    requires cfg.lambda != 2.0 && UsableAt(cfg, m, obs, n) && n == |m.log| + j + 1
    ensures var before := m.(log := m.log + obs[..j]);
            UsableAt(cfg, before, [obs[j]], n) && Started(cfg, before, [obs[j]], n) == Started(cfg, m, obs, n)
  {
    var all := m.log + obs;
    assert (m.log + obs[..j]) + [obs[j]] == all[..n];
    ReadyAtPrefix(cfg, all, n, n);
    assert all[..n][n - cfg.capacity..n] == all[n - cfg.capacity..n];
    assert all[..n][..n] == all[..n];
  }

  lemma StartingStep(cfg: Config, m: Model, obs: seq<real>, n: nat, j: nat)
    requires cfg.lambda != 2.0 && cfg.capacity >= 1 && m.phase in {UCLInitial, LCLInitial}
    requires UsableAt(cfg, m, obs, n) && n == |m.log| + j + 1
    ensures Record(cfg, m.(log := m.log + obs[..j]), Some(obs[j])).0 == Started(cfg, m, obs, n)
  {
    SameStart(cfg, m, obs, n, j);
    CollectingStep(cfg, m.(log := m.log + obs[..j]), obs[j]);
  }

  /** Testing starts with the first usable window, from its mean and with the limit of the right side,
      whatever the statistic held before. */
  lemma StartsAtFirstUsable(cfg: Config, m: Model, obs: seq<real>, n: nat)
    requires cfg.lambda != 2.0 && cfg.capacity >= 1 && m.phase in {UCLInitial, LCLInitial}
    requires FirstUsable(cfg, m, obs, n)
    ensures Run(cfg, m, obs[..n - |m.log|]) == Started(cfg, m, obs, n)
  {
    var j := n - |m.log| - 1;
    CollectsBeforeFirstUsable(cfg, m, obs, n, j);
    StartingStep(cfg, m, obs, n, j);
    RunSnoc(cfg, m, obs[..j], obs[j]);
    assert obs[..n - |m.log|] == obs[..j] + [obs[j]];
  }

  // ---------------------------------------------------------------- testing

  /** The average first reaches the limit after t records. */
  ghost predicate FirstPast(cfg: Config, m: Model, obs: seq<real>, t: nat) {
    Past(cfg, m, obs, t) && forall u: nat :: u < t ==> !Past(cfg, m, obs, u)
  }

  /** An alarm is latched: records are kept and change nothing else. */
  lemma {:induction false} AlarmedRun(cfg: Config, m: Model, obs: seq<real>)
    requires cfg.lambda != 2.0 && m.phase in {UCLTrip, LCLTrip}
    ensures Run(cfg, m, obs) == m.(log := m.log + obs)
  {
    if obs == [] {
      assert m.log + obs == m.log;
    } else {
      var n := |obs| - 1;
      AlarmedRun(cfg, m, obs[..n]);
      assert m.log + obs[..n] + [obs[n]] == m.log + obs;
    }
  }

  lemma TripsAtFirstPast(cfg: Config, m: Model, obs: seq<real>, t: nat)
    requires cfg.lambda != 2.0 && m.phase in {TestingUCL, TestingLCL} && FirstPast(cfg, m, obs, t)
    ensures Run(cfg, m, obs[..t]) ==
            Model(TripOf(m.phase), m.log + obs[..t], Ewma(cfg.lambda, m.current, obs[..t]), m.limit)
  {
    var k := t - 1;
    assert obs[..t] == obs[..k] + [obs[k]];
    forall u: nat
      ensures !Past(cfg, m, obs[..k], u)
    {
      if u <= k {
        assert obs[..k][..u] == obs[..u];
        assert !Past(cfg, m, obs, u);
      }
    }
    TrippedIff(cfg, m, obs[..k]);
    RunSnoc(cfg, m, obs[..k], obs[k]);
    assert obs[..t][..k] == obs[..k];
    TestStep(cfg, Run(cfg, m, obs[..k]), obs[k]);
    LogGrows(cfg, m, obs[..t]);
  }

  /** The whole run of a testing statistic: the weighted average until it first reaches the limit, and
      frozen from there on. */
  lemma TestingRunIsSpecified(cfg: Config, m: Model, obs: seq<real>)
    requires cfg.lambda != 2.0 && m.phase in {TestingUCL, TestingLCL}
    ensures var r := Run(cfg, m, obs);
            && (!HasPast(cfg, m, obs) ==>
                  r == Model(m.phase, m.log + obs, Ewma(cfg.lambda, m.current, obs), m.limit))
            && (forall t: nat :: FirstPast(cfg, m, obs, t) ==>
                  r == Model(TripOf(m.phase), m.log + obs, Ewma(cfg.lambda, m.current, obs[..t]), m.limit))
    ensures Alarmed(Run(cfg, m, obs)) <==> HasPast(cfg, m, obs)
  {
    TrippedIff(cfg, m, obs);
    LogGrows(cfg, m, obs);
    forall t: nat | FirstPast(cfg, m, obs, t)
      ensures Run(cfg, m, obs) ==
              Model(TripOf(m.phase), m.log + obs, Ewma(cfg.lambda, m.current, obs[..t]), m.limit)
    {
      TripsAtFirstPast(cfg, m, obs, t);
      assert obs == obs[..t] + obs[t..];
      RunAppend(cfg, m, obs[..t], obs[t..]);
      AlarmedRun(cfg, Run(cfg, m, obs[..t]), obs[t..]);
    }
  }

  // ---------------------------------------------------------------- the whole run

  /** A run from Reset is a collecting run with one value recorded. */
  lemma RestartedRun(cfg: Config, m: Model, o: real, obs: seq<real>)
    requires cfg.lambda != 2.0 && m.phase == Reset
    ensures Run(cfg, m, [o] + obs) ==
            Run(cfg, Model(UCLInitial, [o], Fold(cfg.lambda, m.current, o), m.limit), obs)
  {
    RunAppend(cfg, m, [o], obs);
    RunSnoc(cfg, m, [], o);
    assert [] + [o] == [o];
  }

  lemma RunFromFirstUsable(cfg: Config, m: Model, obs: seq<real>, n: nat)
    requires cfg.lambda != 2.0 && cfg.capacity >= 1 && m.phase in {UCLInitial, LCLInitial}
    requires FirstUsable(cfg, m, obs, n)
    ensures var start, rest := Started(cfg, m, obs, n), obs[n - |m.log|..];
            Run(cfg, m, obs) == Run(cfg, start, rest) && start.log + rest == m.log + obs
  {
    var j := n - |m.log|;
    StartsAtFirstUsable(cfg, m, obs, n);
    assert obs == obs[..j] + obs[j..];
    RunAppend(cfg, m, obs[..j], obs[j..]);
    assert (m.log + obs)[..n] + obs[j..] == m.log + obs;
  }

  /** The fate of a statistic that started testing at n. */
  ghost predicate TestsFrom(cfg: Config, m: Model, obs: seq<real>, n: nat)
    requires cfg.lambda != 2.0 && UsableAt(cfg, m, obs, n)
  {
    var start, rest, r := Started(cfg, m, obs, n), obs[n - |m.log|..], Run(cfg, m, obs);
    && (!HasPast(cfg, start, rest) ==>
          r == Model(start.phase, m.log + obs, Ewma(cfg.lambda, start.current, rest), start.limit))
    && (forall t: nat :: FirstPast(cfg, start, rest, t) ==>
          r == Model(TripOf(start.phase), m.log + obs, Ewma(cfg.lambda, start.current, rest[..t]), start.limit))
  }

  /** The whole run of a collecting statistic, on either side, with any series, average and limit: it
      collects until the first usable window, tests from there with that window's mean and limit, and
      trips and freezes at the first average at or past the limit. */
  lemma CollectingRunIsSpecified(cfg: Config, m: Model, obs: seq<real>)
    requires cfg.lambda != 2.0 && cfg.capacity >= 1 && m.phase in {UCLInitial, LCLInitial}
    ensures (forall n: nat :: !UsableAt(cfg, m, obs, n)) ==> Run(cfg, m, obs) == m.(log := m.log + obs)
    ensures forall n: nat :: FirstUsable(cfg, m, obs, n) ==> TestsFrom(cfg, m, obs, n)
  {
    if forall n: nat :: !UsableAt(cfg, m, obs, n) {
      CollectsUntilUsable(cfg, m, obs);
    }
    forall n: nat | FirstUsable(cfg, m, obs, n)
      ensures TestsFrom(cfg, m, obs, n)
    {
      RunFromFirstUsable(cfg, m, obs, n);
      TestingRunIsSpecified(cfg, Started(cfg, m, obs, n), obs[n - |m.log|..]);
    }
  }
}
