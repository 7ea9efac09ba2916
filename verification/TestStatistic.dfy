/** The estimator as an object over its ring buffer and machine (pkg/stat/estimator.go), proved to
    take exactly the steps of module Estimator, and tests over several statistics (pkg/stat/stattest.go). */
module TestStatistics {
  import opened Common
  import opened Estimator
  import Pdf
  import Fsm
  import Series

  // ---------------------------------------------------------------- the machine

  lemma {:induction false} FlattenMember<S>(groups: seq<seq<Fsm.Edge<S>>>, e: Fsm.Edge<S>)
    ensures e in Fsm.Flatten(groups) <==> exists i :: 0 <= i < |groups| && e in groups[i]
  {
    if groups != [] {
      var n := |groups| - 1;
      FlattenMember(groups[..n], e);
      if i :| 0 <= i < |groups| && e in groups[i] {
        if i < n {
          assert e in groups[..n][i];
        }
      }
    }
  }

  /** The transitions the source lists, one group a phase. */
  method Groups() returns (groups: seq<seq<Fsm.Edge<Phase>>>)
    ensures AllGroups(groups)
  {
    var reset := EdgesFrom(Reset);
    var uclInitial := EdgesFrom(UCLInitial);
    var testingUCL := EdgesFrom(TestingUCL);
    var uclTrip := EdgesFrom(UCLTrip);
    var lclInitial := EdgesFrom(LCLInitial);
    var testingLCL := EdgesFrom(TestingLCL);
    var lclTrip := EdgesFrom(LCLTrip);
    groups := [reset, uclInitial, testingUCL, uclTrip, lclInitial, testingLCL, lclTrip];
  }

  /** The machine the source builds has exactly the transitions of Estimator.Edge. */
  method NewMachine(initial: Phase) returns (m: Fsm.Machine<Phase>)
    ensures fresh(m) && m.current == initial && !m.stopOnError && EdgesMatch(m.Abs())
  {
    var groups := Groups();
    m := new Fsm.Machine(initial, [Fsm.WithTransitions(groups)]);
    GroupsMatch(groups);
  }

  method EdgesFrom(p: Phase) returns (group: seq<Fsm.Edge<Phase>>)
    ensures GroupOf(p, group)
  {
    group := Fsm.T(p, Successors(p));
  }

  /** Group i declares exactly the edges out of phase i. */
  ghost predicate GroupOf(p: Phase, group: seq<Fsm.Edge<Phase>>) {
    forall e: Fsm.Edge<Phase> :: e in group <==> e.from == p && e.to in Successors(p)
  }

  ghost predicate AllGroups(groups: seq<seq<Fsm.Edge<Phase>>>) {
    |groups| == 7 && forall p: Phase :: GroupOf(p, groups[PhaseIndex(p)])
  }

  lemma GroupsMatch(groups: seq<seq<Fsm.Edge<Phase>>>)
    requires AllGroups(groups)
    ensures var es := Fsm.DeclaredEdges([Fsm.WithTransitions(groups)]);
            forall from, to :: to in Fsm.Targets(Fsm.AddEdges(map[], es), from) <==> Edge(from, to)
  {
    SingleOption(groups);
    forall from: Phase, to: Phase
      ensures to in Fsm.Targets(Fsm.AddEdges(map[], Fsm.Flatten(groups)), from) <==> Edge(from, to)
    {
      var e := Fsm.Edge(from, to);
      Fsm.MapHoldsDeclaredEdges(Fsm.Flatten(groups), from, to);
      FlattenMember(groups, e);
      assert GroupOf(from, groups[PhaseIndex(from)]);
      if i :| 0 <= i < |groups| && e in groups[i] {
        assert GroupOf(PhaseAt(i), groups[PhaseIndex(PhaseAt(i))]);
      }
    }
  }

  function PhaseAt(i: nat): (p: Phase)
    requires i < 7
    ensures PhaseIndex(p) == i
  {
    [Reset, UCLInitial, TestingUCL, UCLTrip, LCLInitial, TestingLCL, LCLTrip][i]
  }

  lemma SingleOption(groups: seq<seq<Fsm.Edge<Phase>>>)
    ensures Fsm.DeclaredEdges([Fsm.WithTransitions(groups)]) == Fsm.Flatten(groups)
  {
    var opts := [Fsm.WithTransitions(groups)];
    assert opts[..0] == [];
  }

  function PhaseIndex(p: Phase): (i: nat)
    ensures i < 7
  {
    match p
    case Reset => 0
    case UCLInitial => 1
    case TestingUCL => 2
    case UCLTrip => 3
    case LCLInitial => 4
    case TestingLCL => 5
    case LCLTrip => 6
  }

  ghost predicate EdgesMatch(m: Fsm.MachineState<Phase>) {
    forall from, to :: Fsm.Allows(m, from, to) <==> Edge(from, to)
  }

  // ---------------------------------------------------------------- one statistic

  /** The range of lambda for which limits are finite numbers. */
  predicate Finite(cfg: Config) {
    0.0 <= cfg.lambda < 2.0
  }

  lemma RatioRoot(lam: real, variance: real)
    requires 0.0 <= lam < 2.0 && variance > 0.0
    ensures EstimatorVariance(lam, variance) >= 0.0
  {
    var ratio := Ratio(lam);
    assert ratio * (2.0 - lam) == lam;
    if ratio < 0.0 {
      Pdf.ProductPositive(-ratio, 2.0 - lam, -ratio * (2.0 - lam));
    } else if ratio > 0.0 {
      Pdf.ProductPositive(ratio, variance, ratio * variance);
    }
  }

  class TestStatistic {
    const cfg: Config
    const series: Series.Series
    const fsm: Fsm.Machine<Phase>
    var current: real
    var limit: real

    ghost predicate Valid()
      reads Parts()
    {
      && series.Valid() && series.values.Length == cfg.capacity && cfg.capacity >= 1
      && !fsm.stopOnError && EdgesMatch(fsm.Abs())
    }

    ghost function Parts(): set<object> {
      {this, series, series.values, fsm}
    }

    ghost function Abs(): Model
      reads this, series, fsm
    {
      Model(fsm.current, series.log, current, limit)
    }

    constructor (cfg: Config, series: Series.Series, machine: Fsm.Machine<Phase>)
      requires series.Valid() && series.log == [] && series.values.Length == cfg.capacity >= 1
      requires machine.current == UCLInitial && !machine.stopOnError && EdgesMatch(machine.Abs())
      ensures Valid() && Abs() == Fresh()
      ensures this.cfg == cfg && this.series == series && fsm == machine
    {
      this.cfg := cfg;
      this.series := series;
      fsm := machine;
      current := 0.0;
      limit := 0.0;
    }

    twostate lemma Untouched()
      requires old(Valid()) && unchanged(Parts())
      ensures Valid() && Abs() == old(Abs())
    {
    }

    method Move(to: Phase) returns (ok: bool)
      requires Valid()
      modifies fsm
      ensures Valid() && ok == Edge(old(fsm.current), to)
      ensures fsm.current == if ok then to else old(fsm.current)
    {
      assert Fsm.Allows(fsm.Abs(), fsm.current, to) <==> Edge(fsm.current, to);
      var r := fsm.Transition(to);
      ok := r == Fsm.Ok;
      assert forall from, t :: Fsm.Allows(fsm.Abs(), from, t) <==> Fsm.Allows(old(fsm.Abs()), from, t);
    }

    /** A manual transition, optionally emptying the series first. */
    method Transition(to: Phase, resetSeries: bool) returns (ok: bool)
      requires Valid()
      modifies Parts()
      ensures Valid() && (Abs(), ok) == Estimator.Transition(old(Abs()), to, resetSeries)
    {
      if resetSeries {
        series.Reset();
      }
      ok := Move(to);
    }

    method CalculateCurrent(o: real)
      modifies this`current
      ensures current == Fold(cfg.lambda, old(current), o)
    {
      current := cfg.lambda * o + (1.0 - cfg.lambda) * current;
    }

    /** None is a limit that is no finite number: a division by zero or the root of a negative number. */
    method CalculateLimit(mean: real, variance: real, direction: int) returns (l: Option<real>)
      ensures l == if cfg.lambda == 2.0 || EstimatorVariance(cfg.lambda, variance) < 0.0 then None
                   else Some(Limit(cfg, mean, variance, direction))
    {
      if cfg.lambda == 2.0 {
        return None;
      }
      var estimatorVariance := EstimatorVariance(cfg.lambda, variance);
      if estimatorVariance < 0.0 {
        return None;
      }
      var k := if cfg.k.Some? then cfg.k.value else 5.7;
      var band := k * cfg.sqrt(estimatorVariance);
      assert band == Band(cfg, variance);
      if direction >= 0 {
        l := Some(mean + band);
      } else {
        l := Some(mean - band);
      }
    }

    method Estimate(values: seq<real>) returns (mean: real, variance: Option<real>)
      ensures mean == Pdf.Mean(values) && variance == Pdf.Variance(cfg.kind, values, mean)
    {
      mean := Pdf.MeanNormal(values);
      match cfg.kind {
        case LogNormal => variance := Pdf.VarianceNormalLoop(values, mean);
        case Poisson => variance := Some(mean);
      }
    }

    /** The collecting phases: start testing once the ring is full and usable. */
    method TryBaseline(testing: Phase, direction: int) returns (ok: bool)
      requires Valid() && Finite(cfg) && Edge(fsm.current, testing)
      modifies this, fsm
      ensures Valid() && ok && Abs() == Baseline(cfg, old(Abs()), testing, direction)
    {
      ok := true;
      if series.Count() >= series.Capacity() {
        var values := series.Values();
        var mean, variance := Estimate(values);
        if mean > 0.0 && variance.Some? && variance.value > 0.0 {
          assert Ready(cfg, values);
          ok := Move(testing);
          current := mean;
          RatioRoot(cfg.lambda, variance.value);
          var l := CalculateLimit(mean, variance.value, direction);
          limit := l.value;
        }
      }
    }

    /** Folds the observation in and trips when the limit is reached. */
    method TestAgainst(o: real, trip: Phase) returns (ok: bool)
      requires Valid() && trip in {UCLTrip, LCLTrip}
      modifies this, fsm
      ensures Valid() && (Abs(), ok) == Estimator.Test(cfg, old(Abs()), o, trip)
    {
      CalculateCurrent(o);
      ok := true;
      if (trip == UCLTrip && current >= limit) || (trip == LCLTrip && current <= limit) {
        ok := Move(trip);
      }
    }

    method Record(obs: Option<real>) returns (ok: bool)
      requires Valid() && Finite(cfg)
      modifies Parts()
      ensures Valid() && (Abs(), ok) == Estimator.Record(cfg, old(Abs()), obs)
    {
      if obs == None {
        return false;
      }
      var o := obs.value;
      series.Record(o);
      match fsm.current {
        case Reset =>
          assert Edge(Reset, UCLInitial) by { assert Successors(Reset)[0] == UCLInitial; }
          ok := Move(UCLInitial);
          if series.Count() > 0 {
            series.Reset();
            series.Record(o);
            assert series.log == [o];
          }
          ok := TestAgainst(o, UCLTrip);
        case TestingUCL => ok := TestAgainst(o, UCLTrip);
        case TestingLCL => ok := TestAgainst(o, LCLTrip);
        case UCLInitial => ok := TryBaseline(TestingUCL, 1);
        case LCLInitial => ok := TryBaseline(TestingLCL, -1);
        case UCLTrip => ok := true;
        case LCLTrip => ok := true;
      }
    }

    method HasAlarmed() returns (b: bool)
      ensures b == Alarmed(Abs())
    {
      b := fsm.current == UCLTrip || fsm.current == LCLTrip;
    }
  }

  /** The source checks neither lambda nor k; a capacity below one is refused. */
  method NewEWMAStatistic(cfg: Config) returns (s: Option<TestStatistic>)
    ensures s.Some? <==> cfg.capacity >= 1
    ensures s.Some? ==> fresh(s.value.Parts()) && s.value.Valid() && s.value.cfg == cfg && s.value.Abs() == Fresh()
  {
    var series := Series.NewSeries(cfg.capacity, []);
    if series == None {
      return None;
    }
    var machine := NewMachine(UCLInitial);
    var statistic := new TestStatistic(cfg, series.value, machine);
    s := Some(statistic);
  }

  // ---------------------------------------------------------------- several statistics

  /** Statistic i gets the observation exactly when none before it reported an error. */
  ghost predicate Reached(cfgs: seq<Config>, ms: seq<Model>, obs: Option<real>, i: nat)
    requires |cfgs| == |ms| && i <= |ms| && forall j :: 0 <= j < |cfgs| ==> cfgs[j].lambda != 2.0
  {
    forall j :: 0 <= j < i ==> Estimator.Record(cfgs[j], ms[j], obs).1
  }

  /** A record stops short of the last statistic, and so lets the statistics drift apart, exactly when
      the observation is undefined or one before the last is restarting from Reset with a stale average
      at its stale limit. */
  lemma AllReachedIff(cfgs: seq<Config>, ms: seq<Model>, obs: Option<real>)
    requires |cfgs| == |ms| && ms != [] && forall j :: 0 <= j < |cfgs| ==> cfgs[j].lambda != 2.0
    ensures (forall i: nat :: i < |ms| ==> Reached(cfgs, ms, obs, i)) <==>
              |ms| == 1 ||
              (obs.Some? && forall j :: 0 <= j < |ms| - 1 && ms[j].phase == Reset ==>
                 Fold(cfgs[j].lambda, ms[j].current, obs.value) < ms[j].limit)
  {
    forall j | 0 <= j < |ms|
      ensures Estimator.Record(cfgs[j], ms[j], obs).1 <==>
                obs.Some? && (ms[j].phase == Reset ==> Fold(cfgs[j].lambda, ms[j].current, obs.value) < ms[j].limit)
    {
      RecordFailsIff(cfgs[j], ms[j], obs);
    }
    var last := |ms| - 1;
    if forall i: nat :: i < |ms| ==> Reached(cfgs, ms, obs, i) {
      assert Reached(cfgs, ms, obs, last);
      if last > 0 {
        assert Estimator.Record(cfgs[0], ms[0], obs).1;
      }
    }
  }

  /** The machine of every statistic before i allows the move. */
  ghost predicate AllMove(ms: seq<Model>, to: Phase, resetSeries: bool, i: nat)
    requires i <= |ms|
  {
    forall j :: 0 <= j < i ==> Estimator.Transition(ms[j], to, resetSeries).1
  }

  /** The first i statistics have moved, the others are as they were. */
  ghost predicate MovedUpTo(ms: seq<Model>, ms': seq<Model>, to: Phase, resetSeries: bool, i: nat) {
    && |ms'| == |ms|
    && forall j :: 0 <= j < |ms| ==> ms'[j] == if j < i then Estimator.Transition(ms[j], to, resetSeries).0 else ms[j]
  }

  /** Exactly the statistics with nothing but allowed moves before them have been moved. */
  ghost predicate MovedWhileAllowed(ms: seq<Model>, ms': seq<Model>, to: Phase, resetSeries: bool) {
    && |ms'| == |ms|
    && forall i :: 0 <= i < |ms| ==>
         ms'[i] == if AllMove(ms, to, resetSeries, i) then Estimator.Transition(ms[i], to, resetSeries).0 else ms[i]
  }

  lemma MovedOneMore(ms: seq<Model>, now: seq<Model>, next: seq<Model>, to: Phase, resetSeries: bool, i: nat)
    requires i < |ms| && MovedUpTo(ms, now, to, resetSeries, i) && |next| == |now|
    requires next[i] == Estimator.Transition(now[i], to, resetSeries).0
    requires forall j :: 0 <= j < |now| && j != i ==> next[j] == now[j]
    ensures MovedUpTo(ms, next, to, resetSeries, i + 1) && now[i] == ms[i]
    ensures AllMove(ms, to, resetSeries, i) && Estimator.Transition(ms[i], to, resetSeries).1 ==>
              AllMove(ms, to, resetSeries, i + 1)
  {
  }

  lemma MovedAll(ms: seq<Model>, ms': seq<Model>, to: Phase, resetSeries: bool)
    requires MovedUpTo(ms, ms', to, resetSeries, |ms|) && AllMove(ms, to, resetSeries, |ms|)
    ensures MovedWhileAllowed(ms, ms', to, resetSeries)
  {
    assert forall k: nat :: k <= |ms| ==> AllMove(ms, to, resetSeries, k);
  }

  lemma StoppedMoving(ms: seq<Model>, ms': seq<Model>, to: Phase, resetSeries: bool, i: nat)
    requires i < |ms| && MovedUpTo(ms, ms', to, resetSeries, i + 1)
    requires AllMove(ms, to, resetSeries, i) && !Estimator.Transition(ms[i], to, resetSeries).1
    ensures MovedWhileAllowed(ms, ms', to, resetSeries) && !AllMove(ms, to, resetSeries, |ms|)
  {
    forall k: nat | k <= |ms|
      ensures AllMove(ms, to, resetSeries, k) <==> k <= i
    {
    }
  }

  class Test {
    const sub: seq<TestStatistic>

    ghost predicate Valid()
      reads All()
    {
      && (forall i :: 0 <= i < |sub| ==> sub[i].Valid() && Finite(sub[i].cfg))
      && Separate()
    }

    /** Distinct statistics share no series and no machine. */
    ghost predicate Separate() {
      forall i, j :: 0 <= i < j < |sub| ==> sub[i].Parts() !! sub[j].Parts()
    }

    ghost function All(): set<object> {
      set i, o | 0 <= i < |sub| && o in sub[i].Parts() :: o
    }

    ghost function Models(): seq<Model>
      reads All()
    {
      seq(|sub|, i requires 0 <= i < |sub| reads if 0 <= i < |sub| then sub[i].Parts() else {} => sub[i].Abs())
    }

    ghost function Configs(): (cs: seq<Config>)
      ensures |cs| == |sub| && forall i :: 0 <= i < |sub| ==> cs[i] == sub[i].cfg
    {
      seq(|sub|, i requires 0 <= i < |sub| => sub[i].cfg)
    }

    constructor (sub: seq<TestStatistic>)
      requires forall i :: 0 <= i < |sub| ==> sub[i].Valid() && Finite(sub[i].cfg)
      requires forall i, j :: 0 <= i < j < |sub| ==> sub[i].Parts() !! sub[j].Parts()
      ensures Valid() && this.sub == sub
    {
      this.sub := sub;
    }

    /** Offers the observation to each statistic in turn and stops at the first error. */
    method Record(obs: Option<real>) returns (ok: bool)
      requires Valid()
      modifies All()
      ensures Valid() && |Models()| == |sub|
      ensures ok == Reached(Configs(), old(Models()), obs, |sub|)
      ensures forall i :: 0 <= i < |sub| ==>
                Models()[i] == if Reached(Configs(), old(Models()), obs, i)
                               then Estimator.Record(sub[i].cfg, old(Models()[i]), obs).0
                               else old(Models()[i])
    {
      ghost var cfgs, ms := Configs(), Models();
      for i := 0 to |sub|
        invariant Valid() && Reached(cfgs, ms, obs, i)
        invariant forall j :: 0 <= j < i ==> Models()[j] == Estimator.Record(cfgs[j], ms[j], obs).0
        invariant forall j :: i <= j < |sub| ==> Models()[j] == ms[j]
      {
        ok := RecordAt(i, obs);
        if !ok {
          return;
        }
      }
      ok := true;
    }

    method RecordAt(i: nat, obs: Option<real>) returns (ok: bool)
      requires Valid() && i < |sub|
      modifies All()
      ensures Valid() && |Models()| == |sub|
      ensures (Models()[i], ok) == Estimator.Record(sub[i].cfg, old(Models())[i], obs)
      ensures forall j :: 0 <= j < |sub| && j != i ==> Models()[j] == old(Models())[j]
    {
      ok := sub[i].Record(obs);
      OthersKept(i);
    }

    /** Moves each statistic in turn and stops at the first the machine refuses; that one has
        already emptied its series when asked to. */
    method Transition(to: Phase, resetSeries: bool) returns (ok: bool)
      requires Valid()
      modifies All()
      ensures Valid()
      ensures ok == AllMove(old(Models()), to, resetSeries, |sub|)
      ensures MovedWhileAllowed(old(Models()), Models(), to, resetSeries)
    {
      ghost var ms := Models();
      for i := 0 to |sub|
        invariant Valid() && AllMove(ms, to, resetSeries, i) && MovedUpTo(ms, Models(), to, resetSeries, i)
      {
        ghost var before := Models();
        ok := TransitionAt(i, to, resetSeries);
        MovedOneMore(ms, before, Models(), to, resetSeries, i);
        if !ok {
          StoppedMoving(ms, Models(), to, resetSeries, i);
          return;
        }
      }
      ok := true;
      MovedAll(ms, Models(), to, resetSeries);
    }

    method TransitionAt(i: nat, to: Phase, resetSeries: bool) returns (ok: bool)
      requires Valid() && i < |sub|
      modifies All()
      ensures Valid() && |Models()| == |sub|
      ensures (Models()[i], ok) == Estimator.Transition(old(Models())[i], to, resetSeries)
      ensures forall j :: 0 <= j < |sub| && j != i ==> Models()[j] == old(Models())[j]
    {
      ok := sub[i].Transition(to, resetSeries);
      OthersKept(i);
    }

    /** Changing one statistic leaves the others as they were. */
    twostate lemma OthersKept(i: nat)
      requires i < |sub| && old(Valid())
      requires unchanged(All() - sub[i].Parts()) && sub[i].Valid()
      ensures Valid()
      ensures forall j :: 0 <= j < |sub| && j != i ==> sub[j].Abs() == old(sub[j].Abs())
    {
      forall j | 0 <= j < |sub| && j != i
        ensures sub[j].Abs() == old(sub[j].Abs()) && sub[j].Valid()
      {
        assert sub[j].Parts() !! sub[i].Parts();
        assert sub[j].Parts() <= All();
        sub[j].Untouched();
      }
    }

    method HasAlarmed() returns (b: bool)
      ensures b <==> exists i :: 0 <= i < |sub| && Alarmed(sub[i].Abs())
    {
      b := false;
      for i := 0 to |sub|
        invariant forall j :: 0 <= j < i ==> !Alarmed(sub[j].Abs())
      {
        var alarmed := sub[i].HasAlarmed();
        if alarmed {
          return true;
        }
      }
    }
  }
}
