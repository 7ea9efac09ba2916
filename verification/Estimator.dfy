/** The EWMA change detector as a step function (pkg/stat/estimator.go, pkg/stat/state.go).

    Floats are reals and math.Sqrt is a parameter: any function that gives the
    non-negative root.  An observation whose transform is not a finite number is None. */
module Estimator {
  import opened Common
  import opened Pdf
  import Series

  datatype Phase = Reset | UCLInitial | TestingUCL | UCLTrip | LCLInitial | TestingLCL | LCLTrip

  /** `k` is None when the distribution cannot compute its control-limit factor. */
  datatype Config = Config(capacity: nat, lambda: real, kind: Kind, k: Option<real>, sqrt: real -> real)

  /** `log` is what the series recorded since it was last reset. */
  datatype Model = Model(phase: Phase, log: seq<real>, current: real, limit: real)

  datatype Event = Observe(obs: Option<real>) | Manual(to: Phase, resetSeries: bool)

  ghost predicate IsSqrt(sqrt: real -> real) {
    forall v: real :: v >= 0.0 ==> sqrt(v) >= 0.0 && sqrt(v) * sqrt(v) == v
  }

  ghost predicate WellFormed(cfg: Config) {
    cfg.capacity >= 1 && 0.0 < cfg.lambda <= 1.0 && IsSqrt(cfg.sqrt)
  }

  /** The declared transitions of the estimator's machine. */
  function Successors(from: Phase): seq<Phase> {
    match from
    case Reset => [UCLInitial, LCLInitial]
    case UCLInitial => [TestingUCL, Reset]
    case TestingUCL => [UCLTrip, Reset]
    case UCLTrip => [LCLInitial, Reset]
    case LCLInitial => [TestingLCL, Reset]
    case TestingLCL => [LCLTrip, Reset]
    case LCLTrip => [Reset]
  }

  predicate Edge(from: Phase, to: Phase) {
    to in Successors(from)
  }

  predicate Alarmed(m: Model) {
    m.phase in {UCLTrip, LCLTrip}
  }

  // ---------------------------------------------------------------- arithmetic

  function Fold(lam: real, current: real, o: real): real {
    lam * o + (1.0 - lam) * current
  }

  function Factor(cfg: Config): real {
    cfg.k.GetOr(5.7)
  }

  function Ratio(lam: real): real
    requires lam != 2.0
  {
    lam / (2.0 - lam)
  }

  /** The variance of the average in steady state. */
  function EstimatorVariance(lam: real, variance: real): real
    requires lam != 2.0
  {
    Ratio(lam) * variance
  }

  /** Half the width of the control band around the mean. */
  function Band(cfg: Config, variance: real): real
    requires cfg.lambda != 2.0
  {
    Factor(cfg) * cfg.sqrt(EstimatorVariance(cfg.lambda, variance))
  }

  /** The upper limit for direction >= 0, the lower limit otherwise. */
  function Limit(cfg: Config, mean: real, variance: real, direction: int): real
    requires cfg.lambda != 2.0
  {
    if direction >= 0 then mean + Band(cfg, variance) else mean - Band(cfg, variance)
  }

  /** A window can serve as baseline when its mean and variance are both positive. */
  predicate Ready(cfg: Config, window: seq<real>) {
    var mean := Mean(window);
    var variance := Variance(cfg.kind, window, mean);
    mean > 0.0 && variance.Some? && variance.value > 0.0
  }

  function LimitOf(cfg: Config, window: seq<real>, direction: int): real
    requires cfg.lambda != 2.0 && Ready(cfg, window)
  {
    Limit(cfg, Mean(window), Variance(cfg.kind, window, Mean(window)).value, direction)
  }

  // ---------------------------------------------------------------- one step

  /** A manual transition: the series is emptied first, even when the machine then refuses. */
  function Transition(m: Model, to: Phase, resetSeries: bool): (Model, bool) {
    var m' := if resetSeries then m.(log := []) else m;
    if Edge(m.phase, to) then (m'.(phase := to), true) else (m', false)
  }

  /** Folds the observation in and asks for the trip when the limit is reached; the machine
      refuses it when the phase has no such edge. */
  function Test(cfg: Config, m: Model, o: real, trip: Phase): (Model, bool) {
    var m' := m.(current := Fold(cfg.lambda, m.current, o));
    var reached := if trip == UCLTrip then m'.current >= m'.limit else m'.current <= m'.limit;
    if !reached then (m', true)
    else if Edge(m.phase, trip) then (m'.(phase := trip), true)
    else (m', false)
  }

  /** Starts testing once the ring is full and its window is a usable baseline. */
  function Baseline(cfg: Config, m: Model, testing: Phase, direction: int): Model
    requires cfg.lambda != 2.0
  {
    var window := Series.View(cfg.capacity, m.log);
    if |m.log| >= cfg.capacity && Ready(cfg, window)
    then Model(testing, m.log, Mean(window), LimitOf(cfg, window, direction))
    else m
  }

  /** Records one observation; the flag is false where the source returns an error. */
  function Record(cfg: Config, m: Model, obs: Option<real>): (Model, bool)
    requires cfg.lambda != 2.0
  {
    match obs
    case None => (m, false)
    case Some(o) =>
      var m' := m.(log := m.log + [o]);
      match m.phase
      case Reset => Test(cfg, m'.(phase := UCLInitial, log := [o]), o, UCLTrip)
      case TestingUCL => Test(cfg, m', o, UCLTrip)
      case TestingLCL => Test(cfg, m', o, LCLTrip)
      case UCLInitial => (Baseline(cfg, m', TestingUCL, 1), true)
      case LCLInitial => (Baseline(cfg, m', TestingLCL, -1), true)
      case UCLTrip => (m', true)
      case LCLTrip => (m', true)
  }

  function Fresh(): Model {
    Model(UCLInitial, [], 0.0, 0.0)
  }

  /** Records a list of defined observations. */
  function Run(cfg: Config, m: Model, obs: seq<real>): Model
    requires cfg.lambda != 2.0
  {
    if obs == [] then m else Record(cfg, Run(cfg, m, obs[..|obs| - 1]), Some(obs[|obs| - 1])).0
  }

  function Exec(cfg: Config, m: Model, e: Event): Model
    requires cfg.lambda != 2.0
  {
    match e
    case Observe(o) => Record(cfg, m, o).0
    case Manual(to, resetSeries) => Transition(m, to, resetSeries).0
  }

  function RunEvents(cfg: Config, m: Model, es: seq<Event>): Model
    requires cfg.lambda != 2.0
  {
    if es == [] then m else Exec(cfg, RunEvents(cfg, m, es[..|es| - 1]), es[|es| - 1])
  }

  // ---------------------------------------------------------------- when Record fails

  /** Record reports an error exactly for an undefined observation, or from Reset when the stale
      average it folds into reaches the stale limit; only the latter changes the state. */
  lemma RecordFailsIff(cfg: Config, m: Model, obs: Option<real>)
    requires cfg.lambda != 2.0
    ensures !Record(cfg, m, obs).1 <==>
              obs == None || (m.phase == Reset && Fold(cfg.lambda, m.current, obs.value) >= m.limit)
    ensures obs == None ==> Record(cfg, m, obs).0 == m
  {
  }

  /** Whatever stale average and limit the statistic held, a record from Reset starts a new baseline
      holding exactly that observation; it still folds it into the stale average. */
  lemma RecordFromReset(cfg: Config, m: Model, o: real)
    requires cfg.lambda != 2.0 && m.phase == Reset
    ensures var m' := Record(cfg, m, Some(o)).0;
            && m'.phase == UCLInitial && m'.log == [o] && m'.limit == m.limit
            && m'.current - m.current == cfg.lambda * (o - m.current)
  {
  }

  /** A statistic that is moved to Reset before it has tested anything fails its next record exactly
      for an observation that is not negative. */
  lemma RestartFailsIff(cfg: Config, o: real)
    requires 0.0 < cfg.lambda <= 1.0
    ensures var m := RunEvents(cfg, Fresh(), [Manual(Reset, false)]);
            && m.phase == Reset
            && (Record(cfg, m, Some(o)).1 <==> o < 0.0) && Record(cfg, m, Some(o)).0.phase == UCLInitial
  {
    assert [Manual(Reset, false)][..0] == [];
    assert Fresh().(phase := Reset) == RunEvents(cfg, Fresh(), [Manual(Reset, false)]);
    assert Fold(cfg.lambda, 0.0, o) == cfg.lambda * o;
    if o < 0.0 {
      ProductPositive(cfg.lambda, -o, cfg.lambda * -o);
    } else {
      assert cfg.lambda * o >= 0.0;
    }
  }

  /** Every step moves along a declared edge or stays, and recording never leaves an alarm. */
  lemma StepsFollowEdges(cfg: Config, m: Model, e: Event)
    requires cfg.lambda != 2.0
    ensures Exec(cfg, m, e).phase == m.phase || Edge(m.phase, Exec(cfg, m, e).phase)
    ensures e.Observe? && Alarmed(m) ==>
              var m' := Exec(cfg, m, e);
              m'.phase == m.phase && m'.current == m.current && m'.limit == m.limit
  {
  }

  // ---------------------------------------------------------------- manual transitions

  /** From where an operator can move a statistic where: back to Reset from anywhere else, to the lower
      baseline out of an alarm or out of Reset, to the upper baseline out of Reset only.  The other moves
      are the ones that records make, from collecting to testing and from testing to tripped. */
  lemma EdgesIff(p: Phase, q: Phase)
    ensures Edge(p, Reset) <==> p != Reset
    ensures Edge(p, LCLInitial) <==> p in {UCLTrip, Reset}
    ensures Edge(p, UCLInitial) <==> p == Reset
    ensures Edge(p, TestingUCL) <==> p == UCLInitial
    ensures Edge(p, TestingLCL) <==> p == LCLInitial
    ensures Edge(p, UCLTrip) <==> p == TestingUCL
    ensures Edge(p, LCLTrip) <==> p == TestingLCL
  {
    assert [TestingUCL, Reset][0] == TestingUCL && [TestingUCL, Reset][1] == Reset;
    var next := Successors(p);
    assert forall x :: x in next <==> exists i :: 0 <= i < |next| && next[i] == x;
  }

  /** A manual transition empties the series exactly when asked to, even if the machine then refuses the
      move, and never touches average or limit. */
  lemma TransitionIsSpecified(m: Model, to: Phase, resetSeries: bool)
    ensures var (m', ok) := Transition(m, to, resetSeries);
            && (ok <==> Edge(m.phase, to)) && (m'.phase == if ok then to else m.phase)
            && (resetSeries ==> m'.log == []) && (!resetSeries ==> m'.log == m.log)
            && m'.current == m.current && m'.limit == m.limit
  {
  }
}
