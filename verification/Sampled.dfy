/** Series fed through a sampling window (pkg/metric/sampled.go).

    Every operation runs under the series' mutex, so an execution is an interleaving of
    whole Record, Tick and Reset steps, where a Tick is one round of the ticker goroutine.
    Split is the reference definition: it cuts the operations after the last reset at the
    ticks, without following the state machine. */
module Sampled {
  import opened Common
  import opened RealSums
  import opened Pdf
  import S = Series

  datatype Op = Record(obs: real) | Tick | Reset

  /** `log` is everything written to the ring since the last reset, `pending` the window being filled. */
  datatype State = State(log: seq<real>, pending: seq<real>)

  /** What a tick writes: the transformed window, or zero when nothing was observed. */
  function Flush(transform: seq<real> -> real, window: seq<real>): real {
    if window == [] then 0.0 else transform(window)
  }

  /** One step; in direct mode observations bypass the window and there is no ticker. */
  function Step(direct: bool, transform: seq<real> -> real, s: State, op: Op): State {
    match op
    case Record(o) =>
      if direct then s.(log := s.log + [o]) else s.(pending := s.pending + [o])
    case Tick =>
      if direct then s else State(s.log + [Flush(transform, s.pending)], [])
    case Reset => State([], [])
  }

  function Run(direct: bool, transform: seq<real> -> real, ops: seq<Op>): State {
    if ops == [] then State([], [])
    else Step(direct, transform, Run(direct, transform, ops[..|ops| - 1]), ops[|ops| - 1])
  }

  // ---------------------------------------------------------------- reference definitions

  function SinceReset(ops: seq<Op>): (r: seq<Op>)
    ensures Reset !in r
  {
    if ops == [] then []
    else
      var last := ops[|ops| - 1];
      if last == Reset then [] else SinceReset(ops[..|ops| - 1]) + [last]
  }

  /** The observations among `ops`, in order. */
  function Observed(ops: seq<Op>): seq<real> {
    if ops == [] then []
    else (if ops[0].Record? then [ops[0].obs] else []) + Observed(ops[1..])
  }

  function PushFront(o: real, windows: seq<seq<real>>): (r: seq<seq<real>>)
    requires windows != []
    ensures r != []
  {
    [[o] + windows[0]] + windows[1..]
  }

  function PushBack(windows: seq<seq<real>>, o: real): (r: seq<seq<real>>)
    requires windows != []
    ensures r != []
  {
    var n := |windows| - 1;
    windows[..n] + [windows[n] + [o]]
  }

  /** The observations cut at the ticks; the last window is still open. */
  function Split(ops: seq<Op>): (windows: seq<seq<real>>)
    ensures windows != []
  {
    if ops == [] then [[]]
    else
      var rest := Split(ops[1..]);
      if ops[0].Record? then PushFront(ops[0].obs, rest) else [[]] + rest
  }

  function Flatten(windows: seq<seq<real>>): seq<real> {
    if windows == [] then [] else windows[0] + Flatten(windows[1..])
  }

  function FlushAll(transform: seq<real> -> real, windows: seq<seq<real>>): (r: seq<real>)
    ensures |r| == |windows| && forall i :: 0 <= i < |r| ==> r[i] == Flush(transform, windows[i])
  {
    seq(|windows|, i requires 0 <= i < |windows| => Flush(transform, windows[i]))
  }

  // ---------------------------------------------------------------- theorems

  lemma PushesCommute(o: real, windows: seq<seq<real>>, o': real)
    requires windows != []
    ensures PushFront(o, PushBack(windows, o')) == PushBack(PushFront(o, windows), o')
  {
    var n := |windows| - 1;
    if n == 0 {
      assert [o] + (windows[0] + [o']) == ([o] + windows[0]) + [o'];
    }
  }

  lemma PushFrontSnoc(o: real, windows: seq<seq<real>>)
    requires windows != []
    ensures PushFront(o, windows + [[]]) == PushFront(o, windows) + [[]]
  {
  }

  lemma ConsPushBack(windows: seq<seq<real>>, o: real)
    requires windows != []
    ensures [[]] + PushBack(windows, o) == PushBack([[]] + windows, o)
  {
  }

  lemma SplitOne(op: Op)
    ensures Split([op]) == if op.Record? then PushBack([[]], op.obs) else [[]] + [[]]
  {
    assert [op][1..] == [];
    assert Split([]) == [[]];
    if op.Record? {
      assert [op.obs] + [] == [] + [op.obs];
      assert PushFront(op.obs, [[]]) == PushBack([[]], op.obs);
    }
  }

  lemma {:induction false} SplitSnoc(ops: seq<Op>, op: Op)
    ensures Split(ops + [op]) == if op.Record? then PushBack(Split(ops), op.obs) else Split(ops) + [[]]
    decreases |ops|
  {
    if ops == [] {
      assert ops + [op] == [op];
      SplitOne(op);
    } else {
      var rest := ops[1..];
      assert (ops + [op])[1..] == rest + [op];
      SplitSnoc(rest, op);
      if ops[0].Record? {
        if op.Record? {
          PushesCommute(ops[0].obs, Split(rest), op.obs);
        } else {
          PushFrontSnoc(ops[0].obs, Split(rest));
        }
      } else if op.Record? {
        ConsPushBack(Split(rest), op.obs);
      } else {
        assert [[]] + (Split(rest) + [[]]) == ([[]] + Split(rest)) + [[]];
      }
    }
  }

  /** The state that a list of windows, the last one open, stands for. */
  function StateOf(transform: seq<real> -> real, windows: seq<seq<real>>): State
    requires windows != []
  {
    var n := |windows| - 1;
    State(FlushAll(transform, windows[..n]), windows[n])
  }

  lemma StepOfWindows(transform: seq<real> -> real, w: seq<seq<real>>, op: Op)
    requires w != [] && op != Reset
    ensures Step(false, transform, StateOf(transform, w), op) ==
            StateOf(transform, if op.Record? then PushBack(w, op.obs) else w + [[]])
  {
    var n := |w| - 1;
    if op == Tick {
      assert (w + [[]])[..n + 1] == w;
      assert FlushAll(transform, w) == FlushAll(transform, w[..n]) + [Flush(transform, w[n])];
    } else {
      assert PushBack(w, op.obs)[..n] == w[..n];
    }
  }

  /** Under any interleaving of Record, Tick and Reset, the ring has received exactly the
      transforms of the windows closed since the last reset and the open window is pending. */
  lemma {:induction false} WindowedRun(transform: seq<real> -> real, ops: seq<Op>)
    ensures var s, windows := Run(false, transform, ops), Split(SinceReset(ops));
            && s == StateOf(transform, windows)
            && |s.log| == |windows| - 1 && s.pending == windows[|windows| - 1]
            && forall i :: 0 <= i < |s.log| ==>
                 s.log[i] == if |windows[i]| == 0 then 0.0 else transform(windows[i])
  {
    if ops == [] {
      assert FlushAll(transform, []) == [];
    } else {
      var front, last := ops[..|ops| - 1], ops[|ops| - 1];
      WindowedRun(transform, front);
      if last == Reset {
        assert FlushAll(transform, []) == [];
      } else {
        StepOfWindows(transform, Split(SinceReset(front)), last);
        SplitSnoc(SinceReset(front), last);
      }
    }
  }

  /** The flushed windows followed by the pending one are all observations, in order. */
  lemma {:induction false} SplitLosesNothing(ops: seq<Op>)
    ensures Flatten(Split(ops)) == Observed(ops)
  {
    if ops == [] {
      assert Flatten([[]]) == [] + Flatten([]);
    } else {
      var rest := Split(ops[1..]);
      SplitLosesNothing(ops[1..]);
      if ops[0].Record? {
        assert PushFront(ops[0].obs, rest)[1..] == rest[1..];
      } else {
        assert ([[]] + rest)[1..] == rest;
      }
    }
  }

  lemma {:induction false} FlattenSum(windows: seq<seq<real>>)
    ensures Sum(Flatten(windows)) == Sum(FlushAll(Sum, windows))
  {
    if windows != [] {
      var rest := windows[1..];
      FlattenSum(rest);
      SumAppend(windows[0], Flatten(rest));
      assert FlushAll(Sum, windows) == [Flush(Sum, windows[0])] + FlushAll(Sum, rest);
      SumAppend([Flush(Sum, windows[0])], FlushAll(Sum, rest));
      SumOne(Flush(Sum, windows[0]));
    }
  }

  lemma SumOne(x: real)
    ensures Sum([x]) == x
  {
    assert [x][..0] == [];
  }

  /** With SampleSum no count is lost: flushed total plus pending total is the observed total. */
  lemma SampleSumConserved(ops: seq<Op>)
    ensures var s := Run(false, Sum, ops);
            Sum(s.log) + Sum(s.pending) == Sum(Observed(SinceReset(ops)))
  {
    var windows := Split(SinceReset(ops));
    WindowedRun(Sum, ops);
    SplitLosesNothing(SinceReset(ops));
    OpenWindowSum(windows);
  }

  lemma FlushSum(window: seq<real>)
    ensures Flush(Sum, window) == Sum(window)
  {
  }

  lemma OpenWindowSum(windows: seq<seq<real>>)
    requires windows != []
    ensures var n := |windows| - 1;
            Sum(FlushAll(Sum, windows[..n])) + Sum(windows[n]) == Sum(Flatten(windows))
  {
    var n := |windows| - 1;
    var front, all := FlushAll(Sum, windows[..n]), FlushAll(Sum, windows);
    FlattenSum(windows);
    FlushSum(windows[n]);
    assert all[..n] == front;
    assert Sum(all) == Sum(all[..|all| - 1]) + all[|all| - 1];
  }

  lemma {:induction false} ObservedSnoc(ops: seq<Op>, op: Op)
    ensures Observed(ops + [op]) == Observed(ops) + if op.Record? then [op.obs] else []
    decreases |ops|
  {
    if ops == [] {
      assert ops + [op] == [op] && [op][1..] == [];
      assert Observed([]) == [];
    } else {
      var rest := ops[1..];
      assert (ops + [op])[1..] == rest + [op] && (ops + [op])[0] == ops[0];
      ObservedSnoc(rest, op);
    }
  }

  /** In direct mode the series is a plain ring of the observations since the last reset. */
  lemma {:induction false} DirectRun(transform: seq<real> -> real, ops: seq<Op>)
    ensures Run(true, transform, ops) == State(Observed(SinceReset(ops)), [])
  {
    if ops != [] {
      var front, last := ops[..|ops| - 1], ops[|ops| - 1];
      DirectRun(transform, front);
      if last != Reset {
        ObservedSnoc(SinceReset(front), last);
      }
    }
  }

  // ---------------------------------------------------------------- the series object

  class SampledSeries {
    const s: S.Series
    const direct: bool
    const transform: seq<real> -> real
    var obs: seq<real>

    ghost predicate Valid()
      reads this, s, s.values
    {
      s.Valid() && s.values.Length > 0
    }

    ghost function Abs(): State
      reads this, s
    {
      State(s.log, obs)
    }

    constructor (series: S.Series, direct: bool, transform: seq<real> -> real)
      requires series.Valid() && series.values.Length > 0
      ensures Valid() && s == series && this.direct == direct && this.transform == transform
      ensures Abs() == State(series.log, [])
    {
      s := series;
      this.direct := direct;
      this.transform := transform;
      obs := [];
    }

    method Record(o: real)
      requires Valid()
      modifies this, s, s.values
      ensures Valid() && Abs() == Step(direct, transform, old(Abs()), Op.Record(o))
    {
      if direct {
        s.Record(o);
      } else {
        obs := obs + [o];
      }
    }

    /** One round of the ticker goroutine, which runs only outside direct mode. */
    method Tick()
      requires Valid() && !direct
      modifies this, s, s.values
      ensures Valid() && Abs() == Step(direct, transform, old(Abs()), Op.Tick)
    {
      if |obs| == 0 {
        s.Record(0.0);
      } else {
        s.Record(transform(obs));
        obs := [];
      }
    }

    method Reset()
      requires Valid()
      modifies this, s, s.values
      ensures Valid() && Abs() == Step(direct, transform, old(Abs()), Op.Reset)
    {
      obs := [];
      s.Reset();
    }

    method Values() returns (out: seq<real>)
      requires Valid()
      ensures out == S.View(s.values.Length, Abs().log)
    {
      out := s.Values();
    }
  }

  /** A positive window samples, any other window selects direct mode. */
  method NewSampledSeries(cap: int, window: int, transform: seq<real> -> real, opts: seq<S.SeriesOption>)
    returns (r: Option<SampledSeries>)
    ensures r.Some? <==> cap >= 1 && S.WithName("") !in opts
    ensures r.Some? ==> fresh(r.value) && fresh(r.value.s) && fresh(r.value.s.values) && r.value.Valid()
    ensures r.Some? ==> r.value.Abs() == State(S.Given(opts), []) && (r.value.direct <==> window <= 0)
    ensures r.Some? ==> r.value.s.values.Length == cap && r.value.transform == transform
  {
    var series := S.NewSeries(cap, opts);
    if series == None {
      return None;
    }
    var sampled := new SampledSeries(series.value, window <= 0, transform);
    r := Some(sampled);
  }

  // ---------------------------------------------------------------- window transforms

  method SampleSum(obs: seq<real>) returns (sum: real)
    ensures sum == Sum(obs)
  {
    sum := 0.0;
    for i := 0 to |obs|
      invariant sum == Sum(obs[..i])
    {
      assert obs[..i + 1][..i] == obs[..i];
      sum := sum + obs[i];
    }
    assert obs[..|obs|] == obs;
  }

  method SampleAverage(obs: seq<real>) returns (avg: real)
    ensures avg == Mean(obs)
  {
    if |obs| == 0 {
      return 0.0;
    }
    var sum := SampleSum(obs);
    avg := sum / (|obs| as real);
  }

  method SampleMin(obs: seq<real>) returns (min: real)
    ensures obs == [] ==> min == 0.0
    ensures obs != [] ==> min in obs && forall i :: 0 <= i < |obs| ==> min <= obs[i]
  {
    if |obs| == 0 {
      return 0.0;
    }
    min := obs[0];
    for i := 0 to |obs|
      invariant min in obs && forall j :: 0 <= j < i ==> min <= obs[j]
    {
      min := if obs[i] < min then obs[i] else min;
    }
  }

  method SampleMax(obs: seq<real>) returns (max: real)
    ensures obs == [] ==> max == 0.0
    ensures obs != [] ==> max in obs && forall i :: 0 <= i < |obs| ==> obs[i] <= max
  {
    if |obs| == 0 {
      return 0.0;
    }
    max := obs[0];
    for i := 0 to |obs|
      invariant max in obs && forall j :: 0 <= j < i ==> obs[j] <= max
    {
      max := if max < obs[i] then obs[i] else max;
    }
  }
}
