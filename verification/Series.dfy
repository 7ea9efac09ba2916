/** The fixed-capacity ring buffer of observations (pkg/metric/series.go).

    The reference definition is View: what a reader sees after the observations
    `log` were recorded since the last reset.  Holds says how the buffer lays `log`
    out in memory, and RotatedIsView connects the two. */
module Series {
  import opened Common

  function Zeros(n: nat): (z: seq<real>)
    ensures |z| == n && forall i :: 0 <= i < n ==> z[i] == 0.0
  {
    seq(n, i => 0.0)
  }

  /** The last `cap` observations in time order, padded with zeros until there are that many. */
  function View(cap: nat, log: seq<real>): (v: seq<real>)
    ensures |v| == cap
  {
    if |log| < cap then log + Zeros(cap - |log|) else log[|log| - cap..]
  }

  /** Index of the next slot to overwrite, which holds the oldest observation. */
  function NextIndex(cap: nat, count: nat): (i: nat)
    ensures cap > 0 ==> i < cap
  {
    if cap == 0 then 0 else count % cap
  }

  /** `values` is a ring of `log`: observation i, while it is among the last |values|,
      sits in slot i mod |values|, and slots never written hold zero. */
  ghost predicate Holds(values: seq<real>, log: seq<real>) {
    && (values == [] ==> log == [])
    && (forall i :: 0 <= i < |log| && |log| - |values| <= i ==> values[NextIndex(|values|, i)] == log[i])
    && (forall j :: |log| <= j < |values| ==> values[j] == 0.0)
  }

  lemma DivModUnique(cap: nat, q: int, r: nat, q': int, r': nat)
    requires r < cap && r' < cap && q * cap + r == q' * cap + r'
    ensures q == q' && r == r'
  {
    MulGrows(q - q', cap);
    assert (q - q') * cap == r' - r;
  }

  lemma MulGrows(d: int, cap: nat)
    ensures d >= 1 ==> d * cap >= cap
    ensures d <= -1 ==> d * cap + cap <= 0
    ensures d == 0 ==> d * cap == 0
  {
  }

  lemma ModUnique(n: nat, cap: nat, q: int, r: nat)
    requires r < cap && n == q * cap + r
    ensures n % cap == r
  {
    var q', r' := n / cap, n % cap;
    assert n == q' * cap + r';
    DivModUnique(cap, q, r, q', r');
  }

  lemma ModDistinct(i: nat, n: nat, cap: nat)
    requires i < n < i + cap
    ensures i % cap != n % cap
  {
    var q, r := i / cap, i % cap;
    assert i == q * cap + r;
    if r + (n - i) < cap {
      ModUnique(n, cap, q, r + (n - i));
    } else {
      assert (q + 1) * cap == q * cap + cap;
      ModUnique(n, cap, q + 1, r + (n - i) - cap);
    }
  }

  /** Overwriting the oldest slot keeps the layout. */
  lemma RecordHolds(values: seq<real>, log: seq<real>, p: real)
    requires values != [] && Holds(values, log)
    ensures Holds(values[NextIndex(|values|, |log|) := p], log + [p])
  {
    var cap, n := |values|, |log|;
    var slot := NextIndex(cap, n);
    var values' := values[slot := p];
    forall i | 0 <= i < n + 1 && n + 1 - cap <= i
      ensures values'[NextIndex(cap, i)] == (log + [p])[i]
    {
      if i < n {
        ModDistinct(i, n, cap);
        assert values[NextIndex(cap, i)] == log[i];
      }
    }
    if n < cap {
      ModUnique(n, cap, 0, n);
    }
  }

  lemma FillingIsView(values: seq<real>, log: seq<real>)
    requires Holds(values, log) && |log| < |values|
    ensures values == View(|values|, log)
  {
    var cap, n := |values|, |log|;
    forall j | 0 <= j < cap
      ensures values[j] == View(cap, log)[j]
    {
      if j < n {
        ModUnique(j, cap, 0, j);
        assert values[NextIndex(cap, j)] == log[j];
      }
    }
  }

  lemma FullSlot(values: seq<real>, log: seq<real>, j: nat)
    requires Holds(values, log) && |log| >= |values| && j < |values|
    ensures var oldest := NextIndex(|values|, |log|);
            log[|log| - |values| + j] ==
            if j < |values| - oldest then values[oldest + j] else values[oldest + j - |values|]
  {
    var i := |log| - |values| + j;
    RotatedIndex(|log|, |values|, j);
    assert values[NextIndex(|values|, i)] == log[i];
  }

  lemma FullIsView(values: seq<real>, log: seq<real>)
    requires Holds(values, log) && |log| >= |values|
    ensures var oldest := NextIndex(|values|, |log|);
            values[oldest..] + values[..oldest] == View(|values|, log)
  {
    var cap, oldest := |values|, NextIndex(|values|, |log|);
    if cap > 0 {
      var rotated, view := values[oldest..] + values[..oldest], View(cap, log);
      forall j | 0 <= j < cap
        ensures rotated[j] == view[j]
      {
        FullSlot(values, log, j);
      }
      assert rotated == view;
    }
  }

  /** Reading the ring from the oldest slot onwards gives the observations in time order;
      before it is full, reading it from slot zero does. */
  lemma RotatedIsView(values: seq<real>, log: seq<real>)
    requires Holds(values, log)
    ensures |log| < |values| ==> values == View(|values|, log)
    ensures |log| >= |values| ==>
              var oldest := NextIndex(|values|, |log|);
              values[oldest..] + values[..oldest] == View(|values|, log)
  {
    if |log| < |values| {
      FillingIsView(values, log);
    } else {
      FullIsView(values, log);
    }
  }

  lemma RotatedIndex(n: nat, cap: nat, j: nat)
    requires 0 < cap <= n && j < cap
    ensures var oldest := NextIndex(cap, n);
            NextIndex(cap, n - cap + j) == if oldest + j < cap then oldest + j else oldest + j - cap
  {
    var q, r := n / cap, n % cap;
    assert n == q * cap + r;
    if r + j < cap {
      assert (q - 1) * cap == q * cap - cap;
      ModUnique(n - cap + j, cap, q - 1, r + j);
    } else {
      ModUnique(n - cap + j, cap, q, r + j - cap);
    }
  }

  class Series {
    const values: array<real>
    var count: nat
    var name: string
    /** The observations recorded since the last reset. */
    ghost var log: seq<real>

    ghost predicate Valid()
      reads this, values
    {
      count == |log| && Holds(values[..], log)
    }

    /** An empty series; the source refuses a capacity below one before it gets here. */
    constructor (cap: nat)
      ensures Valid() && fresh(values) && values.Length == cap && log == [] && name == ""
    {
      values := new real[cap](i => 0.0);
      count := 0;
      name := "";
      log := [];
    }

    method Reset()
      requires Valid()
      modifies this`count, this`log, values
      ensures Valid() && log == []
    {
      count := 0;
      for i := 0 to values.Length
        invariant count == 0
        invariant forall j :: 0 <= j < i ==> values[j] == 0.0
      {
        values[i] := 0.0;
      }
      log := [];
    }

    function Capacity(): nat {
      values.Length
    }

    function Count(): nat
      reads this
    {
      count
    }

    method Values() returns (out: seq<real>)
      requires Valid()
      ensures out == View(values.Length, log)
    {
      RotatedIsView(values[..], log);
      if count < values.Length {
        out := values[..];
      } else {
        var oldest := NextIndex(values.Length, count);
        assert values[oldest..] == values[..][oldest..] && values[..oldest] == values[..][..oldest];
        out := values[oldest..] + values[..oldest];
      }
    }

    /** A series without slots ignores everything it is given. */
    method Record(p: real)
      requires Valid()
      modifies this`count, this`log, values
      ensures Valid()
      ensures log == if values.Length == 0 then old(log) else old(log) + [p]
    {
      if values.Length == 0 {
        return;
      }
      RecordHolds(values[..], log, p);
      ghost var after := values[..][NextIndex(values.Length, count) := p];
      values[NextIndex(values.Length, count)] := p;
      count := count + 1;
      log := log + [p];
      assert values[..] == after;
    }

    /** The WithValues option: recording the observations one by one. */
    method RecordAll(obs: seq<real>)
      requires Valid()
      modifies this`count, this`log, values
      ensures Valid()
      ensures log == if values.Length == 0 then old(log) else old(log) + obs
    {
      for i := 0 to |obs|
        invariant Valid()
        invariant log == if values.Length == 0 then old(log) else old(log) + obs[..i]
      {
        Record(obs[i]);
        assert obs[..i + 1] == obs[..i] + [obs[i]];
      }
      assert obs[..|obs|] == obs;
    }

    /** False is the error for an empty name. */
    method Apply(opt: SeriesOption) returns (ok: bool)
      requires Valid() && values.Length > 0
      modifies this, values
      ensures Valid() && ok == (opt != WithName(""))
      ensures log == old(log) + Given([opt]) && name == if ok then Named(old(name), [opt]) else old(name)
    {
      assert [opt][..0] == [];
      match opt {
        case WithName(n) =>
          if n == "" {
            return false;
          }
          name := n;
        case WithValues(obs) => RecordAll(obs);
      }
      ok := true;
    }
  }

  datatype SeriesOption = WithName(name: string) | WithValues(values: seq<real>)

  /** The observations that options record, in order. */
  function Given(opts: seq<SeriesOption>): seq<real> {
    if opts == [] then []
    else
      var opt := opts[|opts| - 1];
      Given(opts[..|opts| - 1]) + if opt.WithValues? then opt.values else []
  }

  /** The last name given, if any. */
  function Named(name: string, opts: seq<SeriesOption>): string {
    if opts == [] then name
    else
      var opt := opts[|opts| - 1];
      if opt.WithName? then opt.name else Named(name, opts[..|opts| - 1])
  }

  lemma OneMoreOption(opts: seq<SeriesOption>, i: nat)
    requires i < |opts|
    ensures Given(opts[..i + 1]) == Given(opts[..i]) + Given([opts[i]])
    ensures Named("", opts[..i + 1]) == Named(Named("", opts[..i]), [opts[i]])
    ensures WithName("") in opts[..i + 1] <==> WithName("") in opts[..i] || opts[i] == WithName("")
  {
    assert opts[..i + 1] == opts[..i] + [opts[i]] && opts[..i + 1][..i] == opts[..i];
    assert [opts[i]][..0] == [];
  }

  /** WithValues options record their values one after the other, and of several names the last holds. */
  lemma OptionsTakeEffect(opts: seq<SeriesOption>, values: seq<real>, name: string)
    ensures Given([]) == [] && Given(opts + [WithValues(values)]) == Given(opts) + values
    ensures Given(opts + [WithName(name)]) == Given(opts)
    ensures Named("", []) == "" && Named("", opts + [WithName(name)]) == name
    ensures Named("", opts + [WithValues(values)]) == Named("", opts)
  {
    assert (opts + [WithValues(values)])[..|opts|] == opts && (opts + [WithName(name)])[..|opts|] == opts;
  }

  /** Refused exactly when the capacity is not positive or some option gives an empty name; otherwise
      the series holds the given observations and bears the last name given. */
  method NewSeries(cap: int, opts: seq<SeriesOption>) returns (s: Option<Series>)
    ensures s.Some? <==> cap >= 1 && WithName("") !in opts
    ensures s.Some? ==> fresh(s.value) && fresh(s.value.values) && s.value.Valid()
    ensures s.Some? ==>
              s.value.values.Length == cap && s.value.log == Given(opts) && s.value.name == Named("", opts)
  {
    if cap <= 0 {
      return None;
    }
    var series := new Series(cap);
    for i := 0 to |opts|
      invariant fresh(series) && fresh(series.values) && series.Valid() && series.values.Length == cap
      invariant series.log == Given(opts[..i]) && series.name == Named("", opts[..i])
      invariant WithName("") !in opts[..i]
    {
      OneMoreOption(opts, i);
      var ok := series.Apply(opts[i]);
      if !ok {
        assert opts[i] in opts;
        return None;
      }
    }
    assert opts[..|opts|] == opts;
    s := Some(series);
  }
}
