/** Windowed counters with a pruned history (pkg/metric/counter.go).

    Times and durations are integers; every call reads the clock once, as `now`.  Counts are
    64-bit integers that wrap around. */
module Counters {
  import opened Common

  // ---------------------------------------------------------------- 64-bit counts

  const HALF: int := 0x8000_0000_0000_0000
  const FULL: int := 0x1_0000_0000_0000_0000

  type uint64 = x: int | 0 <= x < FULL

  /** The signed 64-bit integer congruent to x. */
  function Wrap(x: int): (r: int)
    ensures -HALF <= r < HALF
    ensures -HALF <= x < HALF ==> r == x
  {
    (x + HALF) % FULL - HALF
  }

  lemma WrapAdd(x: int, y: int)
    ensures Wrap(Wrap(x) + y) == Wrap(x + y) == Wrap(x + Wrap(y))
  {
    WrapStep(x, y);
    WrapStep(y, x);
  }

  lemma WrapStep(x: int, y: int)
    ensures Wrap(Wrap(x) + y) == Wrap(x + y)
  {
    var q := (x + HALF) / FULL;
    assert Wrap(x) == x - q * FULL;
    assert Wrap(x) + y + HALF == (x + y + HALF) - q * FULL;
  }

  // ---------------------------------------------------------------- one step

  datatype Counter = Counter(start: int, duration: int, value: int)

  /** MaxHistory and MaxHistoryDuration; zero means no limit. */
  datatype Settings = Settings(max: int, maxAge: int)

  const UNLIMITED := Settings(0, 0)

  datatype State = State(hist: seq<Counter>, current: Counter)

  datatype Op = Add(i: uint64, now: int) | Reset(now: int)

  function Bump(c: Counter, i: uint64): Counter {
    c.(value := Wrap(c.value + Wrap(i)))
  }

  /** The counters no older than maxAge. */
  function Recent(hist: seq<Counter>, maxAge: int, now: int): seq<Counter> {
    if hist == [] then []
    else
      var c := hist[|hist| - 1];
      Recent(hist[..|hist| - 1], maxAge, now) + if now - c.start <= maxAge then [c] else []
  }

  function Age(hist: seq<Counter>, maxAge: int, now: int): seq<Counter> {
    if maxAge > 0 then Recent(hist, maxAge, now) else hist
  }

  /** The most recent `max` counters. */
  function Cap(hist: seq<Counter>, max: int): seq<Counter> {
    if max > 0 && |hist| > max then hist[|hist| - max..] else hist
  }

  /** The source caps the count first and then drops what is too old. */
  function NewHistory(hist: seq<Counter>, s: Settings, now: int): seq<Counter> {
    Age(Cap(hist, s.max), s.maxAge, now)
  }

  function Start(duration: int, now: int): State {
    State([], Counter(now, duration, 0))
  }

  function Step(st: State, s: Settings, op: Op): State {
    var c := st.current;
    match op
    case Add(i, now) =>
      if now < c.start + c.duration || c.duration == 0 then st.(current := Bump(c, i))
      else State(NewHistory(st.hist + [c], s, now), Bump(Counter(now, c.duration, 0), i))
    case Reset(now) => Start(c.duration, now)
  }

  function Run(st: State, s: Settings, ops: seq<Op>): State {
    if ops == [] then st else Step(Run(st, s, ops[..|ops| - 1]), s, ops[|ops| - 1])
  }

  function InclusiveAt(st: State, s: Settings, now: int): seq<Counter> {
    NewHistory(st.hist + [st.current], s, now)
  }

  /** Leaves the current counter out while its window is open. */
  function HistoryAt(st: State, s: Settings, now: int): seq<Counter> {
    var c := st.current;
    if now > c.start + c.duration || c.duration == 0 then NewHistory(st.hist + [c], s, now)
    else NewHistory(st.hist, s, now)
  }

  // ---------------------------------------------------------------- pruning

  ghost predicate Sorted(hist: seq<Counter>) {
    forall i, j :: 0 <= i < j < |hist| ==> hist[i].start <= hist[j].start
  }

  /** Counter i is beyond one of the limits. */
  predicate Dropped(hist: seq<Counter>, s: Settings, now: int, i: nat)
    requires i < |hist|
  {
    (s.max > 0 && i < |hist| - s.max) || (s.maxAge > 0 && now - hist[i].start > s.maxAge)
  }

  lemma SortedPart(hist: seq<Counter>, lo: nat, hi: nat)
    requires Sorted(hist) && lo <= hi <= |hist|
    ensures Sorted(hist[lo..hi])
  {
  }

  lemma RecentSnoc(front: seq<Counter>, c: Counter, maxAge: int, now: int)
    ensures Recent(front + [c], maxAge, now) == Recent(front, maxAge, now) + if now - c.start <= maxAge then [c] else []
  {
    assert (front + [c])[..|front|] == front;
  }

  lemma {:induction false} RecentIsSuffix(hist: seq<Counter>, maxAge: int, now: int) returns (k: nat)
    requires Sorted(hist)
    ensures k <= |hist| && Recent(hist, maxAge, now) == hist[k..]
    ensures forall i :: 0 <= i < |hist| ==> (i < k <==> now - hist[i].start > maxAge)
  {
    if hist == [] {
      k := 0;
    } else {
      var n := |hist| - 1;
      var front, c := hist[..n], hist[n];
      assert hist == front + [c];
      RecentSnoc(front, c, maxAge, now);
      k := RecentIsSuffix(front, maxAge, now);
      assert forall i :: 0 <= i < n ==> front[i] == hist[i] && hist[i].start <= c.start;
      if now - c.start > maxAge {
        assert k == n;
        assert front[k..] == [];
        k := n + 1;
        assert hist[k..] == [];
      } else {
        assert hist[k..] == front[k..] + [c];
      }
    }
  }

  /** Exactly the first k counters are beyond the limits. */
  ghost predicate Cut(hist: seq<Counter>, s: Settings, now: int, k: nat) {
    k <= |hist| && forall i :: 0 <= i < |hist| ==> (i < k <==> Dropped(hist, s, now, i))
  }

  lemma CutUnique(hist: seq<Counter>, s: Settings, now: int, k: nat, l: nat)
    requires Cut(hist, s, now, k) && Cut(hist, s, now, l)
    ensures k == l
  {
    if k < |hist| {
      assert !Dropped(hist, s, now, k);
    }
    if l < |hist| {
      assert !Dropped(hist, s, now, l);
    }
  }

  /** On a history sorted by start time, pruning keeps exactly the suffix of counters within limits. */
  lemma PrunedIsSuffix(hist: seq<Counter>, s: Settings, now: int) returns (k: nat)
    requires Sorted(hist)
    ensures Cut(hist, s, now, k) && NewHistory(hist, s, now) == hist[k..]
  {
    var a := if s.max > 0 && |hist| > s.max then |hist| - s.max else 0;
    k := a;
    if s.maxAge > 0 {
      SortedPart(hist, a, |hist|);
      assert hist[a..] == hist[a..|hist|];
      var b := RecentIsSuffix(hist[a..], s.maxAge, now);
      k := a + b;
      assert hist[a..][b..] == hist[k..];
      forall i | 0 <= i < |hist|
        ensures i < k <==> Dropped(hist, s, now, i)
      {
        if i >= a {
          assert hist[i] == hist[a..][i - a];
        }
      }
    }
  }

  /** The documented order, age first and then count, gives the same history. */
  lemma PruningOrderIrrelevant(hist: seq<Counter>, s: Settings, now: int)
    requires Sorted(hist)
    ensures NewHistory(hist, s, now) == Cap(Age(hist, s.maxAge, now), s.max)
  {
    var k := PrunedIsSuffix(hist, s, now);
    var l := DocumentedIsSuffix(hist, s, now);
    CutUnique(hist, s, now, k, l);
  }

  lemma DocumentedIsSuffix(hist: seq<Counter>, s: Settings, now: int) returns (k: nat)
    requires Sorted(hist)
    ensures Cut(hist, s, now, k) && Cap(Age(hist, s.maxAge, now), s.max) == hist[k..]
  {
    var b := 0;
    if s.maxAge > 0 {
      b := RecentIsSuffix(hist, s.maxAge, now);
    }
    k := CapIsSuffix(hist, b, s.max);
    assert forall i :: 0 <= i < |hist| ==> (i < b <==> s.maxAge > 0 && now - hist[i].start > s.maxAge);
  }

  lemma CapIsSuffix(hist: seq<Counter>, b: nat, max: int) returns (k: nat)
    requires b <= |hist|
    ensures b <= k <= |hist| && Cap(hist[b..], max) == hist[k..]
    ensures k == if max > 0 && b < |hist| - max then |hist| - max else b
  {
    var c := if max > 0 && |hist[b..]| > max then |hist[b..]| - max else 0;
    k := b + c;
    assert hist[b..][c..] == hist[k..];
  }

  lemma {:induction false} RecentAppend(a: seq<Counter>, b: seq<Counter>, maxAge: int, now: int)
    ensures Recent(a + b, maxAge, now) == Recent(a, maxAge, now) + Recent(b, maxAge, now)
    decreases |b|
  {
    if b == [] {
      assert a + b == a;
    } else {
      assert (a + b)[..|a + b| - 1] == a + b[..|b| - 1];
      RecentAppend(a, b[..|b| - 1], maxAge, now);
    }
  }

  lemma {:induction false} RecentCount(hist: seq<Counter>, maxAge: int, now: int)
    ensures |Recent(hist, maxAge, now)| <= |hist|
    ensures Recent(hist, maxAge, now) == [] <==> forall i :: 0 <= i < |hist| ==> now - hist[i].start > maxAge
    ensures |Recent(hist, maxAge, now)| == |hist| <==> forall i :: 0 <= i < |hist| ==> now - hist[i].start <= maxAge
  {
    if hist != [] {
      var n := |hist| - 1;
      RecentCount(hist[..n], maxAge, now);
      assert forall i :: 0 <= i < n ==> hist[..n][i] == hist[i];
    }
  }

  /** For any history whatever, the two orders agree exactly when one limit does nothing on its own,
      or the counters before the most recent `max` are all too old, or none of those `max` is. */
  lemma PruningOrdersAgreeIff(hist: seq<Counter>, s: Settings, now: int)
    ensures NewHistory(hist, s, now) == Cap(Age(hist, s.maxAge, now), s.max) <==>
              || s.max <= 0 || s.maxAge <= 0 || |hist| <= s.max
              || (forall i :: 0 <= i < |hist| - s.max ==> now - hist[i].start > s.maxAge)
              || (forall i :: |hist| - s.max <= i < |hist| ==> now - hist[i].start <= s.maxAge)
  {
    if s.max > 0 && s.maxAge > 0 && |hist| > s.max {
      var k := |hist| - s.max;
      var early, latest := hist[..k], hist[k..];
      assert hist == early + latest;
      RecentAppend(early, latest, s.maxAge, now);
      RecentCount(latest, s.maxAge, now);
      EarlyNoneRecent(hist, k, s.maxAge, now);
      LatestAllRecent(hist, k, s.maxAge, now);
      CapAppend(Recent(early, s.maxAge, now), Recent(latest, s.maxAge, now), s.max);
    } else {
      RecentCount(hist, s.maxAge, now);
    }
  }

  lemma EarlyNoneRecent(hist: seq<Counter>, k: nat, maxAge: int, now: int)
    requires k <= |hist|
    ensures (forall i :: 0 <= i < k ==> now - hist[i].start > maxAge) <==> Recent(hist[..k], maxAge, now) == []
  {
    RecentCount(hist[..k], maxAge, now);
    assert forall i :: 0 <= i < k ==> hist[..k][i] == hist[i];
  }

  lemma CapAppend(p: seq<Counter>, q: seq<Counter>, max: int)
    requires max > 0 && |q| <= max
    ensures q == Cap(p + q, max) <==> p == [] || |q| == max
  {
    if |q| == max {
      assert (p + q)[|p|..] == q;
    } else if p == [] {
      assert p + q == q;
    }
  }

  lemma LatestAllRecent(hist: seq<Counter>, k: nat, maxAge: int, now: int)
    requires k <= |hist|
    ensures (forall i :: k <= i < |hist| ==> now - hist[i].start <= maxAge) <==>
              |Recent(hist[k..], maxAge, now)| == |hist| - k
  {
    RecentCount(hist[k..], maxAge, now);
    if forall i :: 0 <= i < |hist| - k ==> now - hist[k..][i].start <= maxAge {
      assert forall i :: k <= i < |hist| ==> hist[i] == hist[k..][i - k];
    }
  }

  /** What an earlier pruning dropped a later one would drop too. */
  lemma DroppedStays(hist: seq<Counter>, tail: seq<Counter>, s: Settings, t: int, now: int, i: nat)
    requires i < |hist| && t <= now && Dropped(hist, s, t, i)
    ensures Dropped(hist + tail, s, now, i)
  {
    assert (hist + tail)[i] == hist[i];
  }

  /** Pruning early loses nothing that a later pruning would have kept. */
  lemma PruneTwice(hist: seq<Counter>, tail: seq<Counter>, s: Settings, t: int, now: int)
    requires Sorted(hist + tail) && t <= now
    ensures NewHistory(NewHistory(hist, s, t) + tail, s, now) == NewHistory(hist + tail, s, now)
  {
    var all := hist + tail;
    assert hist == all[0..|hist|];
    SortedPart(all, 0, |hist|);
    var k := PrunedIsSuffix(hist, s, t);
    assert hist[k..] + tail == all[k..];
    PruneRest(hist, tail, s, t, now, k);
  }

  lemma PruneRest(hist: seq<Counter>, tail: seq<Counter>, s: Settings, t: int, now: int, k1: nat)
    requires Sorted(hist + tail) && t <= now && Cut(hist, s, t, k1)
    ensures NewHistory((hist + tail)[k1..], s, now) == NewHistory(hist + tail, s, now)
  {
    var all := hist + tail;
    assert all[k1..|all|] == all[k1..];
    SortedPart(all, k1, |all|);
    var k2 := PrunedIsSuffix(all[k1..], s, now);
    var k := PrunedIsSuffix(all, s, now);
    CutOfCut(hist, tail, s, t, now, k1, k2);
    CutUnique(all, s, now, k, k1 + k2);
    assert all[k1..][k2..] == all[k1 + k2..];
  }

  lemma CutOfCut(hist: seq<Counter>, tail: seq<Counter>, s: Settings, t: int, now: int, k1: nat, k2: nat)
    requires t <= now && Cut(hist, s, t, k1) && Cut((hist + tail)[k1..], s, now, k2)
    ensures Cut(hist + tail, s, now, k1 + k2)
  {
    var all := hist + tail;
    forall i | 0 <= i < |all|
      ensures i < k1 + k2 <==> Dropped(all, s, now, i)
    {
      if i < k1 {
        assert Dropped(hist, s, t, i);
        DroppedStays(hist, tail, s, t, now, i);
      } else {
        LaterDrop(all, k1, s, now, i);
      }
    }
  }

  lemma LaterDrop(all: seq<Counter>, k: nat, s: Settings, now: int, i: nat)
    requires k <= i < |all|
    ensures Dropped(all, s, now, i) <==> Dropped(all[k..], s, now, i - k)
  {
  }

  /** The clock never runs backwards over the operations, nor up to `now`. */
  ghost predicate Monotone(t0: int, ops: seq<Op>, now: int) {
    && t0 <= now
    && (forall i :: 0 <= i < |ops| ==> t0 <= ops[i].now <= now)
    && (forall i, j :: 0 <= i < j < |ops| ==> ops[i].now <= ops[j].now)
  }

  /** Relates a pruning counter to one that keeps everything. */
  ghost predicate Prunes(s: Settings, st: State, full: State) {
    && st.current == full.current
    && Sorted(full.hist + [full.current])
    && st.hist == NewHistory(full.hist, s, full.current.start)
  }

  lemma StepPrunes(s: Settings, st: State, full: State, op: Op)
    requires Prunes(s, st, full)
    requires op.Add? && full.current.duration != 0 && op.now >= full.current.start + full.current.duration ==>
               full.current.start <= op.now
    ensures Prunes(s, Step(st, s, op), Step(full, UNLIMITED, op))
  {
    var full' := Step(full, UNLIMITED, op);
    match op
    case Reset(now) =>
    case Add(i, now) =>
      var c := full.current;
      if now < c.start + c.duration || c.duration == 0 {
        assert forall j :: 0 <= j < |full.hist| ==>
                             (full.hist + [c])[j] == full.hist[j] == (full'.hist + [full'.current])[j];
        assert (full.hist + [c])[|full.hist|] == c;
      } else {
        PruneTwice(full.hist, [c], s, c.start, now);
        var all := full.hist + [c];
        forall j | 0 <= j < |all|
          ensures all[j].start <= now
        {
          assert all[|full.hist|] == c;
        }
      }
  }

  lemma {:induction false} StartIsPast(s: Settings, duration: int, t0: int, ops: seq<Op>, now: int)
    requires Monotone(t0, ops, now)
    ensures Run(Start(duration, t0), s, ops).current.start <= now
  {
    if ops != [] {
      StartIsPast(s, duration, t0, ops[..|ops| - 1], ops[|ops| - 1].now);
    }
  }

  /** A window that is not negative rolls over forwards under any clock; a negative one does if the
      clock never runs backwards. */
  lemma {:induction false} RunPrunes(s: Settings, duration: int, t0: int, ops: seq<Op>, now: int)
    requires duration >= 0 || Monotone(t0, ops, now)
    ensures Prunes(s, Run(Start(duration, t0), s, ops), Run(Start(duration, t0), UNLIMITED, ops))
  {
    if ops != [] {
      var front, op := ops[..|ops| - 1], ops[|ops| - 1];
      RunPrunes(s, duration, t0, front, op.now);
      RunKeepsDuration(Start(duration, t0), UNLIMITED, front);
      if duration < 0 {
        StartIsPast(UNLIMITED, duration, t0, front, op.now);
      }
      StepPrunes(s, Run(Start(duration, t0), s, front), Run(Start(duration, t0), UNLIMITED, front), op);
    }
  }

  /** Pruning at every rollover is pruning on demand: with fixed settings, what the counter reports is
      NewHistory of the complete history it would have without limits.  The clock may run backwards
      in between, as long as the report is not made before the current window started; for a negative
      window it may not. */
  lemma PruningIsOnDemand(s: Settings, duration: int, t0: int, ops: seq<Op>, now: int)
    requires duration >= 0 || Monotone(t0, ops, now)
    requires Run(Start(duration, t0), UNLIMITED, ops).current.start <= now
    ensures var st, full := Run(Start(duration, t0), s, ops), Run(Start(duration, t0), UNLIMITED, ops);
            && st.current == full.current
            && InclusiveAt(st, s, now) == NewHistory(full.hist + [full.current], s, now)
            && HistoryAt(st, s, now) == NewHistory(HistoryAt(full, UNLIMITED, now), s, now)
            && Sorted(full.hist + [full.current])
  {
    var st, full := Run(Start(duration, t0), s, ops), Run(Start(duration, t0), UNLIMITED, ops);
    RunPrunes(s, duration, t0, ops, now);
    PruneTwice(full.hist, [full.current], s, full.current.start, now);
    assert full.hist + [] == full.hist && st.hist + [] == st.hist;
    assert Sorted(full.hist) by {
      assert forall i :: 0 <= i < |full.hist| ==> full.hist[i] == (full.hist + [full.current])[i];
    }
    PruneTwice(full.hist, [], s, full.current.start, now);
  }

  /** A counter whose window is not negative always keeps its history sorted, under any clock. */
  lemma RunsStaySorted(s: Settings, duration: int, t0: int, ops: seq<Op>)
    requires duration >= 0
    ensures var st := Run(Start(duration, t0), s, ops); Sorted(st.hist + [st.current])
  {
    var st, full := Run(Start(duration, t0), s, ops), Run(Start(duration, t0), UNLIMITED, ops);
    RunPrunes(s, duration, t0, ops, t0);
    var all := full.hist + [full.current];
    assert full.hist == all[0..|full.hist|];
    SortedPart(all, 0, |full.hist|);
    var k := PrunedIsSuffix(full.hist, s, full.current.start);
    assert st.hist + [st.current] == all[k..|all|];
    SortedPart(all, k, |all|);
  }

  /** Pruning in the documented order. */
  function Documented(hist: seq<Counter>, s: Settings, now: int): seq<Counter> {
    Cap(Age(hist, s.maxAge, now), s.max)
  }

  /** What a counter reports after a run, with its current counter or without it while its window is
      open, is what the documented order of pruning would leave. */
  ghost predicate OrdersAgreeOn(s: Settings, duration: int, t0: int, ops: seq<Op>, now: int) {
    var st := Run(Start(duration, t0), s, ops);
    var c, all := st.current, st.hist + [st.current];
    && InclusiveAt(st, s, now) == Documented(all, s, now)
    && HistoryAt(st, s, now) == Documented(if now > c.start + duration || duration == 0 then all else st.hist, s, now)
  }

  lemma RollsBackwards(duration: int)
    requires duration < 0
    ensures Run(Start(duration, -duration), Settings(1, 1), [Add(0, 0)])
         == State([Counter(-duration, duration, 0)], Counter(0, duration, 0))
  {
    var st, s, ops := Start(duration, -duration), Settings(1, 1), [Add(0, 0)];
    var a := st.current;
    assert ops[..0] == [];
    assert Run(st, s, []) == st;
    RecentSnoc([], a, 1, 0);
    assert Recent([], 1, 0) == [];
    assert [] + [a] == [a];
  }

  lemma OlderLast(a: Counter, b: Counter, now: int)
    requires now - a.start <= 1 && now - b.start > 1
    ensures NewHistory([a] + [b], Settings(1, 1), now) == [] && Documented([a] + [b], Settings(1, 1), now) == [a]
  {
    RecentSnoc([], a, 1, now);
    RecentSnoc([], b, 1, now);
    RecentSnoc([a], b, 1, now);
    assert Recent([], 1, now) == [];
    assert [] + [a] == [a] && [] + [b] == [b];
    assert ([a] + [b])[1..] == [b];
  }

  /** A negative window rolls over backwards when the clock does, and then the order matters. */
  lemma PruningOrderMattersUnsorted(duration: int)
    requires duration < 0
    ensures !OrdersAgreeOn(Settings(1, 1), duration, -duration, [Add(0, 0)], 1 - duration)
  {
    RollsBackwards(duration);
    OlderLast(Counter(-duration, duration, 0), Counter(0, duration, 0), 1 - duration);
  }

  /** On everything a counter can ever report, the order of the code is the documented one, whatever
      the settings and the clock, exactly when its window is not negative. */
  lemma OrdersAgreeIff(duration: int)
    ensures (forall s, t0, ops, now :: OrdersAgreeOn(s, duration, t0, ops, now)) <==> duration >= 0
  {
    if duration >= 0 {
      forall s, t0, ops, now
        ensures OrdersAgreeOn(s, duration, t0, ops, now)
      {
        var st := Run(Start(duration, t0), s, ops);
        RunsStaySorted(s, duration, t0, ops);
        RunKeepsDuration(Start(duration, t0), s, ops);
        var all := st.hist + [st.current];
        PruningOrderIrrelevant(all, s, now);
        assert st.hist == all[0..|st.hist|];
        SortedPart(all, 0, |st.hist|);
        PruningOrderIrrelevant(st.hist, s, now);
      }
    } else {
      PruningOrderMattersUnsorted(duration);
    }
  }

  // ---------------------------------------------------------------- tumbling windows

  datatype Entry = Entry(i: uint64, now: int)

  datatype Window = Window(start: int, adds: seq<Entry>)

  function Total(log: seq<Entry>): nat {
    if log == [] then 0 else Total(log[..|log| - 1]) + log[|log| - 1].i
  }

  function Concat(ws: seq<Window>): seq<Entry> {
    if ws == [] then [] else Concat(ws[..|ws| - 1]) + ws[|ws| - 1].adds
  }

  function Adds(log: seq<Entry>): (ops: seq<Op>)
    ensures |ops| == |log| && forall k :: 0 <= k < |log| ==> ops[k] == Add(log[k].i, log[k].now)
  {
    seq(|log|, k requires 0 <= k < |log| => Add(log[k].i, log[k].now))
  }

  /** Makes the adds of a log on a counter without history limits. */
  function RunLog(st: State, log: seq<Entry>): State {
    Run(st, UNLIMITED, Adds(log))
  }

  function CounterOf(duration: int, w: Window): Counter {
    Counter(w.start, duration, Wrap(Total(w.adds)))
  }

  function CountersOf(duration: int, ws: seq<Window>): (cs: seq<Counter>)
    ensures |cs| == |ws| && forall k :: 0 <= k < |ws| ==> cs[k] == CounterOf(duration, ws[k])
  {
    seq(|ws|, k requires 0 <= k < |ws| => CounterOf(duration, ws[k]))
  }

  /** Window k opens with its first entry, when the previous window is over, and holds only
      entries made before it ends. */
  ghost predicate Placed(duration: int, ws: seq<Window>, k: nat)
    requires k < |ws|
  {
    && (k > 0 ==> ws[k].adds != [] && ws[k].adds[0].now == ws[k].start && ws[k - 1].start + duration <= ws[k].start)
    && (forall e :: e in ws[k].adds ==> e.now < ws[k].start + duration)
  }

  /** The windows cut the log into consecutive blocks, the first opening at t0. */
  ghost predicate Tumbling(t0: int, duration: int, log: seq<Entry>, ws: seq<Window>) {
    && ws != [] && ws[0].start == t0 && Concat(ws) == log
    && (forall k :: 0 <= k < |ws| ==> Placed(duration, ws, k))
  }

  /** Takes the last entry off a partition, and its window if that leaves it empty. */
  function Unadd(ws: seq<Window>): seq<Window>
    requires ws != [] && ws[|ws| - 1].adds != []
  {
    var n := |ws| - 1;
    var adds := ws[n].adds;
    if n > 0 && |adds| == 1 then ws[..n] else ws[..n] + [ws[n].(adds := adds[..|adds| - 1])]
  }

  lemma LastWindowHoldsLast(t0: int, duration: int, log: seq<Entry>, ws: seq<Window>)
    requires log != [] && Tumbling(t0, duration, log, ws)
    ensures ws[|ws| - 1].adds != []
    ensures var adds := ws[|ws| - 1].adds; adds[|adds| - 1] == log[|log| - 1]
  {
    var n := |ws| - 1;
    assert Placed(duration, ws, n);
    if n == 0 {
      assert Concat(ws[..0]) == [];
    }
  }

  lemma LastWindowPlaced(t0: int, duration: int, log: seq<Entry>, ws: seq<Window>)
    requires Tumbling(t0, duration, log, ws) && ws[|ws| - 1].adds != []
    ensures var n, w := |ws| - 1, ws[|ws| - 1];
            && w.adds[|w.adds| - 1].now < w.start + duration
            && (n > 0 ==> w.adds[0].now == w.start && ws[n - 1].start + duration <= w.start)
  {
    var w := ws[|ws| - 1];
    assert Placed(duration, ws, |ws| - 1);
    assert w.adds[|w.adds| - 1] in w.adds;
  }

  lemma UnaddTumbling(t0: int, duration: int, log: seq<Entry>, ws: seq<Window>)
    requires log != [] && Tumbling(t0, duration, log, ws)
    ensures ws[|ws| - 1].adds != []
    ensures Tumbling(t0, duration, log[..|log| - 1], Unadd(ws))
  {
    LastWindowHoldsLast(t0, duration, log, ws);
    var n, ws' := |ws| - 1, Unadd(ws);
    var adds := ws[n].adds;
    var front := adds[..|adds| - 1];
    assert log == Concat(ws[..n]) + adds;
    assert log[..|log| - 1] == Concat(ws[..n]) + front;
    assert ws'[..n] == ws[..n];
    if n > 0 && |adds| == 1 {
      assert front == [] && ws' == ws[..n];
    }
    forall k | 0 <= k < |ws'|
      ensures Placed(duration, ws', k)
    {
      assert Placed(duration, ws, k);
      if k == n {
        assert forall e :: e in front ==> e in adds;
      }
    }
  }

  lemma BumpWindow(duration: int, w: Window)
    requires w.adds != []
    ensures var m := |w.adds| - 1;
            Bump(CounterOf(duration, w.(adds := w.adds[..m])), w.adds[m].i) == CounterOf(duration, w)
  {
    var m := |w.adds| - 1;
    var x, y := Total(w.adds[..m]), w.adds[m].i;
    WrapAdd(x, Wrap(y));
    WrapAdd(x, y);
  }

  lemma BumpFirst(duration: int, w: Window)
    requires |w.adds| == 1
    ensures Bump(Counter(w.start, duration, 0), w.adds[0].i) == CounterOf(duration, w)
  {
    BumpWindow(duration, w);
    assert w.adds[..0] == [];
    assert Total([]) == 0;
  }

  lemma UnlimitedStep(st: State, e: Entry)
    requires st.current.duration > 0
    ensures Step(st, UNLIMITED, Add(e.i, e.now)) ==
              if e.now < st.current.start + st.current.duration then st.(current := Bump(st.current, e.i))
              else State(st.hist + [st.current], Bump(Counter(e.now, st.current.duration, 0), e.i))
  {
  }

  lemma NewWindowStep(duration: int, front: seq<Window>, w: Window, st: State)
    requires duration > 0 && front != [] && |w.adds| == 1 && w.adds[0].now == w.start
    requires front[|front| - 1].start + duration <= w.start
    requires st.hist + [st.current] == CountersOf(duration, front)
    ensures var st' := Step(st, UNLIMITED, Add(w.adds[0].i, w.adds[0].now));
            st'.hist + [st'.current] == CountersOf(duration, front + [w])
  {
    LastCounter(duration, front, st);
    UnlimitedStep(st, w.adds[0]);
    BumpFirst(duration, w);
    var st' := Step(st, UNLIMITED, Add(w.adds[0].i, w.adds[0].now));
    assert st'.hist == CountersOf(duration, front) && st'.current == CounterOf(duration, w);
    SplitCounters(duration, front + [w], st'.hist, st'.current);
  }

  lemma SameWindowStep(duration: int, front: seq<Window>, w: Window, st: State)
    requires duration > 0 && w.adds != [] && w.adds[|w.adds| - 1].now < w.start + duration
    requires st.hist + [st.current] == CountersOf(duration, front + [w.(adds := w.adds[..|w.adds| - 1])])
    ensures var e := w.adds[|w.adds| - 1];
            var st' := Step(st, UNLIMITED, Add(e.i, e.now));
            st'.hist + [st'.current] == CountersOf(duration, front + [w])
  {
    var e := w.adds[|w.adds| - 1];
    LastCounter(duration, front + [w.(adds := w.adds[..|w.adds| - 1])], st);
    UnlimitedStep(st, e);
    BumpWindow(duration, w);
    var st' := Step(st, UNLIMITED, Add(e.i, e.now));
    assert st'.hist == st.hist && st'.current == CounterOf(duration, w);
    SplitCounters(duration, front + [w], st'.hist, st'.current);
  }

  /** Adding the last entry to the counters of the partition without it gives the counters of the
      whole partition. */
  lemma AddIsPartitionStep(t0: int, duration: int, log: seq<Entry>, ws: seq<Window>, st: State)
    requires duration > 0 && log != [] && Tumbling(t0, duration, log, ws)
    requires ws[|ws| - 1].adds != [] && st.hist + [st.current] == CountersOf(duration, Unadd(ws))
    ensures var e := log[|log| - 1];
            var st' := Step(st, UNLIMITED, Add(e.i, e.now));
            st'.hist + [st'.current] == CountersOf(duration, ws)
  {
    var n := |ws| - 1;
    var front, w := ws[..n], ws[n];
    LastWindowHoldsLast(t0, duration, log, ws);
    LastWindowPlaced(t0, duration, log, ws);
    assert ws == front + [w];
    if n > 0 && |w.adds| == 1 {
      NewWindowStep(duration, front, w, st);
    } else {
      SameWindowStep(duration, front, w, st);
    }
  }

  lemma LastCounter(duration: int, ws: seq<Window>, st: State)
    requires ws != [] && st.hist + [st.current] == CountersOf(duration, ws)
    ensures |st.hist| == |ws| - 1
    ensures st.current == CounterOf(duration, ws[|ws| - 1]) && st.hist == CountersOf(duration, ws)[..|ws| - 1]
  {
    assert st.current == (st.hist + [st.current])[|st.hist|];
  }

  lemma SplitCounters(duration: int, ws: seq<Window>, hist: seq<Counter>, current: Counter)
    requires ws != [] && current == CounterOf(duration, ws[|ws| - 1])
    requires |hist| == |ws| - 1 && forall k :: 0 <= k < |hist| ==> hist[k] == CounterOf(duration, ws[k])
    ensures hist + [current] == CountersOf(duration, ws)
  {
  }

  /** Without limits the counter holds exactly the counts of any tumbling-window partition of the timed
      log of adds, so all such partitions have the same counts. */
  lemma {:induction false} CounterIsPartition(t0: int, duration: int, log: seq<Entry>, ws: seq<Window>)
    requires duration > 0 && Tumbling(t0, duration, log, ws)
    ensures var st := RunLog(Start(duration, t0), log);
            st.hist + [st.current] == CountersOf(duration, ws)
    decreases |log|
  {
    if log == [] {
      EmptyPartition(t0, duration, ws);
      assert [] + [Counter(t0, duration, 0)] == [Counter(t0, duration, 0)];
    } else {
      UnaddTumbling(t0, duration, log, ws);
      CounterIsPartition(t0, duration, log[..|log| - 1], Unadd(ws));
      RunAdds(Start(duration, t0), log);
      AddIsPartitionStep(t0, duration, log, ws, RunLog(Start(duration, t0), log[..|log| - 1]));
    }
  }

  lemma RunAdds(st: State, log: seq<Entry>)
    requires log != []
    ensures var e := log[|log| - 1];
            RunLog(st, log) == Step(RunLog(st, log[..|log| - 1]), UNLIMITED, Add(e.i, e.now))
  {
    assert Adds(log)[..|log| - 1] == Adds(log[..|log| - 1]);
  }

  lemma EmptyPartition(t0: int, duration: int, ws: seq<Window>)
    requires Tumbling(t0, duration, [], ws)
    ensures CountersOf(duration, ws) == [Counter(t0, duration, 0)]
  {
    var n := |ws| - 1;
    assert Placed(duration, ws, n);
    assert Concat(ws) == Concat(ws[..n]) + ws[n].adds;
    assert ws[n].adds == [];
    assert n == 0;
    assert Total([]) == 0;
  }

  /** Every log read with a monotone clock has such a partition. */
  lemma {:induction false} PartitionExists(t0: int, duration: int, log: seq<Entry>) returns (ws: seq<Window>)
    requires duration > 0
    requires forall k :: 0 <= k < |log| ==> t0 <= log[k].now
    requires forall j, k :: 0 <= j < k < |log| ==> log[j].now <= log[k].now
    ensures Tumbling(t0, duration, log, ws)
    ensures ws[|ws| - 1].start <= if log == [] then t0 else log[|log| - 1].now
    decreases |log|
  {
    if log == [] {
      ws := [Window(t0, [])];
      assert ws[..0] == [];
    } else {
      var m := |log| - 1;
      var e := log[m];
      var front := PartitionExists(t0, duration, log[..m]);
      var n := |front| - 1;
      ws := Extend(duration, front, e);
      ExtendTumbling(t0, duration, log[..m], front, e);
      assert log == log[..m] + [e];
    }
  }

  function Extend(duration: int, ws: seq<Window>, e: Entry): seq<Window>
    requires ws != []
  {
    var n := |ws| - 1;
    if e.now < ws[n].start + duration then ws[..n] + [ws[n].(adds := ws[n].adds + [e])]
    else ws + [Window(e.now, [e])]
  }

  lemma ExtendConcat(duration: int, ws: seq<Window>, e: Entry)
    requires ws != []
    ensures Concat(Extend(duration, ws, e)) == Concat(ws) + [e]
  {
    var n, ws' := |ws| - 1, Extend(duration, ws, e);
    if e.now < ws[n].start + duration {
      assert ws'[..n] == ws[..n];
      assert Concat(ws') == Concat(ws[..n]) + (ws[n].adds + [e]);
    } else {
      assert ws'[..n + 1] == ws;
    }
  }

  lemma ExtendPlaced(duration: int, ws: seq<Window>, e: Entry, k: nat)
    requires duration > 0 && ws != [] && k < |Extend(duration, ws, e)|
    requires k < |ws| ==> Placed(duration, ws, k)
    ensures Placed(duration, Extend(duration, ws, e), k)
  {
  }

  lemma ExtendTumbling(t0: int, duration: int, log: seq<Entry>, ws: seq<Window>, e: Entry)
    requires duration > 0 && Tumbling(t0, duration, log, ws)
    requires ws[|ws| - 1].start <= e.now
    ensures Tumbling(t0, duration, log + [e], Extend(duration, ws, e))
  {
    ExtendConcat(duration, ws, e);
    var ws' := Extend(duration, ws, e);
    forall k | 0 <= k < |ws'|
      ensures Placed(duration, ws', k)
    {
      ExtendPlaced(duration, ws, e, k);
    }
  }

  // ---------------------------------------------------------------- conservation

  function SumValues(cs: seq<Counter>): int {
    if cs == [] then 0 else SumValues(cs[..|cs| - 1]) + cs[|cs| - 1].value
  }

  lemma {:induction false} TotalAppend(a: seq<Entry>, b: seq<Entry>)
    ensures Total(a + b) == Total(a) + Total(b)
    decreases |b|
  {
    if b == [] {
      assert a + b == a;
    } else {
      assert (a + b)[..|a + b| - 1] == a + b[..|b| - 1];
      TotalAppend(a, b[..|b| - 1]);
    }
  }

  lemma WrapAtMost(x: nat)
    ensures Wrap(x) <= x
    ensures Wrap(x) == x <==> x < HALF
  {
  }

  lemma WrapSum(x: int, y: int, t: int)
    requires Wrap(x) == Wrap(t)
    ensures Wrap(x + Wrap(y)) == Wrap(t + y)
  {
    WrapAdd(x, y);
    WrapAdd(t, y);
  }

  ghost predicate NoneOverflows(ws: seq<Window>) {
    forall k :: 0 <= k < |ws| ==> Total(ws[k].adds) < HALF
  }

  lemma SumValuesSnoc(duration: int, front: seq<Window>, w: Window)
    ensures SumValues(CountersOf(duration, front + [w])) == SumValues(CountersOf(duration, front)) + Wrap(Total(w.adds))
    ensures Total(Concat(front + [w])) == Total(Concat(front)) + Total(w.adds)
    ensures NoneOverflows(front + [w]) <==> NoneOverflows(front) && Total(w.adds) < HALF
  {
    var ws, n := front + [w], |front|;
    assert ws[..n] == front && ws[n] == w;
    assert CountersOf(duration, ws)[..n] == CountersOf(duration, front);
    TotalAppend(Concat(front), w.adds);
    assert forall k :: 0 <= k < n ==> ws[k] == front[k];
  }

  /** Nothing added is lost: the history and the current counter sum to everything added exactly when
      no single window counted to 2^63, and modulo 2^64 always. */
  lemma {:induction false} CountsConserved(duration: int, ws: seq<Window>)
    ensures Wrap(SumValues(CountersOf(duration, ws))) == Wrap(Total(Concat(ws)))
    ensures SumValues(CountersOf(duration, ws)) <= Total(Concat(ws))
    ensures SumValues(CountersOf(duration, ws)) == Total(Concat(ws)) <==> NoneOverflows(ws)
  {
    if ws != [] {
      var n := |ws| - 1;
      var front, w := ws[..n], ws[n];
      assert ws == front + [w];
      CountsConserved(duration, front);
      SumValuesSnoc(duration, front, w);
      var r, t, m := SumValues(CountersOf(duration, front)), Total(Concat(front)), Total(w.adds);
      ConservedStep(r, t, m);
      assert SumValues(CountersOf(duration, ws)) == r + Wrap(m) && Total(Concat(ws)) == t + m;
    }
  }

  lemma ConservedStep(reported: int, total: nat, more: nat)
    requires Wrap(reported) == Wrap(total) && reported <= total
    ensures Wrap(reported + Wrap(more)) == Wrap(total + more)
    ensures reported + Wrap(more) <= total + more
    ensures reported + Wrap(more) == total + more <==> reported == total && more < HALF
  {
    WrapAtMost(more);
    WrapSum(reported, more, total);
  }

  /** With a monotone clock the history and the current counter report everything added. */
  lemma {:induction false} EverythingAddedIsReported(t0: int, duration: int, log: seq<Entry>)
    requires duration > 0
    requires forall k :: 0 <= k < |log| ==> t0 <= log[k].now
    requires forall j, k :: 0 <= j < k < |log| ==> log[j].now <= log[k].now
    ensures var st := RunLog(Start(duration, t0), log);
            var reported := SumValues(st.hist + [st.current]);
            Wrap(reported) == Wrap(Total(log)) && (Total(log) < HALF ==> reported == Total(log))
  {
    var ws := PartitionExists(t0, duration, log);
    CounterIsPartition(t0, duration, log, ws);
    CountsConserved(duration, ws);
    WindowWithinTotal(ws);
  }

  lemma {:induction false} WindowWithinTotal(ws: seq<Window>)
    ensures Total(Concat(ws)) < HALF ==> NoneOverflows(ws)
  {
    if ws != [] {
      var n := |ws| - 1;
      WindowWithinTotal(ws[..n]);
      TotalAppend(Concat(ws[..n]), ws[n].adds);
      assert forall k :: 0 <= k < n ==> ws[k] == ws[..n][k];
    }
  }

  lemma {:induction false} RunKeepsDuration(st: State, s: Settings, ops: seq<Op>)
    ensures Run(st, s, ops).current.duration == st.current.duration
  {
    if ops != [] {
      RunKeepsDuration(st, s, ops[..|ops| - 1]);
    }
  }

  /** After a reset the counter runs like a new one of the same duration. */
  lemma {:induction false} ResetForgets(st: State, s: Settings, before: seq<Op>, now: int, after: seq<Op>)
    ensures Run(st, s, before + [Reset(now)] + after) == Run(Start(st.current.duration, now), s, after)
    decreases |after|
  {
    var ops := before + [Reset(now)] + after;
    if after == [] {
      assert ops == before + [Reset(now)] && ops[..|ops| - 1] == before;
      RunKeepsDuration(st, s, before);
    } else {
      var front := after[..|after| - 1];
      assert ops[..|ops| - 1] == before + [Reset(now)] + front;
      ResetForgets(st, s, before, now, front);
    }
  }

  // ---------------------------------------------------------------- the current value

  /** Zero once the current window is over. */
  function ValueAt(st: State, now: int): int {
    if now > st.current.start + st.current.duration && st.current.duration >= 0 then 0 else st.current.value
  }

  /** The value counts the adds of the last window of the partition while that window lasts, its end
      included, and nothing afterwards. */
  lemma ValueCountsOpenWindow(t0: int, duration: int, log: seq<Entry>, ws: seq<Window>, now: int)
    requires duration > 0 && Tumbling(t0, duration, log, ws)
    ensures var w := ws[|ws| - 1];
            ValueAt(RunLog(Start(duration, t0), log), now) ==
            if now <= w.start + duration then Wrap(Total(w.adds)) else 0
  {
    CounterIsPartition(t0, duration, log, ws);
    LastCounter(duration, ws, RunLog(Start(duration, t0), log));
  }

  /** Without a duration one window takes every add, whatever the clock. */
  lemma {:induction false} ZeroDurationRun(t0: int, log: seq<Entry>)
    ensures RunLog(Start(0, t0), log) == State([], Counter(t0, 0, Wrap(Total(log))))
  {
    if log == [] {
      assert Total([]) == 0;
    } else {
      var n := |log| - 1;
      ZeroDurationRun(t0, log[..n]);
      RunAdds(Start(0, t0), log);
      WrapAdd(Total(log[..n]), Wrap(log[n].i));
      WrapAdd(Total(log[..n]), log[n].i);
    }
  }

  /** A counter without a duration shows the total of its adds, as a plain counter does, exactly until
      the clock has moved past its start, or when that total is zero. */
  lemma ZeroDurationValueIff(t0: int, log: seq<Entry>, now: int)
    ensures ValueAt(RunLog(Start(0, t0), log), now) == Wrap(Total(log)) <==> now <= t0 || Wrap(Total(log)) == 0
  {
    ZeroDurationRun(t0, log);
  }

  /** Three added at the start are gone one tick later. */
  lemma ZeroDurationLosesValue()
    ensures ValueAt(RunLog(Start(0, 0), [Entry(3, 0)]), 0) == 3
    ensures ValueAt(RunLog(Start(0, 0), [Entry(3, 0)]), 1) == 0
  {
    ZeroDurationRun(0, [Entry(3, 0)]);
    assert [Entry(3, 0)][..0] == [];
    assert Total([]) == 0;
  }

  // ---------------------------------------------------------------- objects

  class CounterObject {
    const start: int
    const duration: int
    var value: int

    function Snapshot(): Counter
      reads this
    {
      Counter(start, duration, value)
    }

    constructor (start: int, duration: int)
      ensures Snapshot() == Counter(start, duration, 0)
    {
      this.start := start;
      this.duration := duration;
      value := 0;
    }

    method Add(i: uint64)
      modifies this
      ensures Snapshot() == Bump(old(Snapshot()), i)
    {
      value := Wrap(value + Wrap(i));
    }
  }

  method NewHistoryLoop(hist: seq<Counter>, s: Settings, now: int) returns (r: seq<Counter>)
    ensures r == NewHistory(hist, s, now)
  {
    r := hist;
    if s.max == 0 && s.maxAge == 0 {
      return;
    }
    if s.max > 0 && |r| > s.max {
      r := r[|r| - s.max..];
    }
    if s.maxAge > 0 {
      var c: seq<Counter> := [];
      for k := 0 to |r|
        invariant c == Recent(r[..k], s.maxAge, now)
      {
        assert r[..k + 1][..k] == r[..k];
        if now - r[k].start <= s.maxAge {
          c := c + [r[k]];
        }
      }
      assert r[..|r|] == r;
      r := c;
    }
  }

  class WindowedCounter {
    var hist: seq<Counter>
    var current: CounterObject?
    var settings: Settings

    /** An empty struct has no current counter, and every call on it dereferences nil. */
    predicate Started()
      reads this
    {
      current != null
    }

    function Abs(): State
      requires Started()
      reads this, current
    {
      State(hist, current.Snapshot())
    }

    constructor (duration: int, now: int)
      ensures Started() && Abs() == Start(duration, now) && settings == UNLIMITED && fresh(current)
    {
      hist := [];
      current := new CounterObject(now, duration);
      settings := UNLIMITED;
    }

    constructor Empty()
      ensures !Started() && settings == UNLIMITED
    {
      hist := [];
      current := null;
      settings := UNLIMITED;
    }

    /** None is the nil dereference. */
    method Value(now: int) returns (v: Option<int>)
      ensures v == if Started() then Some(ValueAt(Abs(), now)) else None
    {
      if current == null {
        return None;
      }
      var end := current.start + current.duration;
      if now > end && current.duration >= 0 {
        return Some(0);
      }
      v := Some(current.value);
    }

    method Add(i: uint64, now: int) returns (ok: bool)
      modifies this, current
      ensures ok == old(Started()) == Started() && settings == old(settings)
      ensures ok ==> Abs() == Step(old(Abs()), settings, Op.Add(i, now))
      ensures current == old(current) || fresh(current)
    {
      if current == null {
        return false;
      }
      var end := current.start + current.duration;
      if !(now < end || current.duration == 0) {
        hist := NewHistoryLoop(hist + [current.Snapshot()], settings, now);
        current := new CounterObject(now, current.duration);
      }
      current.Add(i);
      ok := true;
    }

    method Reset(now: int) returns (ok: bool)
      modifies this
      ensures ok == old(Started()) == Started() && settings == old(settings)
      ensures ok ==> Abs() == Step(old(Abs()), settings, Op.Reset(now)) && fresh(current)
    {
      hist := [];
      if current == null {
        return false;
      }
      current := new CounterObject(now, current.duration);
      ok := true;
    }

    method History(now: int) returns (r: Option<seq<Counter>>)
      ensures r == if Started() then Some(HistoryAt(Abs(), settings, now)) else None
    {
      if current == null {
        return None;
      }
      var end := current.start + current.duration;
      var pruned: seq<Counter>;
      if now > end || current.duration == 0 {
        pruned := NewHistoryLoop(hist + [current.Snapshot()], settings, now);
      } else {
        pruned := NewHistoryLoop(hist, settings, now);
      }
      r := Some(pruned);
    }

    method HistoryInclusive(now: int) returns (r: Option<seq<Counter>>)
      ensures r == if Started() then Some(InclusiveAt(Abs(), settings, now)) else None
    {
      if current == null {
        return None;
      }
      var pruned := NewHistoryLoop(hist + [current.Snapshot()], settings, now);
      r := Some(pruned);
    }
  }
}
