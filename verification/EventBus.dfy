/** The bus operations as the source runs them: loops over a map of lists under the lock, proved to
    compute what the steps of module Bus say. */
module EventBuses {
  import opened Bus
  import opened Unsubscribing

  class EventBus {
    var subscribers: map<Topic, seq<nat>>
    var done: seq<nat>
    var sdStarted: bool

    constructor ()
      ensures subscribers == INITIAL.topics && done == INITIAL.done && sdStarted == INITIAL.sdStarted
    {
      subscribers := map[];
      done := [];
      sdStarted := false;
    }

    /** Registers a new channel, the default topic standing in for an empty list. */
    method Subscribe(topics: seq<Topic>, c: nat)
      modifies this
      ensures subscribers == AddTo(old(subscribers), Effective(topics), c)
      ensures done == old(done) + [c] && sdStarted == old(sdStarted)
    {
      done := done + [c];
      var ts := topics;
      if |ts| == 0 {
        ts := [DEFAULT_TOPIC];
      }
      for i := 0 to |ts|
        invariant subscribers == AddTo(old(subscribers), ts[..i], c)
        invariant done == old(done) + [c] && sdStarted == old(sdStarted)
      {
        assert ts[..i + 1][..i] == ts[..i] && [] + [c] == [c];
        if ts[i] in subscribers {
          subscribers := subscribers[ts[i] := subscribers[ts[i]] + [c]];
        } else {
          subscribers := subscribers[ts[i] := [c]];
        }
      }
      assert ts[..|ts|] == ts;
    }

    /** Spawns the senders for one event. */
    method Dispatch(event: Event, topics: seq<Topic>) returns (spawned: seq<Task>)
      ensures spawned == if sdStarted then [] else TasksFor(event, topics + [DEFAULT_TOPIC], subscribers)
    {
      spawned := [];
      if sdStarted {
        return;
      }
      var ts := topics + [DEFAULT_TOPIC];
      for i := 0 to |ts|
        invariant spawned == TasksFor(event, ts[..i], subscribers)
      {
        assert ts[..i + 1][..i] == ts[..i];
        var channels := if ts[i] in subscribers then subscribers[ts[i]] else [];
        if |channels| != 0 {
          var tasks := SpawnAll(event, channels);
          spawned := spawned + tasks;
        }
      }
      assert ts[..|ts|] == ts;
    }

    method SpawnAll(event: Event, channels: seq<nat>) returns (tasks: seq<Task>)
      ensures tasks == TopicTasks(event, channels)
    {
      tasks := [];
      for i := 0 to |channels|
        invariant |tasks| == i && forall j :: 0 <= j < i ==> tasks[j] == Task(event, channels[j], Pending)
      {
        tasks := tasks + [Task(event, channels[i], Pending)];
      }
    }

    method RemoveUnder(t: Topic, c: nat, closed: bool) returns (isClosed: bool, fault: bool)
      requires t in subscribers
      modifies this`subscribers
      ensures fault == ClosesTwice(old(subscribers)[t], c, closed)
      ensures isClosed == (closed || c in old(subscribers)[t])
      ensures !fault ==> subscribers == old(subscribers)[t := Without(old(subscribers)[t], c)]
    {
      var list: seq<nat>;
      list, isClosed, fault := RemoveFrom(subscribers[t], c, closed);
      if !fault {
        subscribers := subscribers[t := list];
      }
    }

    /** Ranges over the lists in the given order and removes the channel from each, closing it every
        time it is met.  Gives whether it is closed now and whether a second close panicked. */
    method RemoveEverywhere(order: seq<Topic>, c: nat, closed: bool) returns (isClosed: bool, fault: bool)
      requires NoDup(order) && forall t :: t in order <==> t in subscribers
      modifies this`subscribers
      ensures fault <==> Panics(old(subscribers), c, closed)
      ensures !fault ==> subscribers == Removed(old(subscribers), c)
      ensures !fault ==> isClosed == (closed || IsListed(old(subscribers), c))
    {
      ghost var topics := subscribers;
      isClosed, fault := closed, false;
      for i := 0 to |order|
        invariant !fault && (forall t :: t in order ==> t in topics)
        invariant (subscribers, isClosed, fault) == RangeOver(topics, order[..i], c, closed)
      {
        assert order[..i + 1][..i] == order[..i];
        RangeOverPrefix(topics, order, i + 1, c, closed);
        isClosed, fault := RemoveUnder(order[i], c, isClosed);
        if fault {
          RangeOverIs(topics, order, c, closed);
          return;
        }
      }
      assert order[..|order|] == order;
      RangeOverIs(topics, order, c, closed);
    }

    method Unsubscribe(order: seq<Topic>, c: nat, closed: bool, d: nat, doneClosed: bool) returns (fault: bool)
      requires NoDup(order) && forall t :: t in order <==> t in subscribers
      modifies this
      ensures fault <==>
                || Panics(old(subscribers), c, closed)
                || ClosesTwice(old(done), d, doneClosed)
      ensures !fault ==> subscribers == Removed(old(subscribers), c) && done == Without(old(done), d)
      ensures sdStarted == old(sdStarted)
    {
      var isClosed;
      isClosed, fault := RemoveEverywhere(order, c, closed);
      if fault {
        return;
      }
      var list: seq<nat>;
      list, isClosed, fault := RemoveFrom(done, d, doneClosed);
      if !fault {
        done := list;
      }
    }
  }

  /** The loop over one list, in place on its backing array. */
  method RemoveFrom(list: seq<nat>, c: nat, closed: bool) returns (r: seq<nat>, isClosed: bool, fault: bool)
    ensures fault == ClosesTwice(list, c, closed)
    ensures isClosed == (closed || c in list)
    ensures !fault ==> r == Without(list, c)
  {
    var a := new nat[|list|](i requires 0 <= i < |list| => list[i]);
    assert a[..|list|] == list;
    var len: nat;
    len, isClosed, fault := RemoveWhileRanging(a, |list|, c, closed);
    r := a[..len];
  }

  /** Removing c from one list closes it when it is closed already. */
  predicate ClosesTwice(list: seq<nat>, c: nat, closed: bool) {
    c in list && (closed || MetAgain(list, c))
  }

  /** Removing c from all lists does. */
  ghost predicate Panics(topics: map<Topic, seq<nat>>, c: nat, closed: bool) {
    IsListed(topics, c) && (closed || ClosesAgain(topics, c))
  }

  /** The topics seen so far have lost their first c, the others are as they were; c was met at most
      once, and then it was open. */
  ghost predicate RemovedSoFar(
    topics: map<Topic, seq<nat>>, now: map<Topic, seq<nat>>, seen: seq<Topic>, c: nat, closed: bool, isClosed: bool)
  {
    && now.Keys == topics.Keys
    && (forall t :: t in topics ==> now[t] == if t in seen then Without(topics[t], c) else topics[t])
    && (isClosed <==> closed || exists t :: t in seen && Listed(topics, t, c))
    && (forall t :: t in seen && Listed(topics, t, c) ==> !closed && !MetAgain(topics[t], c))
    && (forall t, u :: t in seen && u in seen && Listed(topics, t, c) && Listed(topics, u, c) ==> t == u)
  }

  /** Ranging over the lists in order: the lists, whether c is closed, and whether that panicked. */
  function RangeOver(topics: map<Topic, seq<nat>>, order: seq<Topic>, c: nat, closed: bool)
    : (r: (map<Topic, seq<nat>>, bool, bool))
    requires forall t :: t in order ==> t in topics
    ensures r.0.Keys == topics.Keys
  {
    if order == [] then (topics, closed, false)
    else
      var (now, isClosed, fault) := RangeOver(topics, order[..|order| - 1], c, closed);
      var t := order[|order| - 1];
      if fault then (now, isClosed, true)
      else if ClosesTwice(now[t], c, isClosed) then (now, isClosed || c in now[t], true)
      else (now[t := Without(now[t], c)], isClosed || c in now[t], false)
  }

  /** A panic on the way is a panic of the whole. */
  lemma {:induction false} RangeOverPrefix(
      topics: map<Topic, seq<nat>>, order: seq<Topic>, i: nat, c: nat, closed: bool)
    requires i <= |order| && forall t :: t in order ==> t in topics
    ensures RangeOver(topics, order[..i], c, closed).2 ==> RangeOver(topics, order, c, closed).2
    decreases |order|
  {
    if i == |order| {
      assert order[..i] == order;
    } else {
      var n := |order| - 1;
      assert order[..n][..i] == order[..i];
      RangeOverPrefix(topics, order[..n], i, c, closed);
    }
  }

  lemma RemovedNone(topics: map<Topic, seq<nat>>, c: nat, closed: bool)
    ensures RemovedSoFar(topics, topics, [], c, closed, closed)
  {
  }

  /** What treating one more topic does, and when it panics. */
  lemma RemovedOneMore(
      topics: map<Topic, seq<nat>>, now: map<Topic, seq<nat>>, order: seq<Topic>, i: nat, c: nat,
      closed: bool, isClosed: bool)
    requires i < |order| && NoDup(order) && order[i] in topics
    requires RemovedSoFar(topics, now, order[..i], c, closed, isClosed)
    ensures var t := order[i];
            && t in now
            && (ClosesTwice(now[t], c, isClosed) ==> Panics(topics, c, closed))
            && (!ClosesTwice(now[t], c, isClosed) ==>
                  RemovedSoFar(topics, now[t := Without(now[t], c)], order[..i + 1], c, closed,
                               isClosed || c in now[t]))
  {
    var t := order[i];
    assert t !in order[..i];
    assert order[..i + 1] == order[..i] + [t];
    assert forall u :: u in order[..i + 1] <==> u in order[..i] || u == t;
    assert Listed(topics, t, c) <==> c in topics[t];
  }

  lemma {:induction false} RangeOverSoFar(topics: map<Topic, seq<nat>>, order: seq<Topic>, c: nat, closed: bool)
    requires NoDup(order) && forall t :: t in order ==> t in topics
    ensures var (now, isClosed, fault) := RangeOver(topics, order, c, closed);
            if fault then Panics(topics, c, closed) else RemovedSoFar(topics, now, order, c, closed, isClosed)
  {
    if order == [] {
      RemovedNone(topics, c, closed);
    } else {
      var n := |order| - 1;
      RangeOverSoFar(topics, order[..n], c, closed);
      var (now, isClosed, fault) := RangeOver(topics, order[..n], c, closed);
      if !fault {
        RemovedOneMore(topics, now, order, n, c, closed, isClosed);
        assert order[..n + 1] == order;
      }
    }
  }

  /** Whatever the order, ranging over all lists panics exactly when c is listed and was closed already
      or is met twice, and otherwise takes the first c off every list. */
  lemma RangeOverIs(topics: map<Topic, seq<nat>>, order: seq<Topic>, c: nat, closed: bool)
    requires NoDup(order) && forall t :: t in order <==> t in topics
    ensures var (now, isClosed, fault) := RangeOver(topics, order, c, closed);
            && (fault <==> Panics(topics, c, closed))
            && (!fault ==> now == Removed(topics, c) && isClosed == (closed || IsListed(topics, c)))
  {
    RangeOverSoFar(topics, order, c, closed);
    var (now, isClosed, fault) := RangeOver(topics, order, c, closed);
    if !fault {
      RemovedAll(topics, now, order, c, closed, isClosed);
    }
  }

  lemma RemovedAll(
      topics: map<Topic, seq<nat>>, now: map<Topic, seq<nat>>, order: seq<Topic>, c: nat, closed: bool, isClosed: bool)
    requires forall t :: t in order <==> t in topics
    requires RemovedSoFar(topics, now, order, c, closed, isClosed)
    ensures !Panics(topics, c, closed)
    ensures now == Removed(topics, c) && isClosed == (closed || IsListed(topics, c))
  {
    assert forall t :: Listed(topics, t, c) ==> t in order;
  }
}
