/** Deliveries are conserved: what Dispatch creates, what becomes of it, and what channels carry. */
module BusDelivery {
  import opened Bus
  import opened BusSafety
  import opened Common

  function CountFor(tasks: seq<Task>, c: nat): nat {
    if tasks == [] then 0
    else CountFor(tasks[..|tasks| - 1], c) + if tasks[|tasks| - 1].chan == c then 1 else 0
  }

  /** How often c is listed under the topics `ts`, counting a repeated topic again. */
  function Occurrences(ts: seq<Topic>, topics: map<Topic, seq<nat>>, c: nat): nat {
    if ts == [] then 0
    else Occurrences(ts[..|ts| - 1], topics, c) + multiset(Lookup(topics, ts[|ts| - 1]))[c]
  }

  function Carried(task: Task, c: nat): multiset<Event> {
    if task.chan == c && task.phase == Sent then multiset{task.event} else multiset{}
  }

  /** The events of the finished senders for c. */
  function SentTo(tasks: seq<Task>, c: nat): multiset<Event> {
    if tasks == [] then multiset{}
    else SentTo(tasks[..|tasks| - 1], c) + Carried(tasks[|tasks| - 1], c)
  }

  predicate Advances(p: Phase, p': Phase) {
    p == p' || (p == Pending && p' in {Holding, Dropped}) || (p == Holding && p' == Sent)
  }

  // ---------------------------------------------------------------- creation

  lemma {:induction false} CountForAppend(a: seq<Task>, b: seq<Task>, c: nat)
    ensures CountFor(a + b, c) == CountFor(a, c) + CountFor(b, c)
    decreases |b|
  {
    if b == [] {
      assert a + b == a;
    } else {
      assert (a + b)[..|a + b| - 1] == a + b[..|b| - 1];
      CountForAppend(a, b[..|b| - 1], c);
    }
  }

  lemma {:induction false} TopicTasksCount(e: Event, list: seq<nat>, c: nat)
    ensures CountFor(TopicTasks(e, list), c) == multiset(list)[c]
  {
    if list != [] {
      var n := |list| - 1;
      TopicTasksCount(e, list[..n], c);
      assert TopicTasks(e, list)[..n] == TopicTasks(e, list[..n]);
      assert list == list[..n] + [list[n]];
    }
  }

  lemma TasksForSnoc(e: Event, ts: seq<Topic>, topics: map<Topic, seq<nat>>, c: nat)
    requires ts != []
    ensures var list := Lookup(topics, ts[|ts| - 1]);
            CountFor(TasksFor(e, ts, topics), c) == CountFor(TasksFor(e, ts[..|ts| - 1], topics), c) + multiset(list)[c]
  {
    var list := Lookup(topics, ts[|ts| - 1]);
    TopicTasksCount(e, list, c);
    CountForAppend(TasksFor(e, ts[..|ts| - 1], topics), TopicTasks(e, list), c);
  }

  lemma {:induction false} TasksForCount(e: Event, ts: seq<Topic>, topics: map<Topic, seq<nat>>, c: nat)
    ensures CountFor(TasksFor(e, ts, topics), c) == Occurrences(ts, topics, c)
  {
    if ts != [] {
      TasksForCount(e, ts[..|ts| - 1], topics, c);
      TasksForSnoc(e, ts, topics, c);
    }
  }

  /** Before shutdown a dispatch creates one sender for each time a channel is listed under the given
      topics and the default one; afterwards it creates none. */
  lemma DispatchCreatesOnePerOccurrence(s: State, e: Event, ts: seq<Topic>, c: nat)
    requires Enabled(s, Dispatch(e, ts))
    ensures var s' := Apply(s, Dispatch(e, ts));
            CountFor(s'.tasks, c) - CountFor(s.tasks, c) ==
            if s.sdStarted then 0
            else Occurrences(ts, s.topics, c) + multiset(Lookup(s.topics, DEFAULT_TOPIC))[c]
  {
    if !s.sdStarted {
      var more := TasksFor(e, ts + [DEFAULT_TOPIC], s.topics);
      CountForAppend(s.tasks, more, c);
      TasksForCount(e, ts + [DEFAULT_TOPIC], s.topics, c);
      assert (ts + [DEFAULT_TOPIC])[..|ts|] == ts;
    }
  }

  // ---------------------------------------------------------------- fate of a sender

  /** Over any run a sender keeps its event and channel and only ever moves from pending to holding the
      lock to sent, or from pending to dropped. */
  lemma {:induction false} SendersOnlyAdvance(s: State, steps: seq<Step>, i: nat)
    requires ValidRun(s, steps) && i < |s.tasks|
    ensures var s' := RunFrom(s, steps);
            && |s.tasks| <= |s'.tasks|
            && s'.tasks[i].event == s.tasks[i].event && s'.tasks[i].chan == s.tasks[i].chan
            && (s.tasks[i].phase in {Sent, Dropped} ==> s'.tasks[i].phase == s.tasks[i].phase)
            && (s.tasks[i].phase == Holding ==> s'.tasks[i].phase in {Holding, Sent})
    decreases |steps|
  {
    if steps != [] {
      var s' := Apply(s, steps[0]);
      assert |s.tasks| <= |s'.tasks| && s'.tasks[i].event == s.tasks[i].event && s'.tasks[i].chan == s.tasks[i].chan;
      assert Advances(s.tasks[i].phase, s'.tasks[i].phase);
      SendersOnlyAdvance(s', steps[1..], i);
    }
  }

  // ---------------------------------------------------------------- conservation

  /** Every channel has carried exactly the events of its finished senders. */
  ghost predicate Delivered(s: State) {
    forall c :: 0 <= c < |s.chans| ==> multiset(s.chans[c].sent) == SentTo(s.tasks, c)
  }

  lemma {:induction false} SentToAppend(a: seq<Task>, b: seq<Task>, c: nat)
    ensures SentTo(a + b, c) == SentTo(a, c) + SentTo(b, c)
    decreases |b|
  {
    if b == [] {
      assert a + b == a;
    } else {
      assert (a + b)[..|a + b| - 1] == a + b[..|b| - 1];
      SentToAppend(a, b[..|b| - 1], c);
      AddGroup(SentTo(a, c), SentTo(b[..|b| - 1], c), Carried(b[|b| - 1], c), SentTo(a + b[..|b| - 1], c));
    }
  }

  lemma SentToOne(task: Task, c: nat)
    ensures SentTo([task], c) == Carried(task, c)
  {
    assert [task][..0] == [];
  }

  lemma SentToMiddle(a: seq<Task>, task: Task, b: seq<Task>, c: nat)
    ensures SentTo(a + [task] + b, c) == (SentTo(a, c) + Carried(task, c)) + SentTo(b, c)
  {
    SentToAppend(a + [task], b, c);
    SentToAppend(a, [task], c);
    SentToOne(task, c);
  }

  lemma SentToUpdate(tasks: seq<Task>, t: nat, p: Phase, c: nat)
    requires t < |tasks| && tasks[t].phase != Sent
    ensures SentTo(tasks[t := tasks[t].(phase := p)], c) == SentTo(tasks, c) + Carried(tasks[t].(phase := p), c)
  {
    var a, task, b := tasks[..t], tasks[t], tasks[t + 1..];
    var task' := task.(phase := p);
    assert tasks == a + [task] + b;
    assert tasks[t := task'] == a + [task'] + b;
    SentToMiddle(a, task, b, c);
    SentToMiddle(a, task', b, c);
    AddBetween(SentTo(a, c), Carried(task, c), Carried(task', c), SentTo(b, c));
  }

  lemma AddGroup<T>(a: multiset<T>, b: multiset<T>, d: multiset<T>, ab: multiset<T>)
    requires ab == a + b
    ensures ab + d == a + (b + d)
  {
  }

  lemma AddBetween<T>(a: multiset<T>, none: multiset<T>, m: multiset<T>, b: multiset<T>)
    requires none == multiset{}
    ensures (a + m) + b == ((a + none) + b) + m
  {
  }

  lemma {:induction false} SentToPending(tasks: seq<Task>, more: seq<Task>, c: nat)
    requires forall i :: 0 <= i < |more| ==> more[i].phase == Pending
    ensures SentTo(tasks + more, c) == SentTo(tasks, c)
    decreases |more|
  {
    if more == [] {
      assert tasks + more == tasks;
    } else {
      assert (tasks + more)[..|tasks + more| - 1] == tasks + more[..|more| - 1];
      SentToPending(tasks, more[..|more| - 1], c);
    }
  }

  lemma {:induction false} SentToNobody(tasks: seq<Task>, c: nat)
    requires forall i :: 0 <= i < |tasks| ==> tasks[i].chan != c
    ensures SentTo(tasks, c) == multiset{}
  {
    if tasks != [] {
      SentToNobody(tasks[..|tasks| - 1], c);
    }
  }

  lemma LockDelivers(s: State, t: nat, c: nat)
    requires Wired(s) && Enabled(s, Lock(t)) && c < |s.chans| && Delivered(s)
    ensures multiset(Apply(s, Lock(t)).chans[c].sent) == SentTo(Apply(s, Lock(t)).tasks, c)
  {
    SentToUpdate(s.tasks, t, if s.sdStarted then Dropped else Holding, c);
  }

  lemma SendDelivers(s: State, t: nat, c: nat)
    requires Wired(s) && Enabled(s, Send(t)) && c < |s.chans| && Delivered(s)
    ensures multiset(Apply(s, Send(t)).chans[c].sent) == SentTo(Apply(s, Send(t)).tasks, c)
  {
    var task, s' := s.tasks[t], Apply(s, Send(t));
    if !s.chans[task.chan].closed {
      SentToUpdate(s.tasks, t, Sent, c);
      if c == task.chan {
        assert s'.chans[c].sent == s.chans[c].sent + [task.event];
      } else {
        assert s'.chans[c] == s.chans[c];
      }
    }
  }

  lemma SubscribeDelivers(s: State, ts: seq<Topic>, c: nat)
    requires Wired(s) && Enabled(s, Subscribe(ts)) && c <= |s.chans| && Delivered(s)
    ensures multiset(Apply(s, Subscribe(ts)).chans[c].sent) == SentTo(s.tasks, c)
  {
    if c == |s.chans| {
      SentToNobody(s.tasks, c);
    }
  }

  lemma DispatchDelivers(s: State, e: Event, ts: seq<Topic>, c: nat)
    requires Wired(s) && Enabled(s, Dispatch(e, ts)) && c < |s.chans| && Delivered(s)
    ensures multiset(Apply(s, Dispatch(e, ts)).chans[c].sent) == SentTo(Apply(s, Dispatch(e, ts)).tasks, c)
  {
    if !s.sdStarted {
      var more := TasksFor(e, ts + [DEFAULT_TOPIC], s.topics);
      forall i | 0 <= i < |more|
        ensures more[i].phase == Pending
      {
        TasksForMember(e, ts + [DEFAULT_TOPIC], s.topics, i);
      }
      SentToPending(s.tasks, more, c);
    }
  }

  lemma UnsubscribeDelivers(s: State, c: nat, d: Option<nat>)
    requires Enabled(s, Unsubscribe(c, d))
    ensures SameTraffic(s, Apply(s, Unsubscribe(c, d)))
  {
    assert SameTraffic(s, UnsubscribeChan(s, c));
  }

  ghost predicate SameTraffic(s: State, s': State) {
    && s'.tasks == s.tasks && |s'.chans| == |s.chans|
    && forall c :: 0 <= c < |s.chans| ==> s'.chans[c].sent == s.chans[c].sent
  }

  /** The other steps neither move a sender nor add a channel. */
  lemma OtherStepDelivers(s: State, step: Step)
    requires Enabled(s, step)
    requires !step.Lock? && !step.Send? && !step.Subscribe? && !step.Dispatch? && !step.Unsubscribe?
    ensures SameTraffic(s, Apply(s, step))
  {
  }

  lemma StepDelivers(s: State, step: Step)
    requires Wired(s) && Delivered(s) && Enabled(s, step)
    ensures Delivered(Apply(s, step))
  {
    var s' := Apply(s, step);
    if step.Unsubscribe? {
      UnsubscribeDelivers(s, step.c, step.done);
    } else if !step.Lock? && !step.Send? && !step.Subscribe? && !step.Dispatch? {
      OtherStepDelivers(s, step);
    } else {
      forall c | 0 <= c < |s'.chans|
        ensures multiset(s'.chans[c].sent) == SentTo(s'.tasks, c)
      {
        match step
        case Lock(t) => LockDelivers(s, t, c);
        case Send(t) => SendDelivers(s, t, c);
        case Subscribe(ts) => SubscribeDelivers(s, ts, c);
        case Dispatch(e, ts) => DispatchDelivers(s, e, ts, c);
      }
    }
  }

  lemma {:induction false} RunsDeliver(s: State, steps: seq<Step>)
    requires Wired(s) && Delivered(s) && ValidRun(s, steps)
    ensures Delivered(RunFrom(s, steps))
    decreases |steps|
  {
    if steps != [] {
      StepKeepsWired(s, steps[0]);
      StepDelivers(s, steps[0]);
      RunsDeliver(Apply(s, steps[0]), steps[1..]);
    }
  }

  /** On every run of a new bus, whatever its subscribers do, each channel has received, in order, what
      was sent on it apart from at most one buffered event, and that is exactly the events of its
      finished senders. */
  lemma DeliveriesConserved(steps: seq<Step>, c: nat)
    requires ValidRun(INITIAL, steps) && c < |RunFrom(INITIAL, steps).chans|
    ensures var s := RunFrom(INITIAL, steps);
            && s.chans[c].sent == s.chans[c].received + s.chans[c].buf && |s.chans[c].buf| <= 1
            && multiset(s.chans[c].received + s.chans[c].buf) == SentTo(s.tasks, c)
  {
    RunsStayWired(INITIAL, steps);
    RunsDeliver(INITIAL, steps);
    assert Flows(RunFrom(INITIAL, steps).chans[c]);
  }
}
