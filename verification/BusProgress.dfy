/** What the bus gets done: events reach their subscribers, shutdown reaches every subscriber, and
    Shutdown can return once everyone is done. */
module BusProgress {
  import opened Bus
  import opened BusDelivery
  import opened BusSafety
  import opened BusShutdown
  import opened Common
  import opened Unsubscribing

  // ---------------------------------------------------------------- who hears what

  /** What one subscriber named: the default topic if nothing. */
  ghost function Named(ts: seq<Topic>, t: Topic): nat {
    if ts == [] then if t == DEFAULT_TOPIC then 1 else 0 else Mult(ts, t)
  }

  /** How often the topics `us` were named in a subscription to `ts`. */
  ghost function Matches(ts: seq<Topic>, us: seq<Topic>): nat {
    if us == [] then 0 else Matches(ts, us[..|us| - 1]) + Named(ts, us[|us| - 1])
  }

  lemma NamedOnce(t: Topic)
    ensures forall u :: Mult([t], u) == if u == t then 1 else 0
  {
  }

  lemma {:induction false} OccurrencesAre(
      topics: map<Topic, seq<nat>>, ts: seq<Topic>, us: seq<Topic>, c: nat)
    requires !IsListed(topics, c)
    ensures Occurrences(us, AddTo(topics, Effective(ts), c), c) == Matches(ts, us)
  {
    if us != [] {
      var n := |us| - 1;
      OccurrencesAre(topics, ts, us[..n], c);
      AddToAdds(topics, Effective(ts), c);
      NamedOnce(DEFAULT_TOPIC);
      assert ListCount(AddTo(topics, Effective(ts), c), us[n], c) == Mult(Effective(ts), us[n]);
    }
  }

  /** A new subscriber gets one sender of an event for each time one of the event's topics, or the default
      one, was named when it subscribed. */
  lemma DispatchReachesSubscriber(s: State, ts: seq<Topic>, e: Event, us: seq<Topic>)
    requires Wired(s) && !s.sdStarted && Enabled(s, Subscribe(ts))
    ensures var s', c := Apply(s, Subscribe(ts)), |s.chans|;
            && Enabled(s', Dispatch(e, us))
            && CountFor(Apply(s', Dispatch(e, us)).tasks, c) == Matches(ts, us) + Named(ts, DEFAULT_TOPIC)
  {
    var s', c := Apply(s, Subscribe(ts)), |s.chans|;
    DispatchCreatesOnePerOccurrence(s', e, us, c);
    NobodyCounts(s.tasks, c);
    OccurrencesAre(s.topics, ts, us, c);
    AddToAdds(s.topics, Effective(ts), c);
    NamedOnce(DEFAULT_TOPIC);
    assert ListCount(s'.topics, DEFAULT_TOPIC, c) == Mult(Effective(ts), DEFAULT_TOPIC);
  }

  lemma {:induction false} NobodyCounts(tasks: seq<Task>, c: nat)
    requires forall i :: 0 <= i < |tasks| ==> tasks[i].chan != c
    ensures CountFor(tasks, c) == 0
  {
    if tasks != [] {
      NobodyCounts(tasks[..|tasks| - 1], c);
    }
  }

  // ---------------------------------------------------------------- events are delivered

  /** Nothing is dropped before shutdown. */
  ghost predicate KeepsEvents(s: State) {
    !s.sdStarted ==> forall i :: 0 <= i < |s.tasks| ==> s.tasks[i].phase != Dropped
  }

  lemma StepKeepsEvents(s: State, step: Step)
    requires KeepsEvents(s) && Enabled(s, step)
    ensures KeepsEvents(Apply(s, step))
  {
    if step.Unsubscribe? {
      UnsubscribeDelivers(s, step.c, step.done);
    } else if step.Dispatch? && !s.sdStarted {
      var more := TasksFor(step.event, step.topics + [DEFAULT_TOPIC], s.topics);
      forall i | 0 <= i < |more|
        ensures more[i].phase == Pending
      {
        TasksForMember(step.event, step.topics + [DEFAULT_TOPIC], s.topics, i);
      }
    }
  }

  /** On every run of a new bus a sender is dropped only once shutdown has started. */
  lemma {:induction false} DroppedOnlyAfterShutdown(s: State, steps: seq<Step>)
    requires KeepsEvents(s) && ValidRun(s, steps)
    ensures KeepsEvents(RunFrom(s, steps))
    decreases |steps|
  {
    if steps != [] {
      StepKeepsEvents(s, steps[0]);
      DroppedOnlyAfterShutdown(Apply(s, steps[0]), steps[1..]);
    }
  }

  /** Some continuation sends the event of sender i on its channel. */
  ghost predicate CanDeliver(s: State, i: nat)
    requires i < |s.tasks|
  {
    exists steps: seq<Step> ::
      && ValidRun(s, steps)
      && var s' := RunFrom(s, steps);
         && i < |s'.tasks| && s'.tasks[i] == s.tasks[i].(phase := Sent)
         && s.tasks[i].chan < |s'.chans| && s.tasks[i].event in s'.chans[s.tasks[i].chan].sent
         && !s'.fault
  }

  /** Makes room on a channel. */
  function Room(s: State, c: nat): (steps: seq<Step>)
    requires c < |s.chans|
    ensures |steps| <= 1
  {
    if s.chans[c].buf == [] then [] else [Receive(c)]
  }

  lemma RoomMade(s: State, c: nat)
    requires Wired(s) && !s.fault && c < |s.chans|
    ensures ValidRun(s, Room(s, c))
    ensures var s' := RunFrom(s, Room(s, c));
            && s'.tasks == s.tasks && s'.shutdown == s.shutdown && s'.sdStarted == s.sdStarted && !s'.fault
            && |s'.chans| == |s.chans| && s'.chans[c].buf == [] && s'.chans[c].closed == s.chans[c].closed
  {
    if s.chans[c].buf != [] {
      var s' := Apply(s, Receive(c));
      assert Flows(s.chans[c]);
      assert [Receive(c)][1..] == [];
      assert ValidRun(s', []) && RunFrom(s', []) == s';
    }
  }

  /** Before shutdown a waiting sender for an open channel can always deliver, as soon as the subscriber
      has made room; for a closed one it can panic. */
  lemma PendingCanDeliver(s: State, i: nat)
    requires Wired(s) && !s.fault && s.shutdown.Idle? && i < |s.tasks| && s.tasks[i].phase == Pending
    ensures if s.chans[s.tasks[i].chan].closed then CanFault(s) else CanDeliver(s, i)
  {
    var c := s.tasks[i].chan;
    if s.chans[c].closed {
      LockCanFault(s, i);
    } else {
      RoomMade(s, c);
      var s1 := RunFrom(s, Room(s, c));
      var s2 := Apply(s1, Lock(i));
      var s3 := Apply(s2, Send(i));
      assert [Lock(i), Send(i)][1..] == [Send(i)] && [Send(i)][1..] == [];
      assert ValidRun(s3, []) && RunFrom(s3, []) == s3;
      assert ValidRun(s2, [Send(i)]) && RunFrom(s2, [Send(i)]) == s3;
      assert ValidRun(s1, [Lock(i), Send(i)]) && RunFrom(s1, [Lock(i), Send(i)]) == s3;
      RunsAppend(s, Room(s, c), [Lock(i), Send(i)]);
      assert s3.chans[c].sent == s2.chans[c].sent + [s.tasks[i].event];
    }
  }

  lemma {:induction false} RunsAppend(s: State, a: seq<Step>, b: seq<Step>)
    requires ValidRun(s, a) && ValidRun(RunFrom(s, a), b)
    ensures ValidRun(s, a + b) && RunFrom(s, a + b) == RunFrom(RunFrom(s, a), b)
    decreases |a|
  {
    if a == [] {
      assert a + b == b;
    } else {
      var ab := a + b;
      assert ab[0] == a[0] && ab[1..] == a[1..] + b;
      RunsAppend(Apply(s, a[0]), a[1..], b);
    }
  }

  // ---------------------------------------------------------------- shutdown reaches everyone

  /** c is closed or about to be. */
  ghost predicate WillClose(s: State, c: nat) {
    && c < |s.chans| && s.sdStarted
    && (s.chans[c].closed || (s.shutdown.Closing? && c in s.shutdown.todo))
  }

  lemma CloseNextWillClose(s: State, c: nat)
    requires WillClose(s, c) && Enabled(s, CloseNext)
    ensures WillClose(Apply(s, CloseNext), c)
  {
    var todo := s.shutdown.todo;
    assert todo == [todo[0]] + todo[1..];
  }

  lemma UnsubscribeWillClose(s: State, c: nat, x: nat, d: Option<nat>)
    requires WillClose(s, c) && Enabled(s, Unsubscribe(x, d))
    ensures WillClose(Apply(s, Unsubscribe(x, d)), c)
  {
    assert WillClose(UnsubscribeChan(s, x), c);
  }

  lemma StepWillClose(s: State, step: Step, c: nat)
    requires WillClose(s, c) && Wired(s) && Enabled(s, step)
    ensures WillClose(Apply(s, step), c)
  {
    match step
    case CloseNext => CloseNextWillClose(s, c);
    case Unsubscribe(x, d) => UnsubscribeWillClose(s, c, x, d);
    case _ =>
  }

  lemma {:induction false} RunWillClose(s: State, steps: seq<Step>, c: nat)
    requires WillClose(s, c) && Wired(s) && ValidRun(s, steps)
    ensures WillClose(RunFrom(s, steps), c)
    decreases |steps|
  {
    if steps != [] {
      StepKeepsWired(s, steps[0]);
      StepWillClose(s, steps[0], c);
      RunWillClose(Apply(s, steps[0]), steps[1..], c);
    }
  }

  /** When Shutdown has done its closing, waiting or having returned, the channel of every subscriber
      there was has been closed, whatever lies in between: everyone got the signal. */
  lemma EveryoneIsTold(s: State, order: seq<Topic>, steps: seq<Step>, c: nat)
    requires Wired(s) && Enabled(s, Begin(order)) && ValidRun(Apply(s, Begin(order)), steps)
    requires !RunFrom(Apply(s, Begin(order)), steps).shutdown.Closing? && IsListed(s.topics, c)
    ensures c < |RunFrom(Apply(s, Begin(order)), steps).chans|
    ensures RunFrom(Apply(s, Begin(order)), steps).chans[c].closed
  {
    var begun := Apply(s, Begin(order));
    BeginKeepsWired(s, order);
    RegisteredMember(order, s.topics, c);
    RunWillClose(begun, steps, c);
  }

  // ---------------------------------------------------------------- shutdown completes

  /** Some continuation, on which nobody subscribes to two topics or unsubscribes, lets Shutdown return
      nil without a panic. */
  ghost predicate CanReturnNil(s: State) {
    exists steps: seq<Step> ::
      && ValidRun(s, steps) && (forall step :: step in steps ==> Plain(step))
      && RunFrom(s, steps).shutdown == Returned(true) && !RunFrom(s, steps).fault
  }

  lemma StepCanReturnNil(s: State, step: Step)
    requires Enabled(s, step) && Plain(step) && CanReturnNil(Apply(s, step))
    ensures CanReturnNil(s)
  {
    var s' := Apply(s, step);
    var rest: seq<Step> :|
      && ValidRun(s', rest) && (forall step :: step in rest ==> Plain(step))
      && RunFrom(s', rest).shutdown == Returned(true) && !RunFrom(s', rest).fault;
    var steps := [step] + rest;
    assert steps[0] == step && steps[1..] == rest;
    assert ValidRun(s, steps) && RunFrom(s, steps) == RunFrom(s', rest);
  }

  lemma ReturnedNil(s: State)
    requires s.shutdown == Returned(true) && !s.fault
    ensures CanReturnNil(s)
  {
    assert ValidRun(s, []) && RunFrom(s, []) == s;
  }

  lemma NotifiedCanReturn(s: State)
    requires Inv(s) && s.shutdown.Waiting? && s.notifier.Notifier? && s.notifier.notified
    ensures CanReturnNil(s)
  {
    ReturnedNil(Apply(s, ReturnNil));
    StepCanReturnNil(s, ReturnNil);
  }

  /** The notifier gets through: everyone calls its ShutdownFunc, every watcher is launched and sees its
      channel closed. */
  lemma {:induction false} WaitingCanReturn(s: State)
    requires Inv(s) && s.shutdown.Waiting?
    ensures CanReturnNil(s)
    decreases |s.notifier.all| - s.notifier.launched, |s.notifier.all| - Count(s.notifier.finished), 1
  {
    var n := s.notifier;
    CountAll(n.finished);
    if n.notified {
      NotifiedCanReturn(s);
    } else if n.launched < |n.all| {
      StepKeepsInv(s, Launch);
      WaitingCanReturn(Apply(s, Launch));
      StepCanReturnNil(s, Launch);
    } else if w :| 0 <= w < |n.all| && !n.finished[w] {
      WatcherCanFinish(s, w);
    } else {
      AllFinished(n.finished);
      StepKeepsInv(s, Notify);
      NotifiedCanReturn(Apply(s, Notify));
      StepCanReturnNil(s, Notify);
    }
  }

  lemma {:induction false} AllFinished(finished: seq<bool>)
    requires forall w :: 0 <= w < |finished| ==> finished[w]
    ensures Count(finished) == |finished|
  {
    if finished != [] {
      AllFinished(finished[..|finished| - 1]);
    }
  }

  lemma {:induction false} WatcherCanFinish(s: State, w: nat)
    requires Inv(s) && s.shutdown.Waiting? && !s.notifier.notified && s.notifier.launched == |s.notifier.all|
    requires w < |s.notifier.all| && !s.notifier.finished[w]
    ensures CanReturnNil(s)
    decreases |s.notifier.all| - s.notifier.launched, |s.notifier.all| - Count(s.notifier.finished), 0
  {
    var c := s.notifier.all[w];
    var s' := s;
    if !s.chans[c].doneClosed {
      assert Closes(s, c);
      s' := Apply(s, CallShutdownFunc(c));
      StepKeepsInv(s, CallShutdownFunc(c));
    }
    CountUpdate(s'.notifier.finished, w);
    CountAll(s'.notifier.finished[w := true]);
    StepKeepsInv(s', Finish(w));
    WaitingCanReturn(Apply(s', Finish(w)));
    StepCanReturnNil(s', Finish(w));
    if !s.chans[c].doneClosed {
      StepCanReturnNil(s, CallShutdownFunc(c));
    }
  }

  lemma {:induction false} ClosingCanReturn(s: State)
    requires Inv(s) && s.shutdown.Closing?
    ensures CanReturnNil(s)
    decreases |s.shutdown.todo|
  {
    var todo := s.shutdown.todo;
    if todo == [] {
      StepKeepsInv(s, Wait);
      WaitingCanReturn(Apply(s, Wait));
      StepCanReturnNil(s, Wait);
    } else {
      assert todo[0] in todo;
      StepKeepsInv(s, CloseNext);
      ClosingCanReturn(Apply(s, CloseNext));
      StepCanReturnNil(s, CloseNext);
    }
  }

  /** From every sound state before shutdown, once the senders that hold the lock are through, Shutdown
      can run to a nil return, every subscriber calling its ShutdownFunc on the way. */
  lemma {:induction false} ShutdownCanComplete(s: State)
    requires Inv(s) && s.shutdown.Idle?
    ensures CanReturnNil(s)
    decreases HoldingCount(s.tasks)
  {
    if !Reading(s) {
      var order := Enumerate(s.topics.Keys);
      StepKeepsInv(s, Begin(order));
      ClosingCanReturn(Apply(s, Begin(order)));
      StepCanReturnNil(s, Begin(order));
    } else {
      var i :| 0 <= i < |s.tasks| && s.tasks[i].phase == Holding;
      var c := s.tasks[i].chan;
      assert Open(s, c);
      HoldingSent(s.tasks, i);
      var s' := s;
      if s.chans[c].buf != [] {
        s' := Apply(s, Receive(c));
        StepKeepsInv(s, Receive(c));
      }
      StepKeepsInv(s', Send(i));
      ShutdownCanComplete(Apply(s', Send(i)));
      StepCanReturnNil(s', Send(i));
      if s.chans[c].buf != [] {
        StepCanReturnNil(s, Receive(c));
      }
    }
  }

  /** While it waits, Shutdown can time out at any moment; it then reports failure, releases the lock, and
      leaves everything else as it was, so that a late subscriber can still finish. */
  lemma WaitingCanTimeOut(s: State)
    requires s.shutdown.Waiting? && !s.fault
    ensures Enabled(s, ReturnTimeout)
    ensures var s' := Apply(s, ReturnTimeout);
            && s'.shutdown == Returned(false) && !Writing(s') && s' == s.(shutdown := Returned(false))
            && forall c: nat :: c < |s'.chans| ==> Enabled(s', CallShutdownFunc(c))
  {
  }
}
