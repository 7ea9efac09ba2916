/** What shutting down and unsubscribing guarantee: nothing is sent any more, a nil return means
    everyone is done, and exactly which states can still make the bus panic. */
module BusShutdown {
  import opened Bus
  import opened BusSafety
  import opened Common
  import opened Unsubscribing

  // ---------------------------------------------------------------- nothing grows any more

  /** Channel contents can only have been taken from. */
  ghost predicate NoGrowth(s: State, s': State) {
    && |s.chans| <= |s'.chans|
    && forall c :: 0 <= c < |s.chans| ==>
         && s'.chans[c].sent == s.chans[c].sent
         && |s'.chans[c].buf| <= |s.chans[c].buf|
         && s'.chans[c].buf == s.chans[c].buf[|s.chans[c].buf| - |s'.chans[c].buf|..]
  }

  ghost predicate SameContents(s: State, s': State) {
    && |s'.chans| == |s.chans|
    && forall c :: 0 <= c < |s.chans| ==> s'.chans[c].sent == s.chans[c].sent && s'.chans[c].buf == s.chans[c].buf
  }

  lemma UnsubscribeSameContents(s: State, c: nat, d: Option<nat>)
    requires Enabled(s, Unsubscribe(c, d))
    ensures SameContents(s, Apply(s, Unsubscribe(c, d))) && Apply(s, Unsubscribe(c, d)).tasks == s.tasks
  {
    assert SameContents(s, UnsubscribeChan(s, c));
  }

  lemma OtherSameContents(s: State, step: Step)
    requires Enabled(s, step)
    requires !step.Subscribe? && !step.Unsubscribe? && !step.Dispatch? && !step.Send? && !step.Lock? && !step.Receive?
    ensures SameContents(s, Apply(s, step)) && Apply(s, step).tasks == s.tasks
  {
  }

  lemma ReceiveNoGrowth(s: State, c: nat)
    requires Enabled(s, Receive(c))
    ensures NoGrowth(s, Apply(s, Receive(c))) && Apply(s, Receive(c)).tasks == s.tasks
  {
  }

  lemma StepNoGrowth(s: State, step: Step)
    requires s.sdStarted && !Reading(s) && Enabled(s, step)
    ensures Apply(s, step).sdStarted && !Reading(Apply(s, step)) && NoGrowth(s, Apply(s, step))
  {
    assert forall t :: 0 <= t < |s.tasks| ==> s.tasks[t].phase != Holding;
    match step
    case Unsubscribe(c, d) => UnsubscribeSameContents(s, c, d);
    case Receive(c) => ReceiveNoGrowth(s, c);
    case Subscribe(_) =>
    case Dispatch(_, _) =>
    case Lock(_) =>
    case Send(_) =>
    case _ => OtherSameContents(s, step);
  }

  lemma NoGrowthTransitive(s: State, s': State, s'': State)
    requires NoGrowth(s, s') && NoGrowth(s', s'')
    ensures NoGrowth(s, s'')
  {
    forall c | 0 <= c < |s.chans|
      ensures s''.chans[c].sent == s.chans[c].sent && |s''.chans[c].buf| <= |s.chans[c].buf|
      ensures s''.chans[c].buf == s.chans[c].buf[|s.chans[c].buf| - |s''.chans[c].buf|..]
    {
      var b, b', b'' := s.chans[c].buf, s'.chans[c].buf, s''.chans[c].buf;
      assert b' == b[|b| - |b'|..] && b'' == b'[|b'| - |b''|..];
    }
  }

  /** From the moment shutdown has started, on every interleaving whatever, no channel gains an event. */
  lemma {:induction false} NothingSentAfterShutdown(s: State, steps: seq<Step>)
    requires s.sdStarted && !Reading(s) && ValidRun(s, steps)
    ensures RunFrom(s, steps).sdStarted && NoGrowth(s, RunFrom(s, steps))
    decreases |steps|
  {
    if steps != [] {
      var s' := Apply(s, steps[0]);
      StepNoGrowth(s, steps[0]);
      NothingSentAfterShutdown(s', steps[1..]);
      NoGrowthTransitive(s, s', RunFrom(s', steps[1..]));
    }
  }

  // ---------------------------------------------------------------- a nil return

  lemma {:induction false} CohortStays(s: State, steps: seq<Step>)
    requires Wired(s) && s.notifier.Notifier? && ValidRun(s, steps)
    ensures RunFrom(s, steps).notifier.Notifier? && RunFrom(s, steps).notifier.cohort == s.notifier.cohort
    decreases |steps|
  {
    if steps != [] {
      StepKeepsWired(s, steps[0]);
      CohortStays(Apply(s, steps[0]), steps[1..]);
    }
  }

  /** If Shutdown returns nil, the done channel of every subscriber there was when it took the lock has
      been closed, by its ShutdownFunc or, taking it off the list, by Unsubscribe, whatever happened
      before and in between. */
  lemma NilMeansEveryoneIsDone(s: State, order: seq<Topic>, steps: seq<Step>)
    requires Wired(s) && Enabled(s, Begin(order)) && ValidRun(Apply(s, Begin(order)), steps)
    requires RunFrom(Apply(s, Begin(order)), steps).shutdown == Returned(true)
    ensures var s' := RunFrom(Apply(s, Begin(order)), steps);
            && |s.chans| <= |s'.chans|
            && forall c :: 0 <= c < |s.chans| ==>
                 s'.chans[c].doneClosed && (s'.chans[c].onceUsed || c !in s'.done)
  {
    var begun := Apply(s, Begin(order));
    BeginKeepsWired(s, order);
    RunsStayWired(begun, steps);
    CohortStays(begun, steps);
    var s' := RunFrom(begun, steps);
    var n := s'.notifier;
    CountAll(n.finished);
    forall c | 0 <= c < |s.chans|
      ensures s'.chans[c].doneClosed && (s'.chans[c].onceUsed || c !in s'.done)
    {
      if c in n.all {
        var w :| 0 <= w < |n.all| && n.all[w] == c;
        assert n.finished[w];
      }
      assert Closes(s', c);
    }
  }

  // ---------------------------------------------------------------- when Shutdown panics

  ghost predicate ClosingInRange(s: State) {
    s.shutdown.Closing? && forall i :: 0 <= i < |s.shutdown.todo| ==> s.shutdown.todo[i] < |s.chans|
  }

  /** Shutdown's closing loop, run to its end or to a panic. */
  ghost function CloseLoop(s: State): State
    requires ClosingInRange(s)
    decreases if s.shutdown.Closing? then |s.shutdown.todo| else 0
  {
    if s.fault || s.shutdown.todo == [] then s
    else
      var s' := Apply(s, CloseNext);
      if s'.fault then s' else CloseLoop(s')
  }

  lemma {:induction false} CloseLoopFaultsIff(s: State)
    requires !s.fault && ClosingInRange(s)
    ensures CloseLoop(s).fault <==>
              !NoDup(s.shutdown.todo) || exists c: nat :: c in s.shutdown.todo && s.chans[c].closed
    decreases |s.shutdown.todo|
  {
    var todo := s.shutdown.todo;
    if todo != [] {
      var c := todo[0];
      assert c in todo;
      NoDupAppend([c], todo[1..]);
      assert todo == [c] + todo[1..];
      if !s.chans[c].closed {
        var s' := Apply(s, CloseNext);
        CloseLoopFaultsIff(s');
        assert forall d: nat :: d in todo <==> d == c || d in todo[1..];
      }
    }
  }

  /** For any subscriptions whatever, closing the channels panics exactly when some channel is listed
      twice, under one topic or two, or a listed channel has been closed already. */
  lemma ShutdownFaultsIff(s: State, order: seq<Topic>)
    requires Enabled(s, Begin(order)) && forall t, c: nat :: Listed(s.topics, t, c) ==> c < |s.chans|
    ensures var begun := Apply(s, Begin(order));
            && ClosingInRange(begun)
            && (CloseLoop(begun).fault <==>
                  !Separate(s.topics) || exists t, c: nat :: Listed(s.topics, t, c) && s.chans[c].closed)
  {
    RegisteredSeparate(order, s.topics);
    var begun := Apply(s, Begin(order));
    assert forall i :: 0 <= i < |begun.shutdown.todo| ==> begun.shutdown.todo[i] in begun.shutdown.todo;
    CloseLoopFaultsIff(begun);
  }

  // ---------------------------------------------------------------- which states can panic

  /** Some continuation with single topics and without further unsubscribing panics. */
  ghost predicate CanFault(s: State) {
    exists steps: seq<Step> ::
      ValidRun(s, steps) && (forall step :: step in steps ==> Plain(step)) && RunFrom(s, steps).fault
  }

  lemma FaultedCanFault(s: State)
    requires s.fault
    ensures CanFault(s)
  {
    assert ValidRun(s, []) && RunFrom(s, []).fault;
  }

  lemma StepCanFault(s: State, step: Step)
    requires Enabled(s, step) && Plain(step) && CanFault(Apply(s, step))
    ensures CanFault(s)
  {
    var s' := Apply(s, step);
    var rest: seq<Step> :|
      ValidRun(s', rest) && (forall step :: step in rest ==> Plain(step)) && RunFrom(s', rest).fault;
    var steps := [step] + rest;
    assert steps[0] == step && steps[1..] == rest;
    assert ValidRun(s, steps) && RunFrom(s, steps).fault;
  }

  lemma {:induction false} CloseLoopCanFault(s: State)
    requires !s.fault && ClosingInRange(s) && CloseLoop(s).fault
    ensures CanFault(s)
    decreases |s.shutdown.todo|
  {
    var s' := Apply(s, CloseNext);
    if s'.fault {
      FaultedCanFault(s');
    } else {
      CloseLoopCanFault(s');
    }
    StepCanFault(s, CloseNext);
  }

  lemma {:induction false} Enumerate(ks: set<Topic>) returns (order: seq<Topic>)
    ensures NoDup(order) && forall t :: t in order <==> t in ks
    decreases |ks|
  {
    order := [];
    if k :| k in ks {
      var rest := Enumerate(ks - {k});
      order := rest + [k];
      NoDupAppend(rest, [k]);
    }
  }

  lemma BeginCanFault(s: State)
    requires Wired(s) && !s.fault && s.shutdown.Idle? && !Reading(s)
    requires !Separate(s.topics) || exists t, c: nat :: Listed(s.topics, t, c) && s.chans[c].closed
    ensures CanFault(s)
  {
    var order := Enumerate(s.topics.Keys);
    ShutdownFaultsIff(s, order);
    CloseLoopCanFault(Apply(s, Begin(order)));
    StepCanFault(s, Begin(order));
  }

  lemma SendCanFault(s: State, i: nat)
    requires Wired(s) && !s.fault && i < |s.tasks| && s.tasks[i].phase == Holding && s.chans[s.tasks[i].chan].closed
    ensures CanFault(s)
  {
    FaultedCanFault(Apply(s, Send(i)));
    StepCanFault(s, Send(i));
  }

  lemma LockCanFault(s: State, i: nat)
    requires Wired(s) && !s.fault && s.shutdown.Idle?
    requires i < |s.tasks| && s.tasks[i].phase == Pending && s.chans[s.tasks[i].chan].closed
    ensures CanFault(s)
  {
    StepKeepsWired(s, Lock(i));
    SendCanFault(Apply(s, Lock(i)), i);
    StepCanFault(s, Lock(i));
  }

  function HoldingCount(tasks: seq<Task>): nat {
    if tasks == [] then 0
    else HoldingCount(tasks[..|tasks| - 1]) + if tasks[|tasks| - 1].phase == Holding then 1 else 0
  }

  lemma {:induction false} HoldingSent(tasks: seq<Task>, i: nat)
    requires i < |tasks| && tasks[i].phase == Holding
    ensures HoldingCount(tasks[i := tasks[i].(phase := Sent)]) == HoldingCount(tasks) - 1
  {
    var n, tasks' := |tasks| - 1, tasks[i := tasks[i].(phase := Sent)];
    if i < n {
      HoldingSent(tasks[..n], i);
      assert tasks'[..n] == tasks[..n][i := tasks[i].(phase := Sent)];
    } else {
      assert tasks'[..n] == tasks[..n];
    }
  }

  /** A sender that holds the lock gets its event through, once the subscriber has made room. */
  lemma SendGetsThrough(s: State, i: nat) returns (s': State)
    requires Wired(s) && !s.fault && s.shutdown.Idle?
    requires i < |s.tasks| && s.tasks[i].phase == Holding && !s.chans[s.tasks[i].chan].closed
    ensures CanFault(s') ==> CanFault(s)
    ensures Wired(s') && !s'.fault && s'.shutdown.Idle? && s'.topics == s.topics && |s'.chans| == |s.chans|
    ensures s'.tasks == s.tasks[i := s.tasks[i].(phase := Sent)]
    ensures forall c :: 0 <= c < |s.chans| ==> s'.chans[c].closed == s.chans[c].closed
  {
    var c := s.tasks[i].chan;
    var free := s;
    if s.chans[c].buf != [] {
      free := Apply(s, Receive(c));
      StepKeepsWired(s, Receive(c));
    }
    assert Enabled(free, Send(i));
    s' := Apply(free, Send(i));
    StepKeepsWired(free, Send(i));
    if CanFault(s') {
      StepCanFault(free, Send(i));
      if s.chans[c].buf != [] {
        StepCanFault(s, Receive(c));
      }
    }
  }

  /** Once the senders holding the lock are through, Shutdown can begin, and panics. */
  lemma {:induction false} DrainCanFault(s: State)
    requires Wired(s) && !s.fault && s.shutdown.Idle?
    requires !Separate(s.topics) || exists t, c: nat :: Listed(s.topics, t, c) && s.chans[c].closed
    ensures CanFault(s)
    decreases HoldingCount(s.tasks)
  {
    if !Reading(s) {
      BeginCanFault(s);
    } else {
      var i :| 0 <= i < |s.tasks| && s.tasks[i].phase == Holding;
      if s.chans[s.tasks[i].chan].closed {
        SendCanFault(s, i);
      } else {
        HoldingSent(s.tasks, i);
        var s' := SendGetsThrough(s, i);
        DrainCanFault(s');
      }
    }
  }

  lemma ShutdownFuncCanFault(s: State, c: nat)
    requires !s.fault && c < |s.chans| && s.chans[c].doneClosed && !s.chans[c].onceUsed
    ensures CanFault(s)
  {
    FaultedCanFault(Apply(s, CallShutdownFunc(c)));
    StepCanFault(s, CallShutdownFunc(c));
  }

  lemma IdleCanFault(s: State)
    requires Wired(s) && !s.fault && s.shutdown.Idle? && !SoundIdle(s)
    ensures CanFault(s)
  {
    if Separate(s.topics) && forall t, c: nat :: Listed(s.topics, t, c) ==> Open(s, c) {
      var i :| 0 <= i < |s.tasks| && s.tasks[i].phase in {Pending, Holding} && !Open(s, s.tasks[i].chan);
      if s.tasks[i].phase == Holding {
        SendCanFault(s, i);
      } else {
        LockCanFault(s, i);
      }
    } else {
      DrainCanFault(s);
    }
  }

  lemma ClosingCanFault(s: State)
    requires Wired(s) && !s.fault && s.shutdown.Closing? && !SoundClosing(s)
    ensures CanFault(s)
  {
    assert forall i :: 0 <= i < |s.shutdown.todo| ==> s.shutdown.todo[i] in s.shutdown.todo;
    CloseLoopFaultsIff(s);
    CloseLoopCanFault(s);
  }

  /** In any reachable state whatever, some continuation on which subscribers name one topic and nobody
      unsubscribes panics exactly when the state is not sound: it has panicked, or a done channel was
      closed behind its ShutdownFunc's back, or before shutdown a channel is listed twice or a listed or
      pending one is closed, or the closing loop is about to close one twice. */
  lemma CanFaultIff(s: State)
    requires Wired(s)
    ensures CanFault(s) <==> !Sound(s)
  {
    if Sound(s) {
      forall steps: seq<Step> | ValidRun(s, steps) && forall step :: step in steps ==> Plain(step)
        ensures !RunFrom(s, steps).fault
      {
        RunsAreSafe(s, steps);
      }
    } else if s.fault {
      FaultedCanFault(s);
    } else if c :| 0 <= c < |s.chans| && s.chans[c].doneClosed && !s.chans[c].onceUsed {
      ShutdownFuncCanFault(s, c);
    } else if s.shutdown.Idle? {
      IdleCanFault(s);
    } else {
      ClosingCanFault(s);
    }
  }

  // ---------------------------------------------------------------- when subscriptions make it panic

  /** Some subscriber named two topics or more. */
  ghost predicate SomeoneOnTwo(steps: seq<Step>) {
    exists step :: step in steps && step.Subscribe? && |step.topics| >= 2
  }

  /** No channel has been closed and nobody has unsubscribed. */
  ghost predicate Early(s: State) {
    && Wired(s) && !s.fault && s.shutdown.Idle?
    && (forall c :: 0 <= c < |s.chans| ==> !s.chans[c].closed && c in s.done)
  }

  lemma EarlyStep(s: State, step: Step)
    requires Early(s) && Enabled(s, step) && !step.Unsubscribe? && !step.Begin?
    ensures Early(Apply(s, step))
    ensures Separate(Apply(s, step).topics) <==> Separate(s.topics) && (step.Subscribe? ==> |step.topics| <= 1)
  {
    var s' := Apply(s, step);
    StepKeepsWired(s, step);
    match step
    case Subscribe(ts) =>
      SubscribeSeparateIff(s.topics, Effective(ts), |s.chans|);
      assert forall c :: 0 <= c < |s.chans| ==> s'.chans[c] == s.chans[c];
    case CallShutdownFunc(c) =>
      assert Closes(s, c);
    case Send(t) =>
      assert !s'.fault;
    case _ =>
  }

  lemma {:induction false} EarlyRun(s: State, steps: seq<Step>)
    requires Early(s) && ValidRun(s, steps) && forall step :: step in steps ==> !step.Unsubscribe? && !step.Begin?
    ensures Early(RunFrom(s, steps))
    ensures Separate(RunFrom(s, steps).topics) <==> Separate(s.topics) && !SomeoneOnTwo(steps)
    decreases |steps|
  {
    if steps != [] {
      var step, rest := steps[0], steps[1..];
      assert steps == [step] + rest;
      EarlyStep(s, step);
      EarlyRun(Apply(s, step), rest);
      assert SomeoneOnTwo(steps) <==> (step.Subscribe? && |step.topics| >= 2) || SomeoneOnTwo(rest);
    }
  }

  /** On a bus nobody has unsubscribed from, Shutdown panics exactly when some Subscribe call named two
      or more topics; and so does some continuation without such calls and without unsubscribing. */
  lemma PanicsIffSomeoneOnTwo(steps: seq<Step>, order: seq<Topic>)
    requires ValidRun(INITIAL, steps) && forall step :: step in steps ==> !step.Unsubscribe? && !step.Begin?
    ensures CanFault(RunFrom(INITIAL, steps)) <==> SomeoneOnTwo(steps)
    ensures Enabled(RunFrom(INITIAL, steps), Begin(order)) ==>
              var begun := Apply(RunFrom(INITIAL, steps), Begin(order));
              ClosingInRange(begun) && (CloseLoop(begun).fault <==> SomeoneOnTwo(steps))
  {
    var s := RunFrom(INITIAL, steps);
    InitialInv();
    EarlyRun(INITIAL, steps);
    CanFaultIff(s);
    assert forall c :: 0 <= c < |s.chans| ==> Closes(s, c);
    if Enabled(s, Begin(order)) {
      ShutdownFaultsIff(s, order);
    }
  }

  // ---------------------------------------------------------------- when Unsubscribe makes it panic

  ghost predicate HasPending(s: State, c: nat) {
    exists i :: 0 <= i < |s.tasks| && s.tasks[i].phase == Pending && s.tasks[i].chan == c
  }

  lemma NoDupInsert(a: seq<nat>, c: nat, b: seq<nat>)
    requires NoDup(a + b) && c !in a && c !in b
    ensures NoDup(a + ([c] + b))
  {
    NoDupAppend(a, b);
    NoDupAppend([c], b);
    NoDupAppend(a, [c] + b);
  }

  /** A list from which the removal of c is clean held c once, and no duplicate elsewhere. */
  lemma CleanList(list: seq<nat>, c: nat)
    requires c in list && !MetAgain(list, c) && c !in Without(list, c) && NoDup(Without(list, c))
    ensures NoDup(list)
  {
    var before, after := CleanParts(list, c);
    NoDupInsert(before, c, after);
  }

  lemma RemovedSeparate(topics: map<Topic, seq<nat>>, c: nat)
    requires !ClosesAgain(topics, c) && Separate(Removed(topics, c)) && !IsListed(Removed(topics, c), c)
    ensures Separate(topics)
  {
    var topics' := Removed(topics, c);
    WithoutListed(topics, c);
    forall t | t in topics
      ensures NoDup(topics[t])
    {
      assert NoDup(topics'[t]);
      if c in topics[t] {
        assert Listed(topics, t, c) && !Listed(topics', t, c);
        CleanList(topics[t], c);
      }
    }
    forall t, u, x: nat | Listed(topics, t, x) && Listed(topics, u, x)
      ensures t == u
    {
      if x != c {
        assert Listed(topics', t, x) && Listed(topics', u, x);
      }
    }
  }

  lemma SeparateRemoved(topics: map<Topic, seq<nat>>, c: nat)
    requires Separate(topics)
    ensures Separate(Removed(topics, c)) && !IsListed(Removed(topics, c), c)
  {
    var topics' := Removed(topics, c);
    WithoutListed(topics, c);
    forall t | t in topics
      ensures NoDup(topics'[t]) && c !in topics'[t]
    {
      WithoutMember(topics[t], c);
    }
  }

  /** Closing c and taking it off its lists leaves an idle bus sound exactly when it was sound and no
      sender for c is waiting. */
  lemma UnsubscribeChanSoundIff(s: State, c: nat)
    requires Wired(s) && Enabled(s, Unsubscribe(c, None)) && !UnsubscribeChan(s, c).fault
    ensures Sound(UnsubscribeChan(s, c)) <==>
              Sound(s) && !(IsListed(s.topics, c) && !s.sdStarted && HasPending(s, c))
  {
    var s' := UnsubscribeChan(s, c);
    if IsListed(s.topics, c) {
      assert forall x :: 0 <= x < |s.chans| ==> s'.chans[x].doneClosed == s.chans[x].doneClosed;
      assert forall x :: 0 <= x < |s.chans| ==> s'.chans[x].onceUsed == s.chans[x].onceUsed;
      assert s'.shutdown == s.shutdown && !s.fault;
      if s.shutdown.Idle? {
        UnsubscribeIdle(s, c);
      }
    }
  }

  lemma UnsubscribeIdle(s: State, c: nat)
    requires Wired(s) && Enabled(s, Unsubscribe(c, None)) && !UnsubscribeChan(s, c).fault
    requires s.shutdown.Idle? && IsListed(s.topics, c)
    ensures SoundIdle(UnsubscribeChan(s, c)) <==> SoundIdle(s) && !HasPending(s, c)
  {
    var s' := UnsubscribeChan(s, c);
    assert forall x :: 0 <= x < |s.chans| && x != c ==> s'.chans[x] == s.chans[x];
    WithoutListed(s.topics, c);
    assert forall i :: 0 <= i < |s.tasks| ==> s.tasks[i].phase != Holding;
    if SoundIdle(s) && !HasPending(s, c) {
      SeparateRemoved(s.topics, c);
    }
    if SoundIdle(s') {
      assert !Open(s', c);
      assert !IsListed(s'.topics, c);
      RemovedSeparate(s.topics, c);
    }
  }

  /** For any subscriptions whatever, unsubscribing leaves a bus that can panic exactly when it could
      before, or the call panics itself because the channel was closed already or is met twice, or a
      sender for the channel is still waiting and shutdown has not started, or the subscriber's done
      channel was passed, which its ShutdownFunc closes too. */
  lemma UnsubscribeCanFaultIff(s: State, c: nat, d: Option<nat>)
    requires Wired(s) && Enabled(s, Unsubscribe(c, d))
    ensures CanFault(Apply(s, Unsubscribe(c, d))) <==>
              || CanFault(s)
              || (IsListed(s.topics, c) && (s.chans[c].closed || ClosesAgain(s.topics, c)))
              || (IsListed(s.topics, c) && !s.sdStarted && HasPending(s, c))
              || d.Some?
  {
    var mid, s' := UnsubscribeChan(s, c), Apply(s, Unsubscribe(c, d));
    StepKeepsWired(s, Unsubscribe(c, d));
    CanFaultIff(s);
    CanFaultIff(s');
    if !mid.fault {
      UnsubscribeChanSoundIff(s, c);
      UnsubscribeChanKeepsWired(s, c);
      if d.Some? {
        assert Closes(mid, d.value);
        assert s'.fault || (s'.chans[d.value].doneClosed && !s'.chans[d.value].onceUsed);
      }
    }
  }

  lemma MetOnce(list: seq<nat>, c: nat)
    requires NoDup(list) && c in list
    ensures !MetAgain(list, c)
  {
    CleanRemovalIff(list, c);
    WithoutMember(list, c);
    var i := First(list, c);
    assert list == list[..i + 1] + list[i + 1..];
    NoDupAppend(list[..i + 1], list[i + 1..]);
    assert list[..i + 1][i] == c;
  }

  lemma ClosedOnce(topics: map<Topic, seq<nat>>, c: nat)
    requires Separate(topics)
    ensures !ClosesAgain(topics, c)
  {
    forall t | Listed(topics, t, c)
      ensures !MetAgain(topics[t], c)
    {
      MetOnce(topics[t], c);
    }
  }

  // ---------------------------------------------------------------- which runs lead to a panic

  /** Steps that endanger a sound bus: before shutdown a Subscribe that names two or more topics; an
      Unsubscribe that passes a done channel, or whose channel is listed and closed already or met twice,
      or, before shutdown, listed with a sender waiting. */
  ghost predicate Risky(s: State, step: Step) {
    match step
    case Subscribe(ts) => s.shutdown.Idle? && |ts| >= 2
    case Unsubscribe(c, d) =>
      || d.Some?
      || (IsListed(s.topics, c) && c < |s.chans| && s.chans[c].closed)
      || (IsListed(s.topics, c) && (ClosesAgain(s.topics, c) || (!s.sdStarted && HasPending(s, c))))
    case _ => false
  }

  ghost predicate RiskyRun(s: State, steps: seq<Step>)
    requires ValidRun(s, steps)
    decreases |steps|
  {
    steps != [] && (Risky(s, steps[0]) || RiskyRun(Apply(s, steps[0]), steps[1..]))
  }

  lemma HarmlessStepKeepsInv(s: State, step: Step)
    requires Inv(s) && Enabled(s, step) && !Risky(s, step)
    ensures Inv(Apply(s, step))
  {
    if step.Unsubscribe? {
      StepKeepsWired(s, step);
      UnsubscribeChanSoundIff(s, step.c);
    } else if Plain(step) {
      StepKeepsInv(s, step);
    } else {
      StepKeepsWired(s, step);
      LateSubscribe(s, step.topics);
    }
  }

  lemma LateSubscribe(s: State, ts: seq<Topic>)
    requires Sound(s) && Enabled(s, Subscribe(ts)) && !s.shutdown.Idle?
    ensures Sound(Apply(s, Subscribe(ts)))
  {
    var s' := Apply(s, Subscribe(ts));
    assert forall c :: 0 <= c < |s.chans| ==> s'.chans[c] == s.chans[c];
  }

  /** Every run without a risky step is safe, before, during and after shutdown, whoever else
      unsubscribes and however many topics are named once it is over. */
  lemma {:induction false} HarmlessRunsAreSafe(s: State, steps: seq<Step>)
    requires Inv(s) && ValidRun(s, steps) && !RiskyRun(s, steps)
    ensures Inv(RunFrom(s, steps)) && !RunFrom(s, steps).fault
    decreases |steps|
  {
    if steps != [] {
      HarmlessStepKeepsInv(s, steps[0]);
      HarmlessRunsAreSafe(Apply(s, steps[0]), steps[1..]);
    }
  }

  lemma SubscribeSoundIff(s: State, ts: seq<Topic>)
    requires Wired(s) && s.shutdown.Idle? && Enabled(s, Subscribe(ts))
    ensures Sound(Apply(s, Subscribe(ts))) <==> Sound(s) && |ts| <= 1
  {
    var s', c := Apply(s, Subscribe(ts)), |s.chans|;
    AddToListed(s.topics, Effective(ts), c);
    SubscribeSeparateIff(s.topics, Effective(ts), c);
    assert forall x :: 0 <= x < c ==> s'.chans[x] == s.chans[x];
    if SoundIdle(s') {
      forall t, x: nat | Listed(s.topics, t, x)
        ensures Open(s, x)
      {
        assert Listed(s'.topics, t, x);
      }
    }
  }

  lemma UnsoundSender(s: State, step: Step)
    requires Wired(s) && s.shutdown.Idle? && Enabled(s, step) && (step.Lock? || step.Send?) && !Sound(s)
    ensures !Sound(Apply(s, step))
  {
    var s' := Apply(s, step);
    if !s'.fault {
      assert forall c :: 0 <= c < |s.chans| ==> s'.chans[c].doneClosed == s.chans[c].doneClosed;
      assert forall c :: 0 <= c < |s.chans| ==> s'.chans[c].onceUsed == s.chans[c].onceUsed;
      if SoundIdle(s') {
        SoundSender(s, step);
      }
    }
  }

  lemma SoundSender(s: State, step: Step)
    requires Wired(s) && s.shutdown.Idle? && Enabled(s, step) && (step.Lock? || step.Send?)
    requires !Apply(s, step).fault && SoundIdle(Apply(s, step))
    ensures SoundIdle(s)
  {
    var s' := Apply(s, step);
    assert s'.topics == s.topics && |s'.chans| == |s.chans| && |s'.tasks| == |s.tasks|;
    assert forall c: nat :: Open(s', c) <==> Open(s, c);
    forall i | 0 <= i < |s.tasks| && s.tasks[i].phase in {Pending, Holding}
      ensures Open(s, s.tasks[i].chan)
    {
      if i != step.t || step.Lock? {
        assert s'.tasks[i].chan == s.tasks[i].chan && s'.tasks[i].phase in {Pending, Holding};
      }
    }
  }

  lemma UnsoundDispatch(s: State, e: Event, ts: seq<Topic>)
    requires Wired(s) && s.shutdown.Idle? && Enabled(s, Dispatch(e, ts)) && !Sound(s)
    ensures !Sound(Apply(s, Dispatch(e, ts)))
  {
    var s' := Apply(s, Dispatch(e, ts));
    assert forall i :: 0 <= i < |s.tasks| ==> s'.tasks[i] == s.tasks[i];
  }

  lemma UnsoundReceive(s: State, c: nat)
    requires Wired(s) && s.shutdown.Idle? && Enabled(s, Receive(c)) && !Sound(s)
    ensures !Sound(Apply(s, Receive(c)))
  {
    var s' := Apply(s, Receive(c));
    assert forall x :: 0 <= x < |s.chans| ==> Open(s', x) == Open(s, x);
    assert forall x :: 0 <= x < |s.chans| ==> s'.chans[x].doneClosed == s.chans[x].doneClosed;
    assert forall x :: 0 <= x < |s.chans| ==> s'.chans[x].onceUsed == s.chans[x].onceUsed;
  }

  lemma UnsoundShutdownFunc(s: State, c: nat)
    requires Wired(s) && s.shutdown.Idle? && Enabled(s, CallShutdownFunc(c)) && !Sound(s)
    ensures !Sound(Apply(s, CallShutdownFunc(c)))
  {
    var s' := Apply(s, CallShutdownFunc(c));
    assert forall x :: 0 <= x < |s.chans| ==> Open(s', x) == Open(s, x);
    assert forall x :: 0 <= x < |s.chans| && x != c ==> s'.chans[x] == s.chans[x];
  }

  /** Before shutdown, calls other than Subscribe and Unsubscribe endanger nothing and mend nothing. */
  lemma SoundStepIff(s: State, step: Step)
    requires Wired(s) && s.shutdown.Idle? && Enabled(s, step)
    requires !step.Begin? && !step.Subscribe? && !step.Unsubscribe?
    ensures Sound(Apply(s, step)) <==> Sound(s)
  {
    if Sound(s) {
      StepKeepsInv(s, step);
    } else {
      match step
      case Dispatch(e, ts) => UnsoundDispatch(s, e, ts);
      case Receive(c) => UnsoundReceive(s, c);
      case CallShutdownFunc(c) => UnsoundShutdownFunc(s, c);
      case _ => UnsoundSender(s, step);
    }
  }

  lemma CanFaultStep(s: State, step: Step)
    requires Wired(s) && s.shutdown.Idle? && Enabled(s, step) && !step.Begin?
    ensures CanFault(Apply(s, step)) <==> CanFault(s) || Risky(s, step)
  {
    StepKeepsWired(s, step);
    CanFaultIff(s);
    CanFaultIff(Apply(s, step));
    if step.Subscribe? {
      SubscribeSoundIff(s, step.topics);
    } else if step.Unsubscribe? {
      UnsubscribeCanFaultIff(s, step.c, step.done);
    } else {
      SoundStepIff(s, step);
    }
  }

  lemma StaysIdle(s: State, step: Step)
    requires Wired(s) && s.shutdown.Idle? && Enabled(s, step) && !step.Begin?
    ensures Apply(s, step).shutdown.Idle?
  {
  }

  /** Over any run before shutdown, with subscribers on several topics and unsubscribing, the bus ends in
      a state that can panic without a further risky call exactly when it started in one or some step of
      the run was risky: no later call makes up for it. */
  lemma {:induction false} CanFaultAfterIff(s: State, steps: seq<Step>)
    requires Wired(s) && s.shutdown.Idle? && ValidRun(s, steps) && forall step :: step in steps ==> !step.Begin?
    ensures CanFault(RunFrom(s, steps)) <==> CanFault(s) || RiskyRun(s, steps)
    decreases |steps|
  {
    if steps != [] {
      assert steps[0] in steps;
      StaysIdle(s, steps[0]);
      StepKeepsWired(s, steps[0]);
      CanFaultStep(s, steps[0]);
      CanFaultAfterIff(Apply(s, steps[0]), steps[1..]);
    }
  }

  // ---------------------------------------------------------------- runs that panic

  /** Unsubscribing a listed channel while a sender for it is waiting makes that sender panic. */
  lemma UnsubscribeThenSendPanics(s: State, c: nat, i: nat)
    requires Inv(s) && s.shutdown.Idle? && Enabled(s, Unsubscribe(c, None)) && IsListed(s.topics, c)
    requires i < |s.tasks| && s.tasks[i].phase == Pending && s.tasks[i].chan == c
    ensures var s1 := Apply(s, Unsubscribe(c, None));
            && Enabled(s1, Lock(i))
            && var s2 := Apply(s1, Lock(i));
               Enabled(s2, Send(i)) && Apply(s2, Send(i)).fault
  {
    ClosedOnce(s.topics, c);
    assert Open(s, c);
  }

  /** The shortest run of a new bus that does, in exported calls: one subscriber, one event, and the
      subscriber unsubscribes before the sender gets the lock. */
  lemma NewBusCanPanic(e: Event)
    ensures var s1 := Apply(INITIAL, Subscribe([]));
            && Enabled(s1, Dispatch(e, []))
            && var s2 := Apply(s1, Dispatch(e, []));
               && Sound(s2) && Enabled(s2, Unsubscribe(0, None))
               && var s3 := Apply(s2, Unsubscribe(0, None));
                  && Enabled(s3, Lock(0))
                  && var s4 := Apply(s3, Lock(0));
                     Enabled(s4, Send(0)) && Apply(s4, Send(0)).fault
  {
    var s1 := Apply(INITIAL, Subscribe([]));
    InitialInv();
    StepKeepsInv(INITIAL, Subscribe([]));
    StepKeepsInv(s1, Dispatch(e, []));
    AddToListed(map[], [DEFAULT_TOPIC], 0);
    assert Listed(s1.topics, DEFAULT_TOPIC, 0);
    OneSubscriber(e, s1.topics);
    UnsubscribeThenSendPanics(Apply(s1, Dispatch(e, [])), 0, 0);
  }

  lemma OneSubscriber(e: Event, topics: map<Topic, seq<nat>>)
    requires topics == AddTo(map[], [DEFAULT_TOPIC], 0)
    ensures TasksFor(e, [] + [DEFAULT_TOPIC], topics) == [Task(e, 0, Pending)]
  {
    assert [DEFAULT_TOPIC][..0] == [];
    assert AddTo(map[], [], 0) == map[];
    assert topics[DEFAULT_TOPIC] == [0];
    assert [] + [DEFAULT_TOPIC] == [DEFAULT_TOPIC];
    assert TasksFor(e, [], topics) == [];
  }

  /** Code inside the package, which alone can get at a done channel, must not pass it and call the
      ShutdownFunc as well: on every sound bus before shutdown that panics. */
  lemma UnsubscribeThenShutdownFuncPanics(s: State, c: nat)
    requires Inv(s) && s.shutdown.Idle? && Enabled(s, Unsubscribe(c, Some(c))) && !s.chans[c].doneClosed
    ensures var s' := Apply(s, Unsubscribe(c, Some(c)));
            Enabled(s', CallShutdownFunc(c)) && Apply(s', CallShutdownFunc(c)).fault
  {
    ClosedOnce(s.topics, c);
    assert Closes(s, c);
    MetOnce(s.done, c);
    assert IsListed(s.topics, c) ==> Open(s, c);
  }
}
