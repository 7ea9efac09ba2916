/** Safety of the event bus over every interleaving.

    Wired holds on every run whatever the subscribers do.  Sound adds what keeps the bus from
    panicking; runs on which each subscriber is on one topic and nobody unsubscribes keep it. */
module BusSafety {
  import opened Bus
  import opened Common
  import opened Unsubscribing

  // ---------------------------------------------------------------- the invariants

  ghost predicate InRange(s: State) {
    && (forall t, c: nat :: Listed(s.topics, t, c) ==> c < |s.chans|)
    && (forall i :: 0 <= i < |s.tasks| ==> s.tasks[i].chan < |s.chans|)
    && (forall c :: c in s.done ==> c < |s.chans|)
    && (s.shutdown.Closing? ==> forall c :: c in s.shutdown.todo ==> c < |s.chans|)
    && NoDup(s.done)
  }

  ghost predicate Staged(s: State) {
    && (s.shutdown == Idle <==> !s.sdStarted)
    && (s.notifier.Absent? <==> !s.sdStarted)
    && (s.sdStarted ==> !Reading(s))
    && (s.shutdown == Returned(true) ==> s.notifier.Notifier? && s.notifier.notified)
  }

  /** A channel holds what was sent on it and not yet received. */
  ghost predicate Flows(ch: Channel) {
    ch.sent == ch.received + ch.buf && |ch.buf| <= 1
  }

  /** A done channel is closed by its own once, or by Unsubscribe, which takes it off the list. */
  ghost predicate Closes(s: State, c: nat)
    requires c < |s.chans|
  {
    if c in s.done then s.chans[c].doneClosed == s.chans[c].onceUsed
    else s.chans[c].doneClosed && !s.chans[c].onceUsed
  }

  /** The number of watchers that have seen their channel closed. */
  function Count(finished: seq<bool>): nat {
    if finished == [] then 0 else Count(finished[..|finished| - 1]) + if finished[|finished| - 1] then 1 else 0
  }

  ghost predicate Counts(s: State) {
    s.notifier.Notifier? ==>
      var n := s.notifier;
      && |n.finished| == |n.all| && n.launched <= |n.all|
      && n.wg == n.launched - Count(n.finished)
      && (forall w :: 0 <= w < |n.all| ==> n.all[w] < |s.chans|)
      && (forall w :: 0 <= w < |n.all| && n.finished[w] ==> w < n.launched && s.chans[n.all[w]].doneClosed)
      && (n.notified ==> Count(n.finished) == |n.all|)
      && n.cohort <= |s.chans|
      && (forall c: nat :: c < n.cohort ==> c in n.all || s.chans[c].doneClosed)
  }

  ghost predicate Wired(s: State) {
    && InRange(s) && Staged(s) && Counts(s)
    && (forall c :: 0 <= c < |s.chans| ==> Flows(s.chans[c]) && Closes(s, c))
  }

  predicate Open(s: State, c: nat) {
    c < |s.chans| && !s.chans[c].closed
  }

  /** No channel is listed twice, and every channel that is listed or still has a sender is open. */
  ghost predicate SoundIdle(s: State) {
    && Separate(s.topics)
    && (forall t, c: nat :: Listed(s.topics, t, c) ==> Open(s, c))
    && (forall i :: 0 <= i < |s.tasks| && s.tasks[i].phase in {Pending, Holding} ==> Open(s, s.tasks[i].chan))
  }

  ghost predicate SoundClosing(s: State)
    requires s.shutdown.Closing?
  {
    NoDup(s.shutdown.todo) && forall c :: c in s.shutdown.todo ==> Open(s, c)
  }

  /** Nothing is about to be closed twice or sent on when closed. */
  ghost predicate Sound(s: State) {
    && !s.fault
    && (forall c :: 0 <= c < |s.chans| && s.chans[c].doneClosed ==> s.chans[c].onceUsed)
    && (s.shutdown.Idle? ==> SoundIdle(s))
    && (s.shutdown.Closing? ==> SoundClosing(s))
  }

  ghost predicate Inv(s: State) {
    Wired(s) && Sound(s)
  }

  /** A subscriber is listed under one topic, and nobody unsubscribes. */
  predicate Plain(step: Step) {
    && (step.Subscribe? ==> |step.topics| <= 1)
    && !step.Unsubscribe?
  }

  // ---------------------------------------------------------------- helper lemmas

  lemma {:induction false} CountUpdate(finished: seq<bool>, w: nat)
    requires w < |finished| && !finished[w]
    ensures Count(finished[w := true]) == Count(finished) + 1
  {
    var n := |finished| - 1;
    if w < n {
      CountUpdate(finished[..n], w);
      assert finished[w := true][..n] == finished[..n][w := true];
    } else {
      assert finished[w := true][..n] == finished[..n];
    }
  }

  lemma {:induction false} CountAll(finished: seq<bool>)
    ensures Count(finished) <= |finished|
    ensures Count(finished) == |finished| ==> forall w :: 0 <= w < |finished| ==> finished[w]
  {
    if finished != [] {
      CountAll(finished[..|finished| - 1]);
      if Count(finished) == |finished| {
        forall w | 0 <= w < |finished|
          ensures finished[w]
        {
          if w < |finished| - 1 {
            assert finished[..|finished| - 1][w];
          }
        }
      }
    }
  }

  lemma {:induction false} CountNone(n: nat)
    ensures Count(seq(n, i => false)) == 0
  {
    if n > 0 {
      CountNone(n - 1);
      assert seq(n, i => false)[..n - 1] == seq(n - 1, i => false);
    }
  }

  lemma {:induction false} RegisteredMember(order: seq<Topic>, topics: map<Topic, seq<nat>>, c: nat)
    ensures c in Registered(order, topics) <==> exists t :: t in order && Listed(topics, t, c)
  {
    if order != [] {
      var front, last := order[..|order| - 1], order[|order| - 1];
      RegisteredMember(front, topics, c);
      assert order == front + [last];
      if c in Lookup(topics, last) {
        assert last in order && Listed(topics, last, c);
      } else if t :| t in order && Listed(topics, t, c) {
        assert t in front;
      }
    }
  }

  lemma NoDupAppend<T>(a: seq<T>, b: seq<T>)
    ensures NoDup(a + b) <==> NoDup(a) && NoDup(b) && forall x :: x in a ==> x !in b
  {
    var s := a + b;
    if NoDup(s) {
      forall i, j | 0 <= i < j < |a|
        ensures a[i] != a[j]
      {
        assert s[i] == a[i] && s[j] == a[j];
      }
      forall i, j | 0 <= i < j < |b|
        ensures b[i] != b[j]
      {
        assert s[|a| + i] == b[i] && s[|a| + j] == b[j];
      }
      forall x | x in a
        ensures x !in b
      {
        var i :| 0 <= i < |a| && a[i] == x;
        assert s[i] == x;
        forall j | 0 <= j < |b|
          ensures b[j] != x
        {
          assert s[|a| + j] == b[j];
        }
      }
    } else {
      var i, j :| 0 <= i < j < |s| && s[i] == s[j];
      assert if j < |a| then a[i] == a[j]
             else if i >= |a| then b[i - |a|] == b[j - |a|]
             else a[i] in a && b[j - |a|] == a[i];
    }
  }

  /** No channel is listed twice under the topics of `order`. */
  ghost predicate SeparateOn(order: seq<Topic>, topics: map<Topic, seq<nat>>) {
    && (forall t, u, c :: t in order && u in order && Listed(topics, t, c) && Listed(topics, u, c) ==> t == u)
    && (forall t :: t in order ==> NoDup(Lookup(topics, t)))
  }

  lemma SeparateSnoc(front: seq<Topic>, last: Topic, topics: map<Topic, seq<nat>>)
    requires last !in front && last in topics
    ensures SeparateOn(front + [last], topics) <==>
              && SeparateOn(front, topics) && NoDup(topics[last])
              && forall c :: c in Registered(front, topics) ==> c !in topics[last]
  {
    assert forall t :: t in front + [last] <==> t in front || t == last;
    forall c
      ensures c in Registered(front, topics) && c in topics[last] <==>
                exists t :: t in front && Listed(topics, t, c) && Listed(topics, last, c)
    {
      RegisteredMember(front, topics, c);
    }
    SeparateAddOne(front, last, topics);
  }

  lemma SeparateAddOne(front: seq<Topic>, last: Topic, topics: map<Topic, seq<nat>>)
    requires last !in front && last in topics
    ensures SeparateOn(front + [last], topics) <==>
              && SeparateOn(front, topics) && NoDup(topics[last])
              && !exists c, t :: t in front && Listed(topics, t, c) && Listed(topics, last, c)
  {
    assert forall t :: t in front + [last] <==> t in front || t == last;
    assert Lookup(topics, last) == topics[last];
  }

  /** The channels to close are distinct exactly when no channel is listed twice. */
  lemma {:induction false} RegisteredNoDup(order: seq<Topic>, topics: map<Topic, seq<nat>>)
    requires NoDup(order) && forall t :: t in order ==> t in topics
    ensures NoDup(Registered(order, topics)) <==> SeparateOn(order, topics)
  {
    if order != [] {
      var front, last := order[..|order| - 1], order[|order| - 1];
      assert order == front + [last];
      NoDupAppend(front, [last]);
      assert last in order && last !in front;
      RegisteredNoDup(front, topics);
      NoDupAppend(Registered(front, topics), topics[last]);
      SeparateSnoc(front, last, topics);
    }
  }

  lemma RegisteredSeparate(order: seq<Topic>, topics: map<Topic, seq<nat>>)
    requires NoDup(order) && forall t :: t in order <==> t in topics
    ensures NoDup(Registered(order, topics)) <==> Separate(topics)
    ensures forall c :: c in Registered(order, topics) <==> exists t :: Listed(topics, t, c)
  {
    RegisteredNoDup(order, topics);
    forall c
      ensures c in Registered(order, topics) <==> exists t :: Listed(topics, t, c)
    {
      RegisteredMember(order, topics, c);
    }
  }

  lemma {:induction false} TasksForMember(e: Event, ts: seq<Topic>, topics: map<Topic, seq<nat>>, i: nat)
    requires i < |TasksFor(e, ts, topics)|
    ensures var task := TasksFor(e, ts, topics)[i];
            task.phase == Pending && task.event == e && exists t :: Listed(topics, t, task.chan)
  {
    var front, last := ts[..|ts| - 1], ts[|ts| - 1];
    var k := |TasksFor(e, front, topics)|;
    if i < k {
      TasksForMember(e, front, topics, i);
    } else {
      assert TasksFor(e, ts, topics)[i] == TopicTasks(e, Lookup(topics, last))[i - k];
      assert Listed(topics, last, Lookup(topics, last)[i - k]);
    }
  }

  ghost function Mult<T>(list: seq<T>, x: T): nat {
    multiset(list)[x]
  }

  /** How often x is listed under t. */
  ghost function ListCount(topics: map<Topic, seq<nat>>, t: Topic, x: nat): nat {
    Mult(Lookup(topics, t), x)
  }

  lemma {:induction false} NoDupCount<T>(list: seq<T>)
    ensures NoDup(list) <==> forall x :: Mult(list, x) <= 1
  {
    if list != [] {
      var n := |list| - 1;
      var front, last := list[..n], list[n];
      assert list == front + [last];
      NoDupCount(front);
      NoDupAppend(front, [last]);
      assert forall x :: Mult(list, x) == Mult(front, x) + if x == last then 1 else 0;
      assert last in front <==> Mult(front, last) >= 1;
    }
  }

  lemma ListedCount(topics: map<Topic, seq<nat>>, t: Topic, x: nat)
    ensures Listed(topics, t, x) <==> ListCount(topics, t, x) >= 1
  {
  }

  /** Separate, counted. */
  ghost predicate SeparateCounts(topics: map<Topic, seq<nat>>) {
    && (forall t, u, x: nat :: ListCount(topics, t, x) >= 1 && ListCount(topics, u, x) >= 1 ==> t == u)
    && (forall t, x: nat :: ListCount(topics, t, x) <= 1)
  }

  lemma SeparateCount(topics: map<Topic, seq<nat>>)
    ensures Separate(topics) <==> SeparateCounts(topics)
  {
    assert forall t, x: nat :: Listed(topics, t, x) <==> ListCount(topics, t, x) >= 1;
    forall t
      ensures NoDup(Lookup(topics, t)) <==> forall x: nat :: ListCount(topics, t, x) <= 1
    {
      NoDupCount(Lookup(topics, t));
      assert forall x: nat :: ListCount(topics, t, x) == Mult(Lookup(topics, t), x);
    }
    assert forall t :: t in topics ==> Lookup(topics, t) == topics[t];
  }

  /** Subscribing c adds one entry to a list for each time its topic was named. */
  lemma {:induction false} AddToCount(topics: map<Topic, seq<nat>>, ts: seq<Topic>, c: nat, t: Topic, x: nat)
    ensures ListCount(AddTo(topics, ts, c), t, x) == ListCount(topics, t, x) + if x == c then Mult(ts, t) else 0
  {
    if ts != [] {
      var front, last := ts[..|ts| - 1], ts[|ts| - 1];
      assert ts == front + [last];
      AddToCount(topics, front, c, t, x);
      var rest := AddTo(topics, front, c);
      assert multiset(Lookup(rest, t) + [c]) == multiset(Lookup(rest, t)) + multiset{c};
    }
  }

  lemma AddToListed(topics: map<Topic, seq<nat>>, ts: seq<Topic>, c: nat)
    ensures forall t, x: nat :: Listed(AddTo(topics, ts, c), t, x) <==> Listed(topics, t, x) || (x == c && t in ts)
  {
    forall t, x: nat
      ensures Listed(AddTo(topics, ts, c), t, x) <==> Listed(topics, t, x) || (x == c && t in ts)
    {
      AddToCount(topics, ts, c, t, x);
      assert Listed(topics, t, x) <==> ListCount(topics, t, x) >= 1;
      assert Listed(AddTo(topics, ts, c), t, x) <==> ListCount(AddTo(topics, ts, c), t, x) >= 1;
    }
  }

  ghost predicate Added(topics: map<Topic, seq<nat>>, topics': map<Topic, seq<nat>>, ts: seq<Topic>, c: nat) {
    forall t, x: nat :: ListCount(topics', t, x) == if x == c then Mult(ts, t) else ListCount(topics, t, x)
  }

  lemma AddToAdds(topics: map<Topic, seq<nat>>, ts: seq<Topic>, c: nat)
    requires !IsListed(topics, c)
    ensures Added(topics, AddTo(topics, ts, c), ts, c) && forall t :: ListCount(topics, t, c) == 0
  {
    forall t, x: nat
      ensures ListCount(AddTo(topics, ts, c), t, x) == if x == c then Mult(ts, t) else ListCount(topics, t, x)
      ensures ListCount(topics, t, c) == 0
    {
      AddToCount(topics, ts, c, t, x);
      assert !Listed(topics, t, c);
      ListedCount(topics, t, c);
    }
  }

  lemma TopicsNamed(ts: seq<Topic>)
    requires ts != []
    ensures if |ts| == 1 then forall t :: Mult(ts, t) == if t == ts[0] then 1 else 0
            else Mult(ts, ts[0]) >= 1 && Mult(ts, ts[1]) >= 1 && (ts[0] == ts[1] ==> Mult(ts, ts[0]) >= 2)
  {
    if |ts| == 1 {
      assert ts == [ts[0]];
    } else {
      assert ts == [ts[0]] + ([ts[1]] + ts[2..]);
      assert multiset(ts) == multiset{ts[0]} + (multiset{ts[1]} + multiset(ts[2..]));
    }
  }

  /** A new subscriber keeps every channel listed once exactly when it names at most one topic. */
  lemma SubscribeSeparateIff(topics: map<Topic, seq<nat>>, ts: seq<Topic>, c: nat)
    requires ts != [] && !IsListed(topics, c)
    ensures Separate(AddTo(topics, ts, c)) <==> Separate(topics) && |ts| <= 1
  {
    var topics' := AddTo(topics, ts, c);
    AddToAdds(topics, ts, c);
    SeparateCount(topics);
    SeparateCount(topics');
    TopicsNamed(ts);
    if |ts| >= 2 {
      TwiceAdded(topics, topics', ts, c);
    } else {
      OnceAdded(topics, topics', ts, c);
    }
  }

  lemma TwiceAdded(topics: map<Topic, seq<nat>>, topics': map<Topic, seq<nat>>, ts: seq<Topic>, c: nat)
    requires |ts| >= 2 && Added(topics, topics', ts, c)
    requires Mult(ts, ts[0]) >= 1 && Mult(ts, ts[1]) >= 1 && (ts[0] == ts[1] ==> Mult(ts, ts[0]) >= 2)
    ensures !SeparateCounts(topics')
  {
    assert ListCount(topics', ts[0], c) == Mult(ts, ts[0]) && ListCount(topics', ts[1], c) == Mult(ts, ts[1]);
  }

  lemma OnceAdded(topics: map<Topic, seq<nat>>, topics': map<Topic, seq<nat>>, ts: seq<Topic>, c: nat)
    requires |ts| == 1 && Added(topics, topics', ts, c)
    requires forall t :: Mult(ts, t) == if t == ts[0] then 1 else 0
    requires forall t :: ListCount(topics, t, c) == 0
    ensures SeparateCounts(topics') <==> SeparateCounts(topics)
  {
    if SeparateCounts(topics') {
      forall t, u, x: nat | ListCount(topics, t, x) >= 1 && ListCount(topics, u, x) >= 1
        ensures t == u
      {
        assert ListCount(topics', t, x) == ListCount(topics, t, x);
        assert ListCount(topics', u, x) == ListCount(topics, u, x);
      }
      forall t, x: nat
        ensures ListCount(topics, t, x) <= 1
      {
        assert ListCount(topics', t, x) <= 1;
      }
    }
  }

  // ---------------------------------------------------------------- every step keeps Wired

  lemma SubscribeKeepsWired(s: State, ts: seq<Topic>)
    requires Wired(s) && Enabled(s, Subscribe(ts))
    ensures Wired(Apply(s, Subscribe(ts)))
  {
    var s', c := Apply(s, Subscribe(ts)), |s.chans|;
    AddToListed(s.topics, Effective(ts), c);
    NoDupAppend(s.done, [c]);
    assert forall x :: 0 <= x < c ==> s'.chans[x] == s.chans[x] && (x in s'.done <==> x in s.done) && Closes(s, x);
  }

  lemma DispatchKeepsWired(s: State, e: Event, ts: seq<Topic>)
    requires Wired(s) && Enabled(s, Dispatch(e, ts))
    ensures Wired(Apply(s, Dispatch(e, ts)))
  {
    if !s.sdStarted {
      var more := TasksFor(e, ts + [DEFAULT_TOPIC], s.topics);
      forall i | 0 <= i < |more|
        ensures more[i].phase == Pending && exists t :: Listed(s.topics, t, more[i].chan)
      {
        TasksForMember(e, ts + [DEFAULT_TOPIC], s.topics, i);
      }
      assert forall c :: 0 <= c < |s.chans| ==> Closes(s, c);
    }
  }

  lemma BeginKeepsWired(s: State, order: seq<Topic>)
    requires Wired(s) && Enabled(s, Begin(order))
    ensures Wired(Apply(s, Begin(order)))
  {
    CountNone(|s.done|);
    assert forall w :: 0 <= w < |s.done| ==> s.done[w] in s.done;
    assert forall c :: 0 <= c < |s.chans| ==> Closes(s, c);
    forall c | c in Registered(order, s.topics)
      ensures IsListed(s.topics, c)
    {
      RegisteredMember(order, s.topics, c);
    }
  }

  /** Steps that only touch senders and buffers. */
  lemma SenderKeepsWired(s: State, step: Step)
    requires Wired(s) && Enabled(s, step) && (step.Lock? || step.Send?)
    ensures Wired(Apply(s, step))
  {
    var s' := Apply(s, step);
    if step.Send? {
      assert Reading(s);
    }
    assert forall i :: 0 <= i < |s.tasks| && i != step.t ==> s'.tasks[i] == s.tasks[i];
    assert forall c :: 0 <= c < |s.chans| ==> Closes(s, c);
  }

  lemma ReceiveKeepsWired(s: State, c: nat)
    requires Wired(s) && Enabled(s, Receive(c))
    ensures Wired(Apply(s, Receive(c)))
  {
    assert forall x :: 0 <= x < |s.chans| ==> Closes(s, x);
    ReceiveFlows(s.chans[c]);
  }

  lemma ReceiveFlows(ch: Channel)
    requires Flows(ch) && ch.buf != []
    ensures Flows(ch.(buf := ch.buf[1..], received := ch.received + [ch.buf[0]]))
  {
  }

  lemma ShutdownFuncKeepsWired(s: State, c: nat)
    requires Wired(s) && Enabled(s, CallShutdownFunc(c))
    ensures Wired(Apply(s, CallShutdownFunc(c)))
  {
    assert forall x :: 0 <= x < |s.chans| ==> Closes(s, x) && Flows(s.chans[x]);
  }

  lemma NotifierKeepsWired(s: State, step: Step)
    requires Wired(s) && Enabled(s, step) && (step.Launch? || step.Finish? || step.Notify?)
    ensures Wired(Apply(s, step))
  {
    CountAll(s.notifier.finished);
    if step.Finish? {
      CountUpdate(s.notifier.finished, step.w);
    }
    assert forall c :: 0 <= c < |s.chans| ==> Closes(s, c);
  }

  lemma CloseNextKeepsWired(s: State)
    requires Wired(s) && Enabled(s, CloseNext)
    ensures Wired(Apply(s, CloseNext))
  {
    var todo := s.shutdown.todo;
    var s' := SetChan(s, todo[0], s.chans[todo[0]].(closed := true));
    FaultKeepsWired(s);
    CloseKeepsWired(s, todo[0]);
    assert forall c :: c in todo[1..] ==> c in todo;
    assert forall c :: 0 <= c < |s'.chans| ==> Closes(s', c);
  }

  lemma ShutdownStepKeepsWired(s: State, step: Step)
    requires Wired(s) && Enabled(s, step) && (step.Wait? || step.ReturnNil? || step.ReturnTimeout?)
    ensures Wired(Apply(s, step))
  {
    assert forall c :: 0 <= c < |s.chans| ==> Closes(s, c);
  }

  lemma {:induction false} WithoutMember(list: seq<nat>, c: nat)
    ensures forall x: nat :: x in Without(list, c) ==> x in list
    ensures forall x: nat :: x in list && x != c ==> x in Without(list, c)
    ensures c !in list ==> Without(list, c) == list
    ensures NoDup(list) ==> NoDup(Without(list, c)) && c !in Without(list, c)
  {
    if list != [] {
      var rest := list[1..];
      assert list == [list[0]] + rest;
      NoDupAppend([list[0]], rest);
      WithoutMember(rest, c);
      NoDupAppend([list[0]], Without(rest, c));
    }
  }

  lemma WithoutListed(topics: map<Topic, seq<nat>>, c: nat)
    ensures var topics' := Removed(topics, c);
            && (forall t, x: nat :: Listed(topics', t, x) ==> Listed(topics, t, x))
            && (forall t, x: nat :: Listed(topics, t, x) && x != c ==> Listed(topics', t, x))
            && (forall t :: t in topics && c !in topics[t] ==> topics'[t] == topics[t])
  {
    var topics' := Removed(topics, c);
    forall t, x: nat
      ensures Listed(topics', t, x) ==> Listed(topics, t, x)
      ensures Listed(topics, t, x) && x != c ==> Listed(topics', t, x)
    {
      if t in topics {
        WithoutMember(topics[t], c);
      }
    }
    forall t | t in topics && c !in topics[t]
      ensures topics'[t] == topics[t]
    {
      WithoutMember(topics[t], c);
    }
  }

  lemma UnsubscribeChanKeepsWired(s: State, c: nat)
    requires Wired(s) && c < |s.chans|
    ensures Wired(UnsubscribeChan(s, c)) && UnsubscribeChan(s, c).done == s.done
    ensures |UnsubscribeChan(s, c).chans| == |s.chans|
  {
    if IsListed(s.topics, c) {
      CloseKeepsWired(s, c);
      WithoutListed(s.topics, c);
      FewerListedKeepsWired(SetChan(s, c, s.chans[c].(closed := true)), Removed(s.topics, c));
    }
    FaultKeepsWired(s);
  }

  lemma CloseKeepsWired(s: State, c: nat)
    requires Wired(s) && c < |s.chans|
    ensures Wired(SetChan(s, c, s.chans[c].(closed := true)))
  {
    assert forall x :: 0 <= x < |s.chans| ==> Closes(s, x) && Flows(s.chans[x]);
  }

  lemma FewerListedKeepsWired(s: State, topics: map<Topic, seq<nat>>)
    requires Wired(s) && forall t, x: nat :: Listed(topics, t, x) ==> Listed(s.topics, t, x)
    ensures Wired(s.(topics := topics))
  {
    assert forall x :: 0 <= x < |s.chans| ==> Closes(s, x);
  }

  lemma FaultKeepsWired(s: State)
    requires Wired(s)
    ensures Wired(s.(fault := true))
  {
    assert forall x :: 0 <= x < |s.chans| ==> Closes(s, x);
  }

  lemma UnsubscribeDoneKeepsWired(s: State, d: Option<nat>)
    requires Wired(s) && (d.Some? ==> d.value < |s.chans|)
    ensures Wired(UnsubscribeDone(s, d))
  {
    FaultKeepsWired(s);
    if d.Some? {
      WithoutMember(s.done, d.value);
      assert forall x :: 0 <= x < |s.chans| ==> Closes(s, x) && Flows(s.chans[x]);
    }
  }

  lemma StepKeepsWired(s: State, step: Step)
    requires Wired(s) && Enabled(s, step)
    ensures Wired(Apply(s, step))
  {
    match step
    case Subscribe(ts) => SubscribeKeepsWired(s, ts);
    case Unsubscribe(c, d) =>
      UnsubscribeChanKeepsWired(s, c);
      UnsubscribeDoneKeepsWired(UnsubscribeChan(s, c), d);
    case Dispatch(e, ts) => DispatchKeepsWired(s, e, ts);
    case Lock(_) => SenderKeepsWired(s, step);
    case Send(_) => SenderKeepsWired(s, step);
    case Receive(c) => ReceiveKeepsWired(s, c);
    case CallShutdownFunc(c) => ShutdownFuncKeepsWired(s, c);
    case Begin(order) => BeginKeepsWired(s, order);
    case CloseNext => CloseNextKeepsWired(s);
    case Wait => ShutdownStepKeepsWired(s, step);
    case Launch => NotifierKeepsWired(s, step);
    case Finish(_) => NotifierKeepsWired(s, step);
    case Notify => NotifierKeepsWired(s, step);
    case ReturnNil => ShutdownStepKeepsWired(s, step);
    case ReturnTimeout => ShutdownStepKeepsWired(s, step);
  }

  /** On every run, whatever the subscribers do, channels hold what was sent and not received, and the
      notifier's wait count is its unfinished watchers. */
  lemma {:induction false} RunsStayWired(s: State, steps: seq<Step>)
    requires Wired(s) && ValidRun(s, steps)
    ensures Wired(RunFrom(s, steps))
    decreases |steps|
  {
    if steps != [] {
      StepKeepsWired(s, steps[0]);
      RunsStayWired(Apply(s, steps[0]), steps[1..]);
    }
  }

  // ---------------------------------------------------------------- plain steps keep Sound

  lemma SubscribeKeepsSound(s: State, ts: seq<Topic>)
    requires Inv(s) && Enabled(s, Subscribe(ts)) && |ts| <= 1
    ensures Sound(Apply(s, Subscribe(ts)))
  {
    var s', c := Apply(s, Subscribe(ts)), |s.chans|;
    AddToListed(s.topics, Effective(ts), c);
    SubscribeSeparateIff(s.topics, Effective(ts), c);
    assert forall x :: 0 <= x < c ==> s'.chans[x] == s.chans[x];
  }

  lemma DispatchKeepsSound(s: State, e: Event, ts: seq<Topic>)
    requires Inv(s) && Enabled(s, Dispatch(e, ts))
    ensures Sound(Apply(s, Dispatch(e, ts)))
  {
    if !s.sdStarted {
      var more := TasksFor(e, ts + [DEFAULT_TOPIC], s.topics);
      forall i | 0 <= i < |more|
        ensures more[i].phase == Pending && exists t :: Listed(s.topics, t, more[i].chan)
      {
        TasksForMember(e, ts + [DEFAULT_TOPIC], s.topics, i);
      }
    }
  }

  lemma BeginKeepsSound(s: State, order: seq<Topic>)
    requires Inv(s) && Enabled(s, Begin(order))
    ensures Sound(Apply(s, Begin(order)))
  {
    RegisteredSeparate(order, s.topics);
  }

  lemma SenderKeepsSound(s: State, step: Step)
    requires Inv(s) && Enabled(s, step) && (step.Lock? || step.Send?)
    ensures Sound(Apply(s, step))
  {
    var s' := Apply(s, step);
    if step.Send? {
      assert Reading(s);
    }
    assert forall i :: 0 <= i < |s.tasks| && i != step.t ==> s'.tasks[i] == s.tasks[i];
    assert forall c :: 0 <= c < |s.chans| ==> s'.chans[c].closed == s.chans[c].closed;
  }

  lemma CloseNextKeepsSound(s: State)
    requires Inv(s) && Enabled(s, CloseNext)
    ensures Sound(Apply(s, CloseNext))
  {
    var todo := s.shutdown.todo;
    assert todo[0] in todo;
    assert todo == [todo[0]] + todo[1..];
    NoDupAppend([todo[0]], todo[1..]);
    assert forall c :: c in todo[1..] ==> c in todo && c != todo[0];
  }

  /** The steps that list nothing, close nothing but a done channel, and move no sender. */
  lemma OtherStepKeepsSound(s: State, step: Step)
    requires Inv(s) && Enabled(s, step)
    requires step.Receive? || step.CallShutdownFunc? || step.Wait? || step.Launch? || step.Finish? || step.Notify?
             || step.ReturnNil? || step.ReturnTimeout?
    ensures Sound(Apply(s, step))
  {
    var s' := Apply(s, step);
    assert forall c :: 0 <= c < |s.chans| ==> Closes(s, c);
    assert forall c :: 0 <= c < |s.chans| ==> s'.chans[c].closed == s.chans[c].closed;
  }

  lemma StepKeepsInv(s: State, step: Step)
    requires Inv(s) && Enabled(s, step) && Plain(step)
    ensures Inv(Apply(s, step))
  {
    StepKeepsWired(s, step);
    match step
    case Subscribe(ts) => SubscribeKeepsSound(s, ts);
    case Dispatch(e, ts) => DispatchKeepsSound(s, e, ts);
    case Lock(_) => SenderKeepsSound(s, step);
    case Send(_) => SenderKeepsSound(s, step);
    case Begin(order) => BeginKeepsSound(s, order);
    case CloseNext => CloseNextKeepsSound(s);
    case _ => OtherStepKeepsSound(s, step);
  }

  /** From any sound state, on every interleaving, the bus never sends on a closed channel and never
      closes one twice. */
  lemma {:induction false} RunsAreSafe(s: State, steps: seq<Step>)
    requires Inv(s) && ValidRun(s, steps) && forall step :: step in steps ==> Plain(step)
    ensures Inv(RunFrom(s, steps)) && !RunFrom(s, steps).fault
    decreases |steps|
  {
    if steps != [] {
      assert steps[0] in steps;
      StepKeepsInv(s, steps[0]);
      RunsAreSafe(Apply(s, steps[0]), steps[1..]);
    }
  }

  lemma InitialInv()
    ensures Inv(INITIAL)
  {
  }
}
