/** The event bus as atomic steps (pkg/eventbus/bus.go).

    A state holds what the goroutines share: the subscriber lists, the channels, the shutdown flag,
    the sender tasks spawned by Dispatch, the Shutdown call and its notifier.  The mutex is not a
    field: its readers are the tasks in phase Holding, its writer is the Shutdown call while it runs;
    everything else that takes the lock does so within one step.  `fault` is a panic: a send on a
    closed channel or a second close. */
module Bus {
  import opened Common
  import opened Unsubscribing

  type Topic = string

  const DEFAULT_TOPIC: Topic := "__default__"

  /** Events are opaque to the bus. */
  datatype Event = Event(kind: string, payload: seq<bv8>)

  /** A sender goroutine: waiting for the lock, holding it, or finished either way. */
  datatype Phase = Pending | Holding | Sent | Dropped

  datatype Task = Task(event: Event, chan: nat, phase: Phase)

  /** A subscriber's event channel, with everything ever sent on and received from it, its done
      channel, and the sync.Once of its ShutdownFunc. */
  datatype Channel = Channel(
    buf: seq<Event>, closed: bool, sent: seq<Event>, received: seq<Event>, doneClosed: bool, onceUsed: bool)

  datatype Shutdown = Idle | Closing(todo: seq<nat>) | Waiting | Returned(ok: bool)

  /** The goroutine that waits for all done channels; `cohort` is the number of subscribers there
      were when Shutdown took the lock, `wg` the WaitGroup counter. */
  datatype Notifier = Absent | Notifier(
    all: seq<nat>, cohort: nat, launched: nat, finished: seq<bool>, wg: int, notified: bool)

  datatype State = State(
    topics: map<Topic, seq<nat>>, done: seq<nat>, chans: seq<Channel>, sdStarted: bool,
    tasks: seq<Task>, shutdown: Shutdown, notifier: Notifier, fault: bool)

  datatype Step =
    | Subscribe(topics: seq<Topic>)
    | Unsubscribe(c: nat, done: Option<nat>)
    | Dispatch(event: Event, topics: seq<Topic>)
    | Lock(t: nat)
    | Send(t: nat)
    | Receive(c: nat)
    | CallShutdownFunc(c: nat)
    | Begin(order: seq<Topic>)
    | CloseNext
    | Wait
    | Launch
    | Finish(w: nat)
    | Notify
    | ReturnNil
    | ReturnTimeout

  const NEW_CHANNEL := Channel([], false, [], [], false, false)

  const INITIAL := State(map[], [], [], false, [], Idle, Absent, false)

  // ---------------------------------------------------------------- subscriber lists

  function Lookup(topics: map<Topic, seq<nat>>, t: Topic): seq<nat> {
    if t in topics then topics[t] else []
  }

  function AddTo(topics: map<Topic, seq<nat>>, ts: seq<Topic>, c: nat): map<Topic, seq<nat>> {
    if ts == [] then topics
    else
      var rest := AddTo(topics, ts[..|ts| - 1], c);
      rest[ts[|ts| - 1] := Lookup(rest, ts[|ts| - 1]) + [c]]
  }

  function Effective(ts: seq<Topic>): seq<Topic> {
    if ts == [] then [DEFAULT_TOPIC] else ts
  }

  /** The channels listed under `order`, one topic after the other. */
  function Registered(order: seq<Topic>, topics: map<Topic, seq<nat>>): seq<nat> {
    if order == [] then [] else Registered(order[..|order| - 1], topics) + Lookup(topics, order[|order| - 1])
  }

  function TopicTasks(e: Event, list: seq<nat>): (ts: seq<Task>)
    ensures |ts| == |list| && forall i :: 0 <= i < |list| ==> ts[i] == Task(e, list[i], Pending)
  {
    seq(|list|, i requires 0 <= i < |list| => Task(e, list[i], Pending))
  }

  function TasksFor(e: Event, ts: seq<Topic>, topics: map<Topic, seq<nat>>): seq<Task> {
    if ts == [] then []
    else TasksFor(e, ts[..|ts| - 1], topics) + TopicTasks(e, Lookup(topics, ts[|ts| - 1]))
  }

  predicate Listed(topics: map<Topic, seq<nat>>, t: Topic, c: nat) {
    t in topics && c in topics[t]
  }

  ghost predicate NoDup<T>(s: seq<T>) {
    forall i, j :: 0 <= i < j < |s| ==> s[i] != s[j]
  }

  /** No channel is listed twice, under one topic or two. */
  ghost predicate Separate(topics: map<Topic, seq<nat>>) {
    && (forall t, u, c :: Listed(topics, t, c) && Listed(topics, u, c) ==> t == u)
    && (forall t :: t in topics ==> NoDup(topics[t]))
  }

  // ---------------------------------------------------------------- steps

  predicate Writing(s: State) {
    s.shutdown.Closing? || s.shutdown.Waiting?
  }

  predicate Reading(s: State) {
    exists t :: 0 <= t < |s.tasks| && s.tasks[t].phase == Holding
  }

  /** When a step can happen.  A map is ranged over in any order, which Begin chooses. */
  ghost predicate Enabled(s: State, step: Step) {
    && !s.fault
    && match step
       case Subscribe(_) => !Writing(s) && !Reading(s)
       case Unsubscribe(c, d) =>
         !Writing(s) && !Reading(s) && c < |s.chans| && (d.Some? ==> d.value < |s.chans|)
       case Dispatch(_, _) => !Writing(s)
       case Lock(t) => t < |s.tasks| && s.tasks[t].phase == Pending && !Writing(s)
       case Send(t) =>
         t < |s.tasks| && s.tasks[t].phase == Holding && s.tasks[t].chan < |s.chans| &&
         (s.chans[s.tasks[t].chan].closed || |s.chans[s.tasks[t].chan].buf| < 1)
       case Receive(c) => c < |s.chans| && s.chans[c].buf != []
       case CallShutdownFunc(c) => c < |s.chans|
       case Begin(order) =>
         s.shutdown == Idle && !Reading(s) && NoDup(order) && forall t :: t in order <==> t in s.topics
       case CloseNext => s.shutdown.Closing? && s.shutdown.todo != [] && s.shutdown.todo[0] < |s.chans|
       case Wait => s.shutdown == Closing([])
       case Launch => s.notifier.Notifier? && s.notifier.launched < |s.notifier.all|
       case Finish(w) =>
         s.notifier.Notifier? && w < s.notifier.launched && w < |s.notifier.finished| && w < |s.notifier.all| &&
         !s.notifier.finished[w] && s.notifier.all[w] < |s.chans| && s.chans[s.notifier.all[w]].doneClosed
       case Notify =>
         s.notifier.Notifier? && s.notifier.launched == |s.notifier.all| && s.notifier.wg == 0 && !s.notifier.notified
       case ReturnNil => s.shutdown == Waiting && s.notifier.Notifier? && s.notifier.notified
       case ReturnTimeout => s.shutdown == Waiting
  }

  function SetChan(s: State, c: nat, ch: Channel): State
    requires c < |s.chans|
  {
    s.(chans := s.chans[c := ch])
  }

  function SetPhase(s: State, t: nat, p: Phase): State
    requires t < |s.tasks|
  {
    s.(tasks := s.tasks[t := s.tasks[t].(phase := p)])
  }

  ghost function Apply(s: State, step: Step): State
    requires Enabled(s, step)
  {
    match step
    case Subscribe(ts) =>
      var c := |s.chans|;
      s.(topics := AddTo(s.topics, Effective(ts), c), done := s.done + [c], chans := s.chans + [NEW_CHANNEL])
    case Unsubscribe(c, d) =>
      var s' := UnsubscribeChan(s, c);
      if s'.fault then s' else UnsubscribeDone(s', d)
    case Dispatch(e, ts) =>
      if s.sdStarted then s else s.(tasks := s.tasks + TasksFor(e, ts + [DEFAULT_TOPIC], s.topics))
    case Lock(t) => SetPhase(s, t, if s.sdStarted then Dropped else Holding)
    case Send(t) =>
      var c, e := s.tasks[t].chan, s.tasks[t].event;
      var ch := s.chans[c];
      if ch.closed then s.(fault := true)
      else SetChan(SetPhase(s, t, Sent), c, ch.(buf := ch.buf + [e], sent := ch.sent + [e]))
    case Receive(c) =>
      var ch := s.chans[c];
      SetChan(s, c, ch.(buf := ch.buf[1..], received := ch.received + [ch.buf[0]]))
    case CallShutdownFunc(c) =>
      var ch := s.chans[c];
      if ch.onceUsed then s
      else if ch.doneClosed then s.(fault := true)
      else SetChan(s, c, ch.(onceUsed := true, doneClosed := true))
    case Begin(order) =>
      s.(sdStarted := true, shutdown := Closing(Registered(order, s.topics)),
         notifier := Notifier(s.done, |s.chans|, 0, seq(|s.done|, i => false), 0, false))
    case CloseNext =>
      var c := s.shutdown.todo[0];
      if s.chans[c].closed then s.(fault := true)
      else SetChan(s, c, s.chans[c].(closed := true)).(shutdown := Closing(s.shutdown.todo[1..]))
    case Wait => s.(shutdown := Waiting)
    case Launch => s.(notifier := s.notifier.(launched := s.notifier.launched + 1, wg := s.notifier.wg + 1))
    case Finish(w) =>
      s.(notifier := s.notifier.(finished := s.notifier.finished[w := true], wg := s.notifier.wg - 1))
    case Notify => s.(notifier := s.notifier.(notified := true))
    case ReturnNil => s.(shutdown := Returned(true))
    case ReturnTimeout => s.(shutdown := Returned(false))
  }

  ghost predicate IsListed(topics: map<Topic, seq<nat>>, c: nat) {
    exists t :: Listed(topics, t, c)
  }

  /** Ranging over the lists and removing c from them comes to close it more than once: c is listed
      under two topics, or the loop over one list meets it again after deleting it. */
  ghost predicate ClosesAgain(topics: map<Topic, seq<nat>>, c: nat) {
    || (exists t, u :: t != u && Listed(topics, t, c) && Listed(topics, u, c))
    || (exists t :: Listed(topics, t, c) && MetAgain(topics[t], c))
  }

  /** Every list without its first c. */
  function Removed(topics: map<Topic, seq<nat>>, c: nat): (r: map<Topic, seq<nat>>)
    ensures r.Keys == topics.Keys && forall t :: t in topics ==> r[t] == Without(topics[t], c)
  {
    map t | t in topics :: Without(topics[t], c)
  }

  ghost function UnsubscribeChan(s: State, c: nat): State
    requires c < |s.chans|
  {
    if !IsListed(s.topics, c) then s
    else if s.chans[c].closed || ClosesAgain(s.topics, c) then s.(fault := true)
    else
      SetChan(s, c, s.chans[c].(closed := true)).(topics := Removed(s.topics, c))
  }

  function UnsubscribeDone(s: State, d: Option<nat>): State
    requires d.Some? ==> d.value < |s.chans|
  {
    if d == None || d.value !in s.done then s
    else if s.chans[d.value].doneClosed || MetAgain(s.done, d.value) then s.(fault := true)
    else SetChan(s, d.value, s.chans[d.value].(doneClosed := true)).(done := Without(s.done, d.value))
  }

  // ---------------------------------------------------------------- runs

  ghost predicate ValidRun(s: State, steps: seq<Step>)
    decreases |steps|
  {
    steps == [] || (Enabled(s, steps[0]) && ValidRun(Apply(s, steps[0]), steps[1..]))
  }

  ghost function RunFrom(s: State, steps: seq<Step>): State
    requires ValidRun(s, steps)
    decreases |steps|
  {
    if steps == [] then s else RunFrom(Apply(s, steps[0]), steps[1..])
  }
}
