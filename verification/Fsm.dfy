/** Finite state machines, plain, stoppable and nonce-guarded (pkg/fsm).

    The pure part gives one step of a machine and of a nonce-guarded machine; the
    classes update their fields in place and are proved to take exactly those steps. */
module Fsm {
  import opened Common

  datatype Edge<S> = Edge(from: S, to: S)

  datatype MachineOption<S> =
    | WithTransition(edge: Edge<S>)
    | WithTransitions(groups: seq<seq<Edge<S>>>)
    | WithStoppable

  datatype Result = Ok | NotAllowed | Stopped | NonceMismatch

  // ---------------------------------------------------------------- building the edge map

  function Targets<S>(allowable: map<S, seq<S>>, from: S): seq<S> {
    if from in allowable then allowable[from] else []
  }

  function AddEdge<S>(allowable: map<S, seq<S>>, e: Edge<S>): map<S, seq<S>> {
    allowable[e.from := Targets(allowable, e.from) + [e.to]]
  }

  function AddEdges<S>(allowable: map<S, seq<S>>, es: seq<Edge<S>>): map<S, seq<S>> {
    if es == [] then allowable
    else AddEdge(AddEdges(allowable, es[..|es| - 1]), es[|es| - 1])
  }

  /** The declared edges of a list of transition groups. */
  function Flatten<S>(groups: seq<seq<Edge<S>>>): seq<Edge<S>> {
    if groups == [] then [] else Flatten(groups[..|groups| - 1]) + groups[|groups| - 1]
  }

  function OptionEdges<S>(opt: MachineOption<S>): seq<Edge<S>> {
    match opt
    case WithTransition(e) => [e]
    case WithTransitions(groups) => Flatten(groups)
    case WithStoppable => []
  }

  /** All edges declared by a list of options, in order. */
  function DeclaredEdges<S>(opts: seq<MachineOption<S>>): seq<Edge<S>> {
    if opts == [] then [] else DeclaredEdges(opts[..|opts| - 1]) + OptionEdges(opts[|opts| - 1])
  }

  /** The targets `from` has in a list of edges, in the order they were declared. */
  function TargetsOf<S(==)>(es: seq<Edge<S>>, from: S): seq<S> {
    if es == [] then []
    else
      var e := es[|es| - 1];
      TargetsOf(es[..|es| - 1], from) + if e.from == from then [e.to] else []
  }

  lemma {:induction false} AddEdgesTargets<S>(allowable: map<S, seq<S>>, es: seq<Edge<S>>, from: S)
    ensures Targets(AddEdges(allowable, es), from) == Targets(allowable, from) + TargetsOf(es, from)
  {
    if es != [] {
      AddEdgesTargets(allowable, es[..|es| - 1], from);
    }
  }

  lemma {:induction false} TargetsOfMember<S>(es: seq<Edge<S>>, from: S, to: S)
    ensures to in TargetsOf(es, from) <==> Edge(from, to) in es
  {
    if es != [] {
      var front, e := es[..|es| - 1], es[|es| - 1];
      TargetsOfMember(front, from, to);
      assert es == front + [e];
    }
  }

  /** A transition is in the map exactly when its edge was declared. */
  lemma {:induction false} MapHoldsDeclaredEdges<S>(es: seq<Edge<S>>, from: S, to: S)
    ensures to in Targets(AddEdges(map[], es), from) <==> Edge(from, to) in es
  {
    AddEdgesTargets(map[], es, from);
    TargetsOfMember(es, from, to);
  }

  lemma {:induction false} AddEdgesAppend<S>(allowable: map<S, seq<S>>, es: seq<Edge<S>>, fs: seq<Edge<S>>)
    ensures AddEdges(allowable, es + fs) == AddEdges(AddEdges(allowable, es), fs)
    decreases |fs|
  {
    if fs == [] {
      assert es + fs == es;
    } else {
      assert (es + fs)[..|es + fs| - 1] == es + fs[..|fs| - 1];
      AddEdgesAppend(allowable, es, fs[..|fs| - 1]);
    }
  }

  lemma OneMoreOption<S>(opts: seq<MachineOption<S>>, i: nat)
    requires i < |opts|
    ensures AddEdges(map[], DeclaredEdges(opts[..i + 1])) ==
            AddEdges(AddEdges(map[], DeclaredEdges(opts[..i])), OptionEdges(opts[i]))
    ensures WithStoppable in opts[..i + 1] <==> WithStoppable in opts[..i] || opts[i] == WithStoppable
  {
    assert opts[..i + 1] == opts[..i] + [opts[i]];
    assert opts[..i + 1][..i] == opts[..i];
    AddEdgesAppend(map[], DeclaredEdges(opts[..i]), OptionEdges(opts[i]));
  }

  /** Shorthand for the edges from one state to several. */
  method T<S>(from: S, tos: seq<S>) returns (edges: seq<Edge<S>>)
    ensures |edges| == |tos| && forall i :: 0 <= i < |tos| ==> edges[i] == Edge(from, tos[i])
    ensures forall e: Edge<S> :: e in edges <==> e.from == from && e.to in tos
  {
    edges := [];
    for i := 0 to |tos|
      invariant |edges| == i && forall j :: 0 <= j < i ==> edges[j] == Edge(from, tos[j])
    {
      edges := edges + [Edge(from, tos[i])];
    }
    forall e: Edge<S> | e.from == from && e.to in tos
      ensures e in edges
    {
      var i :| 0 <= i < |tos| && tos[i] == e.to;
      assert edges[i] == e;
    }
  }

  method FlattenLoop<S>(groups: seq<seq<Edge<S>>>) returns (edges: seq<Edge<S>>)
    ensures edges == Flatten(groups)
  {
    edges := [];
    for i := 0 to |groups|
      invariant edges == Flatten(groups[..i])
    {
      assert groups[..i + 1][..i] == groups[..i];
      edges := edges + groups[i];
    }
    assert groups[..|groups|] == groups;
  }

  // ---------------------------------------------------------------- one step of a machine

  datatype MachineState<S> = MachineState(
    current: S, initial: S, allowable: map<S, seq<S>>, stopOnError: bool, stopped: bool)

  predicate Allows<S(==)>(m: MachineState<S>, from: S, to: S) {
    to in Targets(m.allowable, from)
  }

  /** An attempted transition; `nonceOk` is true where no nonce guards the machine. */
  function Try<S(==)>(m: MachineState<S>, to: S, nonceOk: bool): (MachineState<S>, Result) {
    if m.stopOnError && m.stopped then (m, Stopped)
    else if !nonceOk then (m.(stopped := true), NonceMismatch)
    else if Allows(m, m.current, to) then (m.(current := to), Ok)
    else (m.(stopped := true), NotAllowed)
  }

  /** What the options make of a new machine. */
  function NewState<S(==)>(initial: S, opts: seq<MachineOption<S>>): MachineState<S> {
    MachineState(initial, initial, AddEdges(map[], DeclaredEdges(opts)), WithStoppable in opts, false)
  }

  datatype MOp<S> = MTry(to: S, nonceOk: bool) | MReset

  function MStep<S(==)>(m: MachineState<S>, op: MOp<S>): (MachineState<S>, Result) {
    match op
    case MTry(to, nonceOk) => Try(m, to, nonceOk)
    case MReset => (m.(current := m.initial, stopped := false), Ok)
  }

  function MRun<S(==)>(m: MachineState<S>, ops: seq<MOp<S>>): MachineState<S> {
    if ops == [] then m else MStep(MRun(m, ops[..|ops| - 1]), ops[|ops| - 1]).0
  }

  lemma {:induction false} RunKeepsConfiguration<S>(m: MachineState<S>, ops: seq<MOp<S>>)
    ensures var r := MRun(m, ops);
            r.initial == m.initial && r.allowable == m.allowable && r.stopOnError == m.stopOnError
  {
    if ops != [] {
      RunKeepsConfiguration(m, ops[..|ops| - 1]);
    }
  }

  /** The states a run goes through form a path in the declared edges, restarted only by Reset:
      a step moves along an edge and succeeds, or goes back to the initial state, or stays put. */
  lemma TraceIsPath<S>(es: seq<Edge<S>>, initial: S, stopOnError: bool, ops: seq<MOp<S>>, i: nat)
    requires i < |ops|
    ensures var m0 := MachineState(initial, initial, AddEdges(map[], es), stopOnError, false);
            var before, after := MRun(m0, ops[..i]), MRun(m0, ops[..i + 1]);
            match ops[i]
            case MTry(to, _) =>
              if MStep(before, ops[i]).1 == Ok
              then Edge(before.current, to) in es && after.current == to
              else after.current == before.current && after.stopped
            case MReset => after.current == initial && !after.stopped
  {
    var m0 := MachineState(initial, initial, AddEdges(map[], es), stopOnError, false);
    var before := MRun(m0, ops[..i]);
    assert ops[..i + 1][..i] == ops[..i];
    RunKeepsConfiguration(m0, ops[..i]);
    if ops[i].MTry? {
      MapHoldsDeclaredEdges(es, before.current, ops[i].to);
    }
  }

  /** With the stop option, after the first error every attempt fails as stopped and the state is
      frozen until the next Reset. */
  lemma {:induction false} FrozenUntilReset<S>(m: MachineState<S>, ops: seq<MOp<S>>, i: nat, j: nat)
    requires m.stopOnError && i < j <= |ops|
    requires MStep(MRun(m, ops[..i]), ops[i]).1 != Ok
    requires forall k :: i <= k < j ==> ops[k].MTry?
    ensures MRun(m, ops[..j]).current == MRun(m, ops[..i]).current
    ensures MRun(m, ops[..j]).stopped
    ensures i < j - 1 ==> MStep(MRun(m, ops[..j - 1]), ops[j - 1]).1 == Stopped
    decreases j
  {
    assert ops[..j][..j - 1] == ops[..j - 1];
    RunKeepsConfiguration(m, ops[..j - 1]);
    if i < j - 1 {
      FrozenUntilReset(m, ops, i, j - 1);
    }
  }

  /** Attempt k failed and no Reset came between it and i. */
  ghost predicate FailedAt<S>(m: MachineState<S>, ops: seq<MOp<S>>, k: nat, i: nat)
    requires k < i <= |ops|
  {
    MStep(MRun(m, ops[..k]), ops[k]).1 != Ok && forall j :: k < j < i ==> ops[j].MTry?
  }

  ghost predicate HasFailed<S>(m: MachineState<S>, ops: seq<MOp<S>>, i: nat)
    requires i <= |ops|
  {
    exists k: nat :: k < i && FailedAt(m, ops, k, i)
  }

  lemma HasFailedSnoc<S>(m: MachineState<S>, ops: seq<MOp<S>>, n: nat)
    requires n < |ops|
    ensures HasFailed(m, ops, n + 1) <==>
              MStep(MRun(m, ops[..n]), ops[n]).1 != Ok || (HasFailed(m, ops, n) && ops[n].MTry?)
  {
    var i := n + 1;
    if MStep(MRun(m, ops[..n]), ops[n]).1 != Ok {
      assert FailedAt(m, ops, n, i);
    } else if k: nat :| k < n && FailedAt(m, ops, k, n) {
      assert ops[n].MTry? ==> FailedAt(m, ops, k, i);
    }
    if k: nat :| k < i && FailedAt(m, ops, k, i) {
      assert k < n ==> FailedAt(m, ops, k, n) && ops[n].MTry?;
    }
  }

  lemma {:induction false} StoppedIff<S>(m: MachineState<S>, ops: seq<MOp<S>>, i: nat)
    requires !m.stopped && i <= |ops|
    ensures MRun(m, ops[..i]).stopped <==> HasFailed(m, ops, i)
  {
    if i == 0 {
      assert ops[..0] == [];
    } else {
      var n := i - 1;
      StoppedIff(m, ops, n);
      HasFailedSnoc(m, ops, n);
      assert ops[..i][..n] == ops[..n];
    }
  }

  /** The result of every attempt of a new machine: stopped exactly when the stop option is on and an
      attempt has failed since the last Reset; otherwise refused for the nonce, or for an edge that was
      not declared; otherwise it succeeds and moves. */
  lemma AttemptIsSpecified<S>(es: seq<Edge<S>>, initial: S, stopOnError: bool, ops: seq<MOp<S>>, i: nat)
    requires i < |ops| && ops[i].MTry?
    ensures var m0 := MachineState(initial, initial, AddEdges(map[], es), stopOnError, false);
            var before := MRun(m0, ops[..i]);
            var (after, result) := MStep(before, ops[i]);
            && result == (if stopOnError && HasFailed(m0, ops, i) then Stopped
                          else if !ops[i].nonceOk then NonceMismatch
                          else if Edge(before.current, ops[i].to) !in es then NotAllowed
                          else Ok)
            && after.current == if result == Ok then ops[i].to else before.current
  {
    var m0 := MachineState(initial, initial, AddEdges(map[], es), stopOnError, false);
    RunKeepsConfiguration(m0, ops[..i]);
    StoppedIff(m0, ops, i);
    MapHoldsDeclaredEdges(es, MRun(m0, ops[..i]).current, ops[i].to);
  }

  // ---------------------------------------------------------------- nonce-guarded machines

  type Bytes = seq<bv8>

  /** A nonce authorises at most one check; `used` is its consumed sync.Once. */
  datatype NonceState = NonceState(value: Bytes, used: bool)

  /** The nonce is None after an attempt failed and no replacement could be generated. */
  datatype Guarded<S> = Guarded(m: MachineState<S>, nonce: Option<NonceState>)

  /** `gen` is what the random source returned for the replacement nonce, None on failure. */
  datatype Op<S> = Transition(to: S, supplied: Bytes, gen: Option<Bytes>) | Reset(gen: Option<Bytes>)

  /** Done and NoNonce both changed the state; after NoNonce the caller got an error because no
      replacement could be generated.  Crash is the nil dereference without a nonce. */
  datatype Outcome = Done | Refused(why: Result) | NoNonce | Crash

  function FreshNonce(gen: Option<Bytes>): Option<NonceState> {
    if gen == None then None else Some(NonceState(gen.value, false))
  }

  function GuardedTransition<S(==)>(g: Guarded<S>, to: S, supplied: Bytes, gen: Option<Bytes>): (Guarded<S>, Outcome) {
    if g.nonce == None then (g, Crash)
    else
      var n := g.nonce.value;
      var (m', r) := Try(g.m, to, !n.used && n.value == supplied);
      if r != Ok then (Guarded(m', FreshNonce(gen)), Refused(r))
      else if gen == None then (Guarded(m', Some(n.(used := true))), NoNonce)
      else (Guarded(m', FreshNonce(gen)), Done)
  }

  function Step<S(==)>(g: Guarded<S>, op: Op<S>): (Guarded<S>, Outcome) {
    match op
    case Transition(to, supplied, gen) => GuardedTransition(g, to, supplied, gen)
    case Reset(gen) =>
      var m' := MStep(g.m, MReset).0;
      if gen == None then (Guarded(m', g.nonce), NoNonce)
      else (Guarded(m', FreshNonce(gen)), Done)
  }

  function Run<S(==)>(g: Guarded<S>, ops: seq<Op<S>>): Guarded<S> {
    if ops == [] then g else Step(Run(g, ops[..|ops| - 1]), ops[|ops| - 1]).0
  }

  /** Operation i was a transition that changed the state. */
  predicate Granted<S(==)>(g: Guarded<S>, ops: seq<Op<S>>, i: nat)
    requires i < |ops|
  {
    ops[i].Transition? && Step(Run(g, ops[..i]), ops[i]).1 in {Done, NoNonce}
  }

  /** The random source never repeats itself, nor the nonce the machine started with. */
  ghost predicate FreshSource<S>(g: Guarded<S>, ops: seq<Op<S>>) {
    && (forall i :: 0 <= i < |ops| && ops[i].gen.Some? && g.nonce.Some? ==> ops[i].gen.value != g.nonce.value.value)
    && (forall i, j :: 0 <= i < j < |ops| && ops[i].gen.Some? && ops[j].gen.Some? ==>
          ops[i].gen.value != ops[j].gen.value)
  }

  /** `x` cannot authorise anything in state `g`. */
  predicate Dead<S>(g: Guarded<S>, x: Bytes) {
    g.nonce == None || g.nonce.value.used || g.nonce.value.value != x
  }

  /** `x` was generated before operation i. */
  ghost predicate Issued<S>(g: Guarded<S>, ops: seq<Op<S>>, i: nat, x: Bytes)
    requires i <= |ops|
  {
    || (g.nonce.Some? && g.nonce.value.value == x)
    || (exists k :: 0 <= k < i && ops[k].gen == Some(x))
  }

  lemma {:induction false} CurrentWasIssued<S>(g: Guarded<S>, ops: seq<Op<S>>, i: nat)
    requires i <= |ops|
    ensures var n := Run(g, ops[..i]).nonce; n.Some? ==> Issued(g, ops, i, n.value.value)
  {
    if i == 0 {
      assert ops[..0] == [];
    } else {
      CurrentWasIssued(g, ops, i - 1);
      assert ops[..i][..i - 1] == ops[..i - 1];
      var n, n' := Run(g, ops[..i - 1]).nonce, Run(g, ops[..i]).nonce;
      if n'.Some? && !(n.Some? && n.value.value == n'.value.value) {
        assert ops[i - 1].gen == Some(n'.value.value);
      } else if n'.Some? && !(g.nonce.Some? && g.nonce.value.value == n'.value.value) {
        var k :| 0 <= k < i - 1 && ops[k].gen == Some(n'.value.value);
        assert 0 <= k < i;
      }
    }
  }

  /** A value that was issued and is dead stays dead. */
  lemma {:induction false} DeadStaysDead<S>(g: Guarded<S>, ops: seq<Op<S>>, i: nat, j: nat, x: Bytes)
    requires i <= j <= |ops| && FreshSource(g, ops)
    requires Issued(g, ops, i, x) && Dead(Run(g, ops[..i]), x)
    ensures Dead(Run(g, ops[..j]), x)
    decreases j
  {
    if i < j {
      DeadStaysDead(g, ops, i, j - 1, x);
      assert ops[..j][..j - 1] == ops[..j - 1];
      assert ops[j - 1].gen != Some(x);
    }
  }

  /** Any attempt, right or wrong, uses up the nonce it was made against. */
  lemma AttemptSpendsNonce<S>(g: Guarded<S>, ops: seq<Op<S>>, i: nat, j: nat)
    requires i < j <= |ops| && FreshSource(g, ops) && ops[i].Transition?
    requires Run(g, ops[..i]).nonce.Some?
    ensures Dead(Run(g, ops[..j]), Run(g, ops[..i]).nonce.value.value)
  {
    var x := Run(g, ops[..i]).nonce.value.value;
    CurrentWasIssued(g, ops, i);
    assert ops[..i + 1][..i] == ops[..i];
    assert ops[i].gen != Some(x);
    assert Issued(g, ops, i + 1, x) by {
      if !(g.nonce.Some? && g.nonce.value.value == x) {
        var k :| 0 <= k < i && ops[k].gen == Some(x);
        assert 0 <= k < i + 1;
      }
    }
    DeadStaysDead(g, ops, i + 1, j, x);
  }

  /** Each nonce value authorises at most one state change, on every run and even when generating
      replacements fails: a value that was granted once is refused ever after. */
  lemma NonceSingleUse<S>(g: Guarded<S>, ops: seq<Op<S>>, i: nat, j: nat)
    requires i < j < |ops| && FreshSource(g, ops)
    requires Granted(g, ops, i) && ops[j].Transition? && ops[j].supplied == ops[i].supplied
    ensures !Granted(g, ops, j)
  {
    AttemptSpendsNonce(g, ops, i, j);
  }

  /** Attempt k failed with no replacement to be had. */
  predicate LostBy<S(==)>(g: Guarded<S>, ops: seq<Op<S>>, k: nat)
    requires k < |ops|
  {
    ops[k].Transition? && ops[k].gen == None && Step(Run(g, ops[..k]), ops[k]).1.Refused?
  }

  /** A Reset generated a nonce. */
  predicate Restores<S(==)>(op: Op<S>) {
    op.Reset? && op.gen.Some?
  }

  /** Attempt k lost the nonce and no Reset before i generated one. */
  ghost predicate LostAt<S>(g: Guarded<S>, ops: seq<Op<S>>, k: nat, i: nat)
    requires k < i <= |ops|
  {
    LostBy(g, ops, k) && forall j :: k < j < i ==> !Restores(ops[j])
  }

  lemma LostStep<S>(g: Guarded<S>, ops: seq<Op<S>>, n: nat)
    requires n < |ops|
    ensures Run(g, ops[..n + 1]).nonce == None <==>
              LostBy(g, ops, n) || (Run(g, ops[..n]).nonce == None && !Restores(ops[n]))
  {
    assert ops[..n + 1][..n] == ops[..n];
  }

  ghost predicate Lost<S>(g: Guarded<S>, ops: seq<Op<S>>, i: nat)
    requires i <= |ops|
  {
    exists k: nat :: k < i && LostAt(g, ops, k, i)
  }

  lemma LostSnoc<S>(g: Guarded<S>, ops: seq<Op<S>>, n: nat)
    requires n < |ops|
    ensures Lost(g, ops, n + 1) <==> LostBy(g, ops, n) || (Lost(g, ops, n) && !Restores(ops[n]))
  {
    var i := n + 1;
    if LostBy(g, ops, n) {
      assert LostAt(g, ops, n, i);
    } else if k: nat :| k < n && LostAt(g, ops, k, n) {
      assert !Restores(ops[n]) ==> LostAt(g, ops, k, i);
    }
    if k: nat :| k < i && LostAt(g, ops, k, i) {
      assert k < n ==> LostAt(g, ops, k, n) && !Restores(ops[n]);
    }
  }

  lemma {:induction false} NonceLostIff<S>(g: Guarded<S>, ops: seq<Op<S>>, i: nat)
    requires g.nonce.Some? && i <= |ops|
    ensures Run(g, ops[..i]).nonce == None <==> Lost(g, ops, i)
  {
    if i == 0 {
      assert ops[..0] == [];
    } else {
      NonceLostIff(g, ops, i - 1);
      LostStep(g, ops, i - 1);
      LostSnoc(g, ops, i - 1);
    }
  }

  /** An attempt dereferences nil exactly when an earlier one failed with no replacement nonce to be
      had and no Reset has generated one since. */
  lemma CrashIff<S>(g: Guarded<S>, ops: seq<Op<S>>, i: nat)
    requires g.nonce.Some? && i < |ops|
    ensures Step(Run(g, ops[..i]), ops[i]).1 == Crash <==>
              ops[i].Transition? && Lost(g, ops, i)
  {
    NonceLostIff(g, ops, i);
  }

  /** A run of a new machine that does: one wrong nonce while the random source fails, then any attempt. */
  lemma WrongNonceThenCrash<S>(
      m: MachineState<S>, first: Bytes, wrong: Bytes, to: S, to': S, next: Bytes, gen: Option<Bytes>)
    requires wrong != first && !m.stopped
    ensures var g := Guarded(m, Some(NonceState(first, false)));
            var ops := [Op.Transition(to, wrong, None), Op.Transition(to', next, gen)];
            && Step(Run(g, ops[..0]), ops[0]).1 == Refused(NonceMismatch)
            && Step(Run(g, ops[..1]), ops[1]).1 == Crash
  {
    var ops := [Op.Transition(to, wrong, None), Op.Transition(to', next, gen)];
    assert ops[..0] == [] && ops[..1][..0] == [];
  }

  /** The nonce that would be accepted before operation i: the last one generated, unless an attempt has
      been made since or it was lost. */
  ghost function Live<S>(g: Guarded<S>, ops: seq<Op<S>>, i: nat): Option<Bytes>
    requires g.nonce.Some? && i <= |ops|
  {
    if i == 0 then if g.nonce.value.used then None else Some(g.nonce.value.value)
    else
      match ops[i - 1]
      case Reset(gen) => if gen.Some? then gen else Live(g, ops, i - 1)
      case Transition(_, _, gen) => if Lost(g, ops, i - 1) then None else gen
  }

  lemma {:induction false} LiveIs<S>(g: Guarded<S>, ops: seq<Op<S>>, i: nat)
    requires g.nonce.Some? && i <= |ops|
    ensures forall x :: Live(g, ops, i) == Some(x) <==> !Dead(Run(g, ops[..i]), x)
  {
    if i == 0 {
      assert ops[..0] == [];
    } else {
      var n := i - 1;
      LiveIs(g, ops, n);
      NonceLostIff(g, ops, n);
      assert ops[..i][..n] == ops[..n];
    }
  }

  /** Attempt k was refused and no Reset came between it and i. */
  ghost predicate RefusedAt<S>(g: Guarded<S>, ops: seq<Op<S>>, k: nat, i: nat)
    requires k < i <= |ops|
  {
    Step(Run(g, ops[..k]), ops[k]).1.Refused? && forall j :: k < j < i ==> ops[j].Transition?
  }

  ghost predicate HasRefused<S>(g: Guarded<S>, ops: seq<Op<S>>, i: nat)
    requires i <= |ops|
  {
    exists k: nat :: k < i && RefusedAt(g, ops, k, i)
  }

  lemma HasRefusedSnoc<S>(g: Guarded<S>, ops: seq<Op<S>>, n: nat)
    requires n < |ops|
    ensures HasRefused(g, ops, n + 1) <==>
              Step(Run(g, ops[..n]), ops[n]).1.Refused? || (HasRefused(g, ops, n) && ops[n].Transition?)
  {
    var i := n + 1;
    if Step(Run(g, ops[..n]), ops[n]).1.Refused? {
      assert RefusedAt(g, ops, n, i);
    } else if k: nat :| k < n && RefusedAt(g, ops, k, n) {
      assert ops[n].Transition? ==> RefusedAt(g, ops, k, i);
    }
    if k: nat :| k < i && RefusedAt(g, ops, k, i) {
      assert k < n ==> RefusedAt(g, ops, k, n) && ops[n].Transition?;
    }
  }

  lemma {:induction false} GuardedStoppedIff<S>(g: Guarded<S>, ops: seq<Op<S>>, i: nat)
    requires !g.m.stopped && i <= |ops|
    ensures Run(g, ops[..i]).m.stopped <==> HasRefused(g, ops, i)
  {
    if i == 0 {
      assert ops[..0] == [];
    } else {
      var n := i - 1;
      GuardedStoppedIff(g, ops, n);
      HasRefusedSnoc(g, ops, n);
      assert ops[..i][..n] == ops[..n];
    }
  }

  lemma {:induction false} GuardedKeepsConfiguration<S>(g: Guarded<S>, ops: seq<Op<S>>)
    ensures var r := Run(g, ops).m;
            r.initial == g.m.initial && r.allowable == g.m.allowable && r.stopOnError == g.m.stopOnError
  {
    if ops != [] {
      GuardedKeepsConfiguration(g, ops[..|ops| - 1]);
    }
  }

  function NewGuarded<S(==)>(es: seq<Edge<S>>, initial: S, stopOnError: bool, first: Bytes): Guarded<S> {
    Guarded(MachineState(initial, initial, AddEdges(map[], es), stopOnError, false), Some(NonceState(first, false)))
  }

  /** The outcome of every attempt on a new guarded machine, whatever happened before: a crash exactly
      when the nonce was lost; otherwise stopped exactly when the stop option is on and an attempt was
      refused since the last Reset; otherwise refused exactly when the nonce is not the live one, or the
      edge was not declared; otherwise it moves, with or without a new nonce. */
  lemma GuardedAttemptIsSpecified<S>(
      es: seq<Edge<S>>, initial: S, stopOnError: bool, first: Bytes, ops: seq<Op<S>>, i: nat)
    requires i < |ops| && ops[i].Transition?
    ensures var g := NewGuarded(es, initial, stopOnError, first);
            var before, op := Run(g, ops[..i]), ops[i];
            var (after, outcome) := Step(before, op);
            && outcome == (if Lost(g, ops, i) then Crash
                           else if stopOnError && HasRefused(g, ops, i) then Refused(Stopped)
                           else if Live(g, ops, i) != Some(op.supplied) then Refused(NonceMismatch)
                           else if Edge(before.m.current, op.to) !in es then Refused(NotAllowed)
                           else if op.gen.Some? then Done
                           else NoNonce)
            && after.m.current == if outcome in {Done, NoNonce} then op.to else before.m.current
  {
    var g := NewGuarded(es, initial, stopOnError, first);
    NonceLostIff(g, ops, i);
    GuardedStoppedIff(g, ops, i);
    LiveIs(g, ops, i);
    GuardedKeepsConfiguration(g, ops[..i]);
    MapHoldsDeclaredEdges(es, Run(g, ops[..i]).m.current, ops[i].to);
  }

  /** In particular a nonce generated by an operation that did not crash authorises the next attempt,
      if the machine is not stopped and the edge was declared. */
  lemma GeneratedNonceWorks<S>(
      es: seq<Edge<S>>, initial: S, stopOnError: bool, first: Bytes, ops: seq<Op<S>>, i: nat)
    requires 0 < i < |ops| && ops[i].Transition? && ops[i - 1].gen == Some(ops[i].supplied)
    requires Step(Run(NewGuarded(es, initial, stopOnError, first), ops[..i - 1]), ops[i - 1]).1 != Crash
    ensures var g := NewGuarded(es, initial, stopOnError, first);
            Granted(g, ops, i) <==>
              !(stopOnError && HasRefused(g, ops, i)) && Edge(Run(g, ops[..i]).m.current, ops[i].to) in es
  {
    var g := NewGuarded(es, initial, stopOnError, first);
    NonceLostIff(g, ops, i - 1);
    LostSnoc(g, ops, i - 1);
    GuardedAttemptIsSpecified(es, initial, stopOnError, first, ops, i);
  }

  /** The guarded machine inside takes exactly the steps of a plain one. */
  lemma GuardedStepIsMachineStep<S>(g: Guarded<S>, op: Op<S>)
    ensures var (g', outcome) := Step(g, op);
            match op
            case Reset(gen) =>
              && g'.m == MStep(g.m, MReset).0 && g'.m.current == g.m.initial && !g'.m.stopped
              && outcome == if gen.Some? then Done else NoNonce
            case Transition(to, supplied, _) =>
              if outcome == Crash then g' == g
              else g'.m == MStep(g.m, MTry(to, !Dead(g, supplied))).0
  {
  }

  // ---------------------------------------------------------------- objects

  class Machine<S(==)> {
    var current: S
    var initial: S
    var allowable: map<S, seq<S>>
    var stopOnError: bool
    var stopped: bool

    function Abs(): MachineState<S>
      reads this
    {
      MachineState(current, initial, allowable, stopOnError, stopped)
    }

    constructor (initial: S, opts: seq<MachineOption<S>>)
      ensures Abs() == NewState(initial, opts)
    {
      current := initial;
      this.initial := initial;
      allowable := map[];
      stopOnError := false;
      stopped := false;
      new;
      for i := 0 to |opts|
        invariant Abs() == NewState(initial, opts[..i])
      {
        OneMoreOption(opts, i);
        Apply(opts[i]);
      }
      assert opts[..|opts|] == opts;
    }

    method Apply(opt: MachineOption<S>)
      modifies this`allowable, this`stopOnError
      ensures allowable == AddEdges(old(allowable), OptionEdges(opt))
      ensures stopOnError == (old(stopOnError) || opt == WithStoppable)
    {
      match opt
      case WithStoppable => stopOnError := true;
      case WithTransition(e) =>
        allowable := AddEdge(allowable, e);
        assert [e][..0] == [];
      case WithTransitions(groups) =>
        var edges := FlattenLoop(groups);
        for i := 0 to |edges|
          invariant allowable == AddEdges(old(allowable), edges[..i]) && stopOnError == old(stopOnError)
        {
          assert edges[..i + 1][..i] == edges[..i];
          allowable := AddEdge(allowable, edges[i]);
        }
        assert edges[..|edges|] == edges;
    }

    method Allowable(from: S, to: S) returns (b: bool)
      ensures b <==> Allows(Abs(), from, to)
    {
      var all := if from in allowable then allowable[from] else [];
      b := false;
      for i := 0 to |all|
        invariant to !in all[..i]
      {
        if all[i] == to {
          return true;
        }
      }
    }

    method Transition(to: S) returns (r: Result)
      modifies this
      ensures (Abs(), r) == Try(old(Abs()), to, true)
    {
      r := TransitionGuarded(to, null);
    }

    /** Checks the stop guard, then the nonce guard if there is one, then the edge. */
    method TransitionGuarded(to: S, nonce: Nonce?) returns (r: Result)
      modifies this, nonce
      ensures nonce == null ==> (Abs(), r) == Try(old(Abs()), to, true)
      ensures nonce != null ==>
                && (Abs(), r) == Try(old(Abs()), to, !old(nonce.used) && old(nonce.current) == old(nonce.received))
                && nonce.current == old(nonce.current) && nonce.received == old(nonce.received)
                && nonce.used == (old(nonce.used) || !(old(stopOnError) && old(stopped)))
    {
      if stopOnError && stopped {
        return Stopped;
      }
      if nonce != null {
        var ok := nonce.Check();
        if !ok {
          stopped := true;
          return NonceMismatch;
        }
      }
      var allowed := Allowable(current, to);
      if allowed {
        current := to;
        return Ok;
      }
      stopped := true;
      return NotAllowed;
    }

    method Reset()
      modifies this
      ensures Abs() == MStep(old(Abs()), MReset).0
    {
      current := initial;
      stopped := false;
    }
  }

  class Nonce {
    var current: Bytes
    var used: bool
    var received: Bytes

    constructor (value: Bytes)
      ensures current == value && !used
    {
      current := value;
      used := false;
      received := [];
    }

    /** Compares once; every later check reports no match. */
    method Check() returns (ok: bool)
      modifies this`used
      ensures used && ok == (!old(used) && current == received)
    {
      ok := !used && current == received;
      used := true;
    }
  }

  class MachineNonce<S(==)> {
    const m: Machine<S>
    var nonce: Nonce?

    ghost function Abs(): Guarded<S>
      reads this, m, nonce
    {
      Guarded(m.Abs(), if nonce == null then None else Some(NonceState(nonce.current, nonce.used)))
    }

    constructor (machine: Machine<S>, first: Bytes)
      ensures m == machine && nonce != null && fresh(nonce)
      ensures Abs() == Guarded(machine.Abs(), Some(NonceState(first, false)))
    {
      m := machine;
      nonce := new Nonce(first);
    }

    method Transition(to: S, supplied: Bytes, gen: Option<Bytes>) returns (r: Outcome)
      modifies this, m, nonce
      ensures (Abs(), r) == Step(old(Abs()), Op.Transition(to, supplied, gen))
      ensures nonce == old(nonce) || nonce == null || fresh(nonce)
    {
      if nonce == null {
        return Crash;
      }
      nonce.received := supplied;
      var result := m.TransitionGuarded(to, nonce);
      if result != Ok {
        if gen == None {
          nonce := null;
        } else {
          nonce := new Nonce(gen.value);
        }
        return Refused(result);
      }
      if gen == None {
        return NoNonce;
      }
      nonce := new Nonce(gen.value);
      return Done;
    }

    method Reset(gen: Option<Bytes>) returns (r: Outcome)
      modifies this, m
      ensures (Abs(), r) == Step(old(Abs()), Op.Reset(gen))
      ensures nonce == old(nonce) || fresh(nonce)
    {
      m.Reset();
      if gen == None {
        return NoNonce;
      }
      nonce := new Nonce(gen.value);
      return Done;
    }
  }
}
