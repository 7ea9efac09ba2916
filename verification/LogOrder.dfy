/** When the order in which a caller passes its options, and the way an unstable sort breaks ties,
    makes a difference to the log processor. */
module LogOrder {
  import opened LogOptions

  predicate OneHistory(opts: seq<LogOption>) {
    forall o, p :: o in opts && p in opts && o.WithHistory? && p.WithHistory? ==> o == p
  }

  predicate OneCommand(opts: seq<LogOption>) {
    forall o, p :: o in opts && p in opts && o.WithCommand? && p.WithCommand? ==> o == p
  }

  /** No queue would be given a negative capacity. */
  predicate HistoriesFit(opts: seq<LogOption>) {
    forall o :: o in opts && o.WithHistory? ==> o.hist >= -1
  }

  predicate NoHistoryFits(opts: seq<LogOption>) {
    && (exists o :: o in opts && o.WithHistory?)
    && forall o :: o in opts && o.WithHistory? ==> o.hist < -1
  }

  predicate HasCommand(opts: seq<LogOption>) {
    exists o :: o in opts && o.WithCommand?
  }

  predicate CommandsFail(opts: seq<LogOption>, all: bool) {
    if all then forall o :: o in opts && o.WithCommand? ==> Fails(o.command)
    else exists o :: o in opts && o.WithCommand? && Fails(o.command)
  }

  /** A piped and a wrapped command leave the same kinds of ends, whichever comes first. */
  predicate EndsCoincide(opts: seq<LogOption>) {
    && NoStdoutInput in opts && NoStderrInput in opts
    && (NoOutput in opts || NoStdoutOutput in opts || NoStderrOutput in opts)
  }

  /** The order of the options makes no difference. */
  predicate Settled(opts: seq<LogOption>) {
    if !HasCommand(opts) then OneHistory(opts)
    else if CommandsFail(opts, false) then HistoriesFit(opts) || CommandsFail(opts, true)
    else NoHistoryFits(opts) || (HistoriesFit(opts) && OneHistory(opts) && (OneCommand(opts) || EndsCoincide(opts)))
  }

  // ---------------------------------------------------------------- settled options agree

  lemma SameMembers(a: seq<LogOption>, b: seq<LogOption>)
    requires multiset(a) == multiset(b)
    ensures forall o :: o in a <==> o in b
  {
    assert forall o :: o in a <==> o in multiset(a);
    assert forall o :: o in b <==> o in multiset(b);
  }

  lemma SameCommands(a: seq<LogOption>, b: seq<LogOption>)
    requires multiset(a) == multiset(b)
    ensures multiset(Commands(a)) == multiset(Commands(b)) && |Commands(a)| == |Commands(b)|
  {
    forall cmd
      ensures multiset(Commands(a))[cmd] == multiset(Commands(b))[cmd]
    {
      CommandsMember(a, cmd);
      CommandsMember(b, cmd);
    }
    assert multiset(Commands(a)) == multiset(Commands(b));
    assert |multiset(Commands(a))| == |multiset(Commands(b))|;
  }

  function Repeat<T>(x: T, n: nat): seq<T> {
    if n == 0 then [] else Repeat(x, n - 1) + [x]
  }

  lemma {:induction false} ConstantIsRepeat<T>(s: seq<T>, x: T)
    requires forall i :: 0 <= i < |s| ==> s[i] == x
    ensures s == Repeat(x, |s|)
  {
    if s != [] {
      ConstantIsRepeat(s[..|s| - 1], x);
    }
  }

  lemma {:induction false} KeptSinksAppend(opts: seq<LogOption>, x: seq<End>, y: seq<End>)
    ensures KeptSinks(opts, x + y) == KeptSinks(opts, x) + KeptSinks(opts, y)
    decreases |y|
  {
    if y == [] {
      assert x + y == x;
    } else {
      assert (x + y)[..|x + y| - 1] == x + y[..|y| - 1];
      KeptSinksAppend(opts, x, y[..|y| - 1]);
    }
  }

  lemma {:induction false} KeptSourcesAppend(opts: seq<LogOption>, x: seq<Source>, y: seq<Source>)
    ensures KeptSources(opts, x + y) == KeptSources(opts, x) + KeptSources(opts, y)
    decreases |y|
  {
    if y == [] {
      assert x + y == x;
    } else {
      assert (x + y)[..|x + y| - 1] == x + y[..|y| - 1];
      KeptSourcesAppend(opts, x, y[..|y| - 1]);
    }
  }

  lemma KeptSourcePair(opts: seq<LogOption>, x: Source, y: Source)
    ensures KeptSources(opts, [x, y]) ==
            (if KeepsSource(opts, x) then [x] else []) + if KeepsSource(opts, y) then [y] else []
    ensures KeptSources(opts, [x]) == if KeepsSource(opts, x) then [x] else []
  {
    assert [x, y][..1] == [x] && [x][..0] == [];
    assert KeptSources(opts, []) == [];
  }

  function Piping(cs: seq<Command>): nat {
    if cs == [] then 0 else Piping(cs[..|cs| - 1]) + if cs[|cs| - 1].Piped? then 1 else 0
  }

  lemma {:induction false} PipingIs(cs: seq<Command>)
    ensures Piping(cs) == multiset(cs)[Piped] <= |cs|
  {
    if cs != [] {
      var front, last := cs[..|cs| - 1], cs[|cs| - 1];
      assert cs == front + [last];
      PipingIs(front);
      assert multiset(cs) == multiset(front) + multiset{last};
    }
  }

  lemma SourcesOfCommand(opts: seq<LogOption>, cmd: Command, h: int)
    requires EndsCoincide(opts)
    ensures KeptSources(opts, CommandSources(cmd, h)) == if cmd.Piped? then [Source(MStdin, h)] else []
  {
    KeptSourcePair(opts, Source(PStdout, h), Source(PStderr, h));
    KeptSourcePair(opts, Source(MStdin, h), Source(MStdin, h));
  }

  lemma {:induction false} CoincidingSources(opts: seq<LogOption>, cs: seq<Command>, h: int)
    requires EndsCoincide(opts)
    ensures KeptSources(opts, AllSources(cs, h)) == Repeat(Source(MStdin, h), Piping(cs))
  {
    if cs != [] {
      var front, last := cs[..|cs| - 1], cs[|cs| - 1];
      CoincidingSources(opts, front, h);
      KeptSourcesAppend(opts, AllSources(front, h), CommandSources(last, h));
      SourcesOfCommand(opts, last, h);
    }
  }

  /** Which end, if any, is left of the outputs of n commands, p of them piped, and how many of it. */
  function LeftSinks(opts: seq<LogOption>, n: nat, p: nat): seq<End>
    requires p <= n
  {
    if KeepsSink(opts, MStdout) then Repeat(MStdout, n)
    else if KeepsSink(opts, MStderr) then Repeat(MStderr, n - p)
    else []
  }

  /** What one command adds to them. */
  lemma LeftOfCommand(opts: seq<LogOption>, cmd: Command)
    requires EndsCoincide(opts)
    ensures KeptSinks(opts, CommandSinks(cmd)) ==
            if KeepsSink(opts, MStdout) then [MStdout]
            else if KeepsSink(opts, MStderr) && !cmd.Piped? then [MStderr]
            else []
  {
    KeptPair(opts, MStdout, MStderr);
  }

  lemma LeftStep(opts: seq<LogOption>, n: nat, p: nat, last: Command)
    requires EndsCoincide(opts) && p <= n
    ensures LeftSinks(opts, n + 1, if last.Piped? then p + 1 else p) ==
            LeftSinks(opts, n, p) + KeptSinks(opts, CommandSinks(last))
  {
    LeftOfCommand(opts, last);
  }

  lemma {:induction false} CoincidingSinks(opts: seq<LogOption>, cs: seq<Command>)
    requires EndsCoincide(opts)
    ensures Piping(cs) <= |cs| && KeptSinks(opts, AllSinks(cs)) == LeftSinks(opts, |cs|, Piping(cs))
  {
    if cs != [] {
      var front, last := cs[..|cs| - 1], cs[|cs| - 1];
      CoincidingSinks(opts, front);
      LeftStep(opts, |front|, Piping(front), last);
      KeptSinksAppend(opts, AllSinks(front), CommandSinks(last));
    }
  }

  lemma SameHistory(a: seq<LogOption>, b: seq<LogOption>)
    requires multiset(a) == multiset(b)
    ensures OneHistory(a) ==> FinalHist(a) == FinalHist(b)
    ensures HistoriesFit(a) ==> FinalHist(a) >= -1 && FinalHist(b) >= -1
    ensures NoHistoryFits(a) ==> FinalHist(a) < -1 && FinalHist(b) < -1
  {
    SameMembers(a, b);
    FinalHistMember(a);
    FinalHistMember(b);
    if o :| o in a && o.WithHistory? {
      assert WithHistory(o.hist) in a;
    } else {
      assert forall h :: WithHistory(h) !in a;
    }
  }

  lemma CommandsAre(opts: seq<LogOption>)
    ensures HasCommand(opts) <==> Commands(opts) != []
    ensures CommandsFail(opts, false) <==> SomeFails(Commands(opts))
    ensures CommandsFail(opts, true) <==> forall cmd :: cmd in Commands(opts) ==> Fails(cmd)
    ensures OneCommand(opts) <==> forall c, d :: c in Commands(opts) && d in Commands(opts) ==> c == d
  {
    var cs := Commands(opts);
    forall cmd
      ensures cmd in cs <==> WithCommand(cmd) in opts
    {
      CommandsMember(opts, cmd);
    }
    assert forall o :: o in opts && o.WithCommand? ==> o.command in cs;
    if cs != [] {
      assert cs[0] in cs;
    }
  }

  lemma SameIfOne(a: seq<LogOption>, b: seq<LogOption>)
    requires multiset(a) == multiset(b) && OneCommand(a)
    ensures Commands(a) == Commands(b)
  {
    var cs, ds := Commands(a), Commands(b);
    SameCommands(a, b);
    CommandsAre(a);
    if cs != [] {
      assert forall i :: 0 <= i < |cs| ==> cs[i] in cs;
      assert forall i :: 0 <= i < |ds| ==> ds[i] in multiset(ds);
      ConstantIsRepeat(cs, cs[0]);
      ConstantIsRepeat(ds, cs[0]);
    }
  }

  lemma SamePiping(a: seq<LogOption>, b: seq<LogOption>)
    requires multiset(a) == multiset(b)
    ensures |Commands(a)| == |Commands(b)| && Piping(Commands(a)) == Piping(Commands(b)) <= |Commands(a)|
  {
    SameCommands(a, b);
    PipingIs(Commands(a));
    PipingIs(Commands(b));
  }

  lemma SameSinksIfCoinciding(a: seq<LogOption>, b: seq<LogOption>)
    requires multiset(a) == multiset(b) && EndsCoincide(a) && EndsCoincide(b)
    ensures KeptSinks(a, AllSinks(Commands(a))) == KeptSinks(b, AllSinks(Commands(b)))
  {
    SamePiping(a, b);
    CoincidingSinks(a, Commands(a));
    CoincidingSinks(b, Commands(b));
    LeftSame(a, b, |Commands(a)|, Piping(Commands(a)));
  }

  lemma LeftSame(a: seq<LogOption>, b: seq<LogOption>, n: nat, p: nat)
    requires multiset(a) == multiset(b) && p <= n
    ensures LeftSinks(a, n, p) == LeftSinks(b, n, p)
  {
    SameMembers(a, b);
  }

  lemma SameSourcesIfCoinciding(a: seq<LogOption>, b: seq<LogOption>, h: int)
    requires multiset(a) == multiset(b) && EndsCoincide(a) && EndsCoincide(b)
    ensures KeptSources(a, AllSources(Commands(a), h)) == KeptSources(b, AllSources(Commands(b), h))
  {
    SamePiping(a, b);
    CoincidingSources(a, Commands(a), h);
    CoincidingSources(b, Commands(b), h);
  }

  lemma SameIfCoinciding(a: seq<LogOption>, b: seq<LogOption>, h: int)
    requires multiset(a) == multiset(b) && EndsCoincide(a)
    ensures KeptSources(a, AllSources(Commands(a), h)) == KeptSources(b, AllSources(Commands(b), h))
    ensures KeptSinks(a, AllSinks(Commands(a))) == KeptSinks(b, AllSinks(Commands(b)))
  {
    SameMembers(a, b);
    SameSinksIfCoinciding(a, b);
    SameSourcesIfCoinciding(a, b, h);
  }

  lemma SameEnds(a: seq<LogOption>, b: seq<LogOption>, h: int)
    requires multiset(a) == multiset(b) && (OneCommand(a) || EndsCoincide(a))
    ensures KeptSources(a, AllSources(Commands(a), h)) == KeptSources(b, AllSources(Commands(b), h))
    ensures KeptSinks(a, AllSinks(Commands(a))) == KeptSinks(b, AllSinks(Commands(b)))
  {
    if OneCommand(a) {
      SameMembers(a, b);
      SameIfOne(a, b);
      KeptSameSources(a, b, AllSources(Commands(a), h));
      KeptSameSinks(a, b, AllSinks(Commands(a)));
    } else {
      SameIfCoinciding(a, b, h);
    }
  }

  lemma SettledAgree(a: seq<LogOption>, b: seq<LogOption>)
    requires multiset(a) == multiset(b) && Sorted(a) && Sorted(b) && Settled(a)
    ensures ApplyAll(a) == ApplyAll(b)
  {
    SortedAmounts(a);
    SortedAmounts(b);
    SameMembers(a, b);
    SameCommands(a, b);
    SameHistory(a, b);
    CommandsAre(a);
    CommandsAre(b);
    var cs, ds := Commands(a), Commands(b);
    if cs != [] {
      assert cs[0] in cs && ds[0] in ds;
      assert forall cmd :: cmd in cs <==> cmd in multiset(cs);
      assert forall cmd :: cmd in ds <==> cmd in multiset(ds);
      if !SomeFails(cs) && !NoHistoryFits(a) {
        SameEnds(a, b, FinalHist(a));
      }
    }
  }

  // ---------------------------------------------------------------- unsettled options disagree

  function Histories(hs: seq<int>): (r: seq<LogOption>)
    ensures |r| == |hs| && forall i :: 0 <= i < |r| ==> r[i] == WithHistory(hs[i])
  {
    seq(|hs|, i requires 0 <= i < |hs| => WithHistory(hs[i]))
  }

  function CommandOptions(cs: seq<Command>): (r: seq<LogOption>)
    ensures |r| == |cs| && forall i :: 0 <= i < |r| ==> r[i] == WithCommand(cs[i])
  {
    seq(|cs|, i requires 0 <= i < |cs| => WithCommand(cs[i]))
  }

  ghost predicate Filters(fs: seq<LogOption>) {
    Sorted(fs) && forall o :: o in fs ==> Priority(o) >= 2
  }

  function Assemble(hs: seq<int>, cs: seq<Command>, fs: seq<LogOption>): seq<LogOption> {
    Histories(hs) + (CommandOptions(cs) + fs)
  }

  lemma AssembleSnoc(hs: seq<int>, cs: seq<Command>, fs: seq<LogOption>, o: LogOption)
    ensures Assemble(hs, cs, fs) + [o] == Assemble(hs, cs, fs + [o])
    ensures fs == [] && o.WithCommand? ==> Assemble(hs, cs, fs) + [o] == Assemble(hs, cs + [o.command], [])
    ensures cs == [] && fs == [] && o.WithHistory? ==> Assemble(hs, cs, fs) + [o] == Assemble(hs + [o.hist], [], [])
  {
  }

  lemma AssembleMember(hs: seq<int>, cs: seq<Command>, fs: seq<LogOption>, o: LogOption)
    ensures o in Assemble(hs, cs, fs) <==>
              (o.WithHistory? && o.hist in hs) || (o.WithCommand? && o.command in cs) || o in fs
  {
    assert o in Assemble(hs, cs, fs) <==> o in Histories(hs) || o in CommandOptions(cs) || o in fs;
    if o.WithHistory? && o.hist in hs {
      var i :| 0 <= i < |hs| && hs[i] == o.hist;
      assert Histories(hs)[i] == o;
    }
    if o.WithCommand? && o.command in cs {
      var i :| 0 <= i < |cs| && cs[i] == o.command;
      assert CommandOptions(cs)[i] == o;
    }
  }

  lemma NoTail(hs: seq<int>, cs: seq<Command>, fs: seq<LogOption>, bound: nat)
    requires Filters(fs) && forall p :: p in Assemble(hs, cs, fs) ==> Priority(p) <= bound
    ensures bound <= 1 ==> fs == []
    ensures bound == 0 ==> cs == []
  {
    if fs != [] {
      assert fs[0] in fs;
      AssembleMember(hs, cs, fs, fs[0]);
    }
    if cs != [] {
      assert cs[0] in cs;
      AssembleMember(hs, cs, fs, WithCommand(cs[0]));
    }
  }

  /** Every sorted list is histories, then commands, then filters. */
  lemma {:induction false} Decompose(a: seq<LogOption>)
    returns (hs: seq<int>, cs: seq<Command>, fs: seq<LogOption>)
    requires Sorted(a)
    ensures Filters(fs) && a == Assemble(hs, cs, fs)
  {
    if a == [] {
      hs, cs, fs := [], [], [];
    } else {
      var front, o := a[..|a| - 1], a[|a| - 1];
      assert a == front + [o];
      SnocMembers(front, o);
      hs, cs, fs := Decompose(front);
      NoTail(hs, cs, fs, Priority(o));
      AssembleSnoc(hs, cs, fs, o);
      if Priority(o) >= 2 {
        FiltersSnoc(hs, cs, fs, o);
        fs := fs + [o];
      } else if o.WithCommand? {
        cs := cs + [o.command];
      } else {
        hs := hs + [o.hist];
      }
    }
  }

  lemma FiltersSnoc(hs: seq<int>, cs: seq<Command>, fs: seq<LogOption>, o: LogOption)
    requires Filters(fs) && Priority(o) >= 2
    requires forall p :: p in Assemble(hs, cs, fs) ==> Priority(p) <= Priority(o)
    ensures Filters(fs + [o])
  {
    SnocMembers(fs, o);
    forall p | p in fs
      ensures Priority(p) <= Priority(o)
    {
      AssembleMember(hs, cs, fs, p);
    }
    assert forall i :: 0 <= i < |fs| ==> fs[i] in fs;
  }

  lemma {:induction false} CommandsAppend(x: seq<LogOption>, y: seq<LogOption>)
    ensures Commands(x + y) == Commands(x) + Commands(y)
    decreases |y|
  {
    if y == [] {
      assert x + y == x;
    } else {
      assert (x + y)[..|x + y| - 1] == x + y[..|y| - 1];
      CommandsAppend(x, y[..|y| - 1]);
    }
  }

  lemma {:induction false} FinalHistAppend(x: seq<LogOption>, y: seq<LogOption>)
    requires forall o :: o in y ==> !o.WithHistory?
    ensures FinalHist(x + y) == FinalHist(x)
    decreases |y|
  {
    if y == [] {
      assert x + y == x;
    } else {
      var n := |y| - 1;
      assert (x + y)[..|x + y| - 1] == x + y[..n];
      assert y[n] in y && forall o :: o in y[..n] ==> o in y;
      FinalHistAppend(x, y[..n]);
    }
  }

  lemma {:induction false} NoCommands(opts: seq<LogOption>)
    requires forall o :: o in opts ==> !o.WithCommand?
    ensures Commands(opts) == []
  {
    if opts != [] {
      var n := |opts| - 1;
      assert opts[n] in opts && forall o :: o in opts[..n] ==> o in opts;
      NoCommands(opts[..n]);
    }
  }

  lemma {:induction false} CommandsBack(cs: seq<Command>)
    ensures Commands(CommandOptions(cs)) == cs
  {
    if cs != [] {
      CommandsBack(cs[..|cs| - 1]);
      assert CommandOptions(cs)[..|cs| - 1] == CommandOptions(cs[..|cs| - 1]);
    }
  }

  function LastOr(hs: seq<int>): int {
    if hs == [] then DEFAULT.hist else hs[|hs| - 1]
  }

  lemma AssembleCommands(hs: seq<int>, cs: seq<Command>, fs: seq<LogOption>)
    requires Filters(fs)
    ensures Commands(Assemble(hs, cs, fs)) == cs
  {
    NoCommands(Histories(hs));
    CommandsBack(cs);
    NoCommands(fs);
    CommandsAppend(CommandOptions(cs), fs);
    CommandsAppend(Histories(hs), CommandOptions(cs) + fs);
  }

  lemma AssembleHist(hs: seq<int>, cs: seq<Command>, fs: seq<LogOption>)
    requires Filters(fs)
    ensures FinalHist(Assemble(hs, cs, fs)) == LastOr(hs)
  {
    FinalHistAppend(Histories(hs), CommandOptions(cs) + fs);
  }

  lemma AssembleSorted(hs: seq<int>, cs: seq<Command>, fs: seq<LogOption>)
    requires Filters(fs)
    ensures Sorted(Assemble(hs, cs, fs))
  {
    assert forall i :: 0 <= i < |fs| ==> fs[i] in fs;
    var tail := CommandOptions(cs) + fs;
    assert Sorted(tail) && forall i :: 0 <= i < |tail| ==> Priority(tail[i]) >= 1;
    assert Sorted(Histories(hs) + tail);
  }

  /** What an assembled list amounts to depends on its last history, its commands, and its filters. */
  lemma AssembleAmounts(hs: seq<int>, cs: seq<Command>, fs: seq<LogOption>)
    requires Filters(fs)
    ensures var a := Assemble(hs, cs, fs);
            Sorted(a) && ApplyAll(a) == Amounts(LastOr(hs), cs, a)
  {
    AssembleSorted(hs, cs, fs);
    AssembleCommands(hs, cs, fs);
    AssembleHist(hs, cs, fs);
    SortedAmounts(Assemble(hs, cs, fs));
  }

  // ---------------------------------------------------------------- rearranging

  function Swap<T>(s: seq<T>, i: nat, j: nat): (r: seq<T>)
    requires i < |s| && j < |s|
    ensures |r| == |s| && multiset(r) == multiset(s) && r[i] == s[j] && r[j] == s[i]
  {
    s[i := s[j]][j := s[i]]
  }

  lemma SwapMembers<T>(s: seq<T>, i: nat, j: nat)
    requires i < |s| && j < |s|
    ensures forall x :: x in Swap(s, i, j) <==> x in s
  {
    assert forall x :: x in s <==> x in multiset(s);
    assert forall x :: x in Swap(s, i, j) <==> x in multiset(Swap(s, i, j));
  }

  lemma SwapHistories(hs: seq<int>, cs: seq<Command>, fs: seq<LogOption>, i: nat, j: nat)
    requires i < |hs| && j < |hs|
    ensures multiset(Assemble(Swap(hs, i, j), cs, fs)) == multiset(Assemble(hs, cs, fs))
  {
    assert Histories(Swap(hs, i, j)) == Swap(Histories(hs), i, j);
  }

  lemma SwapCommands(hs: seq<int>, cs: seq<Command>, fs: seq<LogOption>, i: nat, j: nat)
    requires i < |cs| && j < |cs|
    ensures multiset(Assemble(hs, Swap(cs, i, j), fs)) == multiset(Assemble(hs, cs, fs))
  {
    assert CommandOptions(Swap(cs, i, j)) == Swap(CommandOptions(cs), i, j);
  }

  /** hs with element i last. */
  function MoveLast(hs: seq<int>, i: nat): (r: seq<int>)
    requires hs == [] || i < |hs|
    ensures LastOr(r) == if hs == [] then DEFAULT.hist else hs[i]
  {
    if hs == [] then hs else Swap(hs, i, |hs| - 1)
  }

  /** A rearrangement of `a` that makes a difference. */
  ghost predicate Disagrees(a: seq<LogOption>, b: seq<LogOption>) {
    Sorted(b) && multiset(b) == multiset(a) && ApplyAll(b) != ApplyAll(a)
  }

  /** The same options with history i last and command j first. */
  lemma Variant(hs: seq<int>, cs: seq<Command>, fs: seq<LogOption>, i: nat, j: nat) returns (b: seq<LogOption>)
    requires Filters(fs) && (hs == [] || i < |hs|) && j < |cs|
    ensures Sorted(b) && multiset(b) == multiset(Assemble(hs, cs, fs))
    ensures ApplyAll(b) == Amounts(if hs == [] then DEFAULT.hist else hs[i], Swap(cs, 0, j), b)
  {
    var hs', cs' := MoveLast(hs, i), Swap(cs, 0, j);
    b := Assemble(hs', cs', fs);
    if hs != [] {
      SwapHistories(hs, cs, fs, i, |hs| - 1);
    }
    SwapCommands(hs', cs, fs, 0, j);
    AssembleAmounts(hs', cs', fs);
  }

  lemma OtherHistory(hs: seq<int>, cs: seq<Command>, fs: seq<LogOption>) returns (i: nat)
    requires Filters(fs) && !OneHistory(Assemble(hs, cs, fs))
    ensures i < |hs| && hs[i] != LastOr(hs)
  {
    var a := Assemble(hs, cs, fs);
    var o, p :| o in a && p in a && o.WithHistory? && p.WithHistory? && o != p;
    AssembleMember(hs, cs, fs, o);
    AssembleMember(hs, cs, fs, p);
    if o.hist != LastOr(hs) {
      i :| 0 <= i < |hs| && hs[i] == o.hist;
    } else {
      i :| 0 <= i < |hs| && hs[i] == p.hist;
    }
  }

  lemma NothingBuilt(hs: seq<int>, cs: seq<Command>, fs: seq<LogOption>)
    requires Filters(fs) && cs == []
    ensures Sorted(Assemble(hs, cs, fs)) && ApplyAll(Assemble(hs, cs, fs)) == Built(Config(LastOr(hs), [], []))
  {
    AssembleAmounts(hs, cs, fs);
  }

  lemma NothingVariant(hs: seq<int>, cs: seq<Command>, fs: seq<LogOption>, i: nat) returns (b: seq<LogOption>)
    requires Filters(fs) && cs == [] && i < |hs|
    ensures Sorted(b) && multiset(b) == multiset(Assemble(hs, cs, fs))
    ensures ApplyAll(b) == Built(Config(hs[i], [], []))
  {
    var last := |hs| - 1;
    var hs' := Swap(hs, i, last);
    assert LastOr(hs') == hs'[last] == hs[i];
    b := Assemble(hs', cs, fs);
    SwapHistories(hs, cs, fs, i, last);
    NothingBuilt(hs', cs, fs);
  }

  /** Without a command, two histories disagree. */
  lemma NoCommandDisagrees(hs: seq<int>, cs: seq<Command>, fs: seq<LogOption>, i: nat) returns (b: seq<LogOption>)
    requires Filters(fs) && cs == [] && i < |hs| && hs[i] != LastOr(hs)
    ensures Disagrees(Assemble(hs, cs, fs), b)
  {
    NothingBuilt(hs, cs, fs);
    b := NothingVariant(hs, cs, fs, i);
  }

  lemma BadHistory(hs: seq<int>, cs: seq<Command>, fs: seq<LogOption>) returns (i: nat)
    requires Filters(fs) && !HistoriesFit(Assemble(hs, cs, fs))
    ensures i < |hs| && hs[i] < -1
  {
    var o :| o in Assemble(hs, cs, fs) && o.WithHistory? && o.hist < -1;
    AssembleMember(hs, cs, fs, o);
    i :| 0 <= i < |hs| && hs[i] == o.hist;
  }

  lemma GoodHistory(hs: seq<int>, cs: seq<Command>, fs: seq<LogOption>) returns (i: nat)
    requires Filters(fs) && !NoHistoryFits(Assemble(hs, cs, fs)) && hs != []
    ensures i < |hs| && hs[i] >= -1
  {
    var a := Assemble(hs, cs, fs);
    AssembleMember(hs, cs, fs, WithHistory(hs[0]));
    assert hs[0] in hs;
    var o :| o in a && o.WithHistory? && o.hist >= -1;
    AssembleMember(hs, cs, fs, o);
    i :| 0 <= i < |hs| && hs[i] == o.hist;
  }

  lemma SwapFails(cs: seq<Command>, j: nat)
    requires j < |cs|
    ensures SomeFails(Swap(cs, 0, j)) <==> SomeFails(cs)
    ensures Swap(cs, 0, j) != [] && Swap(cs, 0, j)[0] == cs[j]
  {
    SwapMembers(cs, 0, j);
  }

  /** Commands some of which fail, and a history too small for the others. */
  lemma SomeFailDisagrees(hs: seq<int>, cs: seq<Command>, fs: seq<LogOption>, i: nat, bad: nat, good: nat)
    returns (b: seq<LogOption>)
    requires Filters(fs) && i < |hs| && hs[i] < -1 && bad < |cs| && good < |cs|
    requires Fails(cs[bad]) && !Fails(cs[good])
    ensures Disagrees(Assemble(hs, cs, fs), b)
  {
    assert cs[bad] in cs;
    AssembleAmounts(hs, cs, fs);
    var failing := Variant(hs, cs, fs, i, bad);
    var panicking := Variant(hs, cs, fs, i, good);
    SwapFails(cs, bad);
    SwapFails(cs, good);
    assert ApplyAll(failing) == Failed && ApplyAll(panicking) == Panicked;
    b := if ApplyAll(Assemble(hs, cs, fs)) == Failed then panicking else failing;
  }

  /** No command fails: a history that panics and one that does not, or two different ones that do not. */
  lemma HistoriesDisagree(hs: seq<int>, cs: seq<Command>, fs: seq<LogOption>, i: nat) returns (b: seq<LogOption>)
    requires Filters(fs) && cs != [] && !SomeFails(cs)
    requires i < |hs| && hs[i] != LastOr(hs) && (hs[i] >= -1 || LastOr(hs) >= -1)
    ensures Disagrees(Assemble(hs, cs, fs), b)
  {
    AssembleAmounts(hs, cs, fs);
    b := Variant(hs, cs, fs, i, 0);
    SwapFails(cs, 0);
    assert cs[0] in cs;
  }

  lemma {:induction false} AllSourcesAppend(x: seq<Command>, y: seq<Command>, h: int)
    ensures AllSources(x + y, h) == AllSources(x, h) + AllSources(y, h)
    decreases |y|
  {
    if y == [] {
      assert x + y == x;
    } else {
      assert (x + y)[..|x + y| - 1] == x + y[..|y| - 1];
      AllSourcesAppend(x, y[..|y| - 1], h);
    }
  }

  lemma {:induction false} AllSinksAppend(x: seq<Command>, y: seq<Command>)
    ensures AllSinks(x + y) == AllSinks(x) + AllSinks(y)
    decreases |y|
  {
    if y == [] {
      assert x + y == x;
    } else {
      assert (x + y)[..|x + y| - 1] == x + y[..|y| - 1];
      AllSinksAppend(x, y[..|y| - 1]);
    }
  }

  /** The first kept source tells what the first command is. */
  lemma FirstSource(opts: seq<LogOption>, cs: seq<Command>, h: int)
    requires cs != [] && !(NoStdoutInput in opts && NoStderrInput in opts)
    ensures var kept := KeptSources(opts, AllSources(cs, h));
            kept != [] && (kept[0].name == MStdin <==> cs[0].Piped?)
  {
    assert cs == [cs[0]] + cs[1..];
    AllSourcesAppend([cs[0]], cs[1..], h);
    OneCommandEnds(cs[0], h);
    KeptSourcesAppend(opts, CommandSources(cs[0], h), AllSources(cs[1..], h));
    KeptSourcePair(opts, Source(PStdout, h), Source(PStderr, h));
    KeptSourcePair(opts, Source(MStdin, h), Source(MStdin, h));
  }

  lemma {:induction false} AllSinksKept(opts: seq<LogOption>, sinks: seq<End>)
    requires NoOutput !in opts && NoStdoutOutput !in opts && NoStderrOutput !in opts
    ensures KeptSinks(opts, sinks) == sinks
  {
    if sinks != [] {
      AllSinksKept(opts, sinks[..|sinks| - 1]);
    }
  }

  /** And so does the second sink, if there are two commands and no output is excluded. */
  lemma SecondSink(opts: seq<LogOption>, cs: seq<Command>)
    requires |cs| >= 2 && NoOutput !in opts && NoStdoutOutput !in opts && NoStderrOutput !in opts
    ensures var kept := KeptSinks(opts, AllSinks(cs));
            |kept| >= 2 && (kept[1] == MStdout <==> cs[0].Piped?)
  {
    AllSinksKept(opts, AllSinks(cs));
    assert cs == [cs[0]] + ([cs[1]] + cs[2..]);
    AllSinksAppend([cs[0]], [cs[1]] + cs[2..]);
    AllSinksAppend([cs[1]], cs[2..]);
    OneCommandEnds(cs[0], 0);
    OneCommandEnds(cs[1], 0);
  }

  /** Two different commands that do not fail, whose ends do not coincide. */
  lemma CommandsDisagree(hs: seq<int>, cs: seq<Command>, fs: seq<LogOption>, j: nat) returns (b: seq<LogOption>)
    requires Filters(fs) && !SomeFails(cs) && LastOr(hs) >= -1
    requires j < |cs| && cs[j].Piped? != cs[0].Piped?
    requires !EndsCoincide(Assemble(hs, cs, fs))
    ensures Disagrees(Assemble(hs, cs, fs), b)
  {
    var a, h, cs' := Assemble(hs, cs, fs), LastOr(hs), Swap(cs, 0, j);
    AssembleAmounts(hs, cs, fs);
    b := Variant(hs, cs, fs, if hs == [] then 0 else |hs| - 1, j);
    SwapFails(cs, j);
    SameMembers(a, b);
    if !(NoStdoutInput in a && NoStderrInput in a) {
      FirstSource(a, cs, h);
      FirstSource(b, cs', h);
    } else {
      SecondSink(a, cs);
      SecondSink(b, cs');
    }
  }

  lemma OtherCommand(hs: seq<int>, cs: seq<Command>, fs: seq<LogOption>) returns (j: nat)
    requires Filters(fs) && !SomeFails(cs) && !OneCommand(Assemble(hs, cs, fs))
    ensures j < |cs| && cs[j].Piped? != cs[0].Piped?
  {
    var a := Assemble(hs, cs, fs);
    var o, p :| o in a && p in a && o.WithCommand? && p.WithCommand? && o != p;
    AssembleMember(hs, cs, fs, o);
    AssembleMember(hs, cs, fs, p);
    assert o.command.Piped? != p.command.Piped?;
    assert o.command in cs;
    if o.command.Piped? != cs[0].Piped? {
      j :| 0 <= j < |cs| && cs[j] == o.command;
    } else {
      j :| 0 <= j < |cs| && cs[j] == p.command;
    }
  }

  lemma PartCommands(hs: seq<int>, cs: seq<Command>, fs: seq<LogOption>)
    requires Filters(fs)
    ensures var a := Assemble(hs, cs, fs);
            && (HasCommand(a) <==> cs != [])
            && (CommandsFail(a, false) <==> SomeFails(cs))
            && (CommandsFail(a, true) <==> forall cmd :: cmd in cs ==> Fails(cmd))
  {
    AssembleCommands(hs, cs, fs);
    CommandsAre(Assemble(hs, cs, fs));
  }

  lemma UnsettledHistories(hs: seq<int>, cs: seq<Command>, fs: seq<LogOption>) returns (i: nat)
    requires Filters(fs)
    requires var a := Assemble(hs, cs, fs); !NoHistoryFits(a) && !(HistoriesFit(a) && OneHistory(a))
    ensures i < |hs| && hs[i] != LastOr(hs) && (hs[i] >= -1 || LastOr(hs) >= -1)
  {
    var a := Assemble(hs, cs, fs);
    if !HistoriesFit(a) {
      i := BadHistory(hs, cs, fs);
      if LastOr(hs) < -1 {
        i := GoodHistory(hs, cs, fs);
      }
    } else {
      i := OtherHistory(hs, cs, fs);
      AssembleMember(hs, cs, fs, WithHistory(hs[i]));
      assert hs[i] in hs;
    }
  }

  lemma FittingLast(hs: seq<int>, cs: seq<Command>, fs: seq<LogOption>)
    requires Filters(fs) && HistoriesFit(Assemble(hs, cs, fs))
    ensures LastOr(hs) >= -1
  {
    if hs != [] {
      AssembleMember(hs, cs, fs, WithHistory(hs[|hs| - 1]));
      assert hs[|hs| - 1] in hs;
    }
  }

  lemma UnsettledDisagree(a: seq<LogOption>) returns (b: seq<LogOption>)
    requires Sorted(a) && !Settled(a)
    ensures Disagrees(a, b)
  {
    var hs, cs, fs := Decompose(a);
    PartCommands(hs, cs, fs);
    if cs == [] {
      var i := OtherHistory(hs, cs, fs);
      b := NoCommandDisagrees(hs, cs, fs, i);
    } else if SomeFails(cs) {
      var i := BadHistory(hs, cs, fs);
      var fails :| fails in cs && Fails(fails);
      var works :| works in cs && !Fails(works);
      var bad :| 0 <= bad < |cs| && cs[bad] == fails;
      var good :| 0 <= good < |cs| && cs[good] == works;
      b := SomeFailDisagrees(hs, cs, fs, i, bad, good);
    } else if HistoriesFit(a) && OneHistory(a) {
      FittingLast(hs, cs, fs);
      var j := OtherCommand(hs, cs, fs);
      b := CommandsDisagree(hs, cs, fs, j);
    } else {
      var i := UnsettledHistories(hs, cs, fs);
      b := HistoriesDisagree(hs, cs, fs, i);
    }
  }

  /** However the caller ordered its options and however the sort breaks ties, the outcome is the same
      if and only if the options are settled: without a command, there is one history; if some command
      fails, all histories are large enough for a queue or all commands fail; otherwise all histories
      are too small, or there is one, large enough, and one kind of command, or both inputs and some
      output are excluded. */
  lemma OrderDoesNotMatterIff(a: seq<LogOption>)
    requires Sorted(a)
    ensures Settled(a) <==> forall b :: Sorted(b) && multiset(b) == multiset(a) ==> ApplyAll(b) == ApplyAll(a)
  {
    if Settled(a) {
      forall b | Sorted(b) && multiset(b) == multiset(a)
        ensures ApplyAll(b) == ApplyAll(a)
      {
        SettledAgree(a, b);
      }
    } else {
      var b := UnsettledDisagree(a);
      assert Disagrees(a, b);
    }
  }

  /** In particular it is the same with at most one command and no two different histories. */
  lemma OrderDoesNotMatter(a: seq<LogOption>, b: seq<LogOption>)
    requires multiset(a) == multiset(b) && Sorted(a) && Sorted(b) && Unambiguous(a)
    ensures ApplyAll(a) == ApplyAll(b)
  {
    assert forall o :: o in a && o.WithHistory? ==> WithHistory(o.hist) in a;
    assert forall o :: o in a && o.WithCommand? ==> WithCommand(o.command) in a;
    SettledAgree(a, b);
  }
}
