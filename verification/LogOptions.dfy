/** Priority-ordered options of the log processor (pkg/monny/proc/logopt.go, and the sort-and-apply
    loop of pkg/monny/proc/logs.go). */
module LogOptions {

  datatype End = PStdout | PStderr | MStdin | MStdout | MStderr

  /** A source keeps a history queue of the given capacity. */
  datatype Source = Source(name: End, capacity: int)

  /** How the command's pipes turn out: no path means monny reads a pipe itself; otherwise each
      pipe may fail to open. */
  datatype Command = Piped | Wrapped(outOk: bool, errOk: bool)

  datatype LogOption =
    | WithHistory(hist: int)
    | WithCommand(command: Command)
    | NoStdoutOutput
    | NoStderrOutput
    | NoOutput
    | NoStdoutInput
    | NoStderrInput

  datatype Config = Config(hist: int, sources: seq<Source>, sinks: seq<End>)

  const DEFAULT := Config(30, [], [])

  function Priority(o: LogOption): nat {
    match o
    case WithHistory(_) => 0
    case WithCommand(_) => 1
    case NoStdoutOutput => 2
    case NoStderrOutput => 3
    case NoOutput => 4
    case NoStdoutInput => 5
    case NoStderrInput => 6
  }

  // ---------------------------------------------------------------- applying options

  function FilterSinks(sinks: seq<End>, target: End): seq<End> {
    if sinks == [] then []
    else
      var last := sinks[|sinks| - 1];
      FilterSinks(sinks[..|sinks| - 1], target) + if last == target then [] else [last]
  }

  function FilterSources(sources: seq<Source>, target: End): seq<Source> {
    if sources == [] then []
    else
      var last := sources[|sources| - 1];
      FilterSources(sources[..|sources| - 1], target) + if last.name == target then [] else [last]
  }

  function CommandSources(c: Command, hist: int): seq<Source> {
    if c.Piped? then [Source(MStdin, hist)] else [Source(PStdout, hist), Source(PStderr, hist)]
  }

  function CommandSinks(c: Command): seq<End> {
    if c.Piped? then [MStdout] else [MStdout, MStderr]
  }

  predicate Fails(c: Command) {
    c.Wrapped? && !(c.outOk && c.errOk)
  }

  /** Failed is the error that aborts the constructor; Panicked is the allocation of a queue whose
      capacity plus one is negative. */
  datatype Outcome = Built(config: Config) | Failed | Panicked

  function ApplyOption(c: Config, o: LogOption): Outcome {
    match o
    case WithHistory(h) => Built(c.(hist := h))
    case WithCommand(cmd) =>
      if Fails(cmd) then Failed
      else if c.hist < -1 then Panicked
      else Built(c.(sources := c.sources + CommandSources(cmd, c.hist), sinks := c.sinks + CommandSinks(cmd)))
    case NoStdoutOutput => Built(c.(sinks := FilterSinks(c.sinks, MStdout)))
    case NoStderrOutput => Built(c.(sinks := FilterSinks(c.sinks, MStderr)))
    case NoOutput => Built(c.(sinks := []))
    case NoStdoutInput => Built(c.(sources := FilterSources(c.sources, PStdout)))
    case NoStderrInput => Built(c.(sources := FilterSources(c.sources, PStderr)))
  }

  function ApplyAll(opts: seq<LogOption>): Outcome {
    if opts == [] then Built(DEFAULT)
    else
      var before := ApplyAll(opts[..|opts| - 1]);
      if before.Built? then ApplyOption(before.config, opts[|opts| - 1]) else before
  }

  predicate Sorted(opts: seq<LogOption>) {
    forall i, j :: 0 <= i < j < |opts| ==> Priority(opts[i]) <= Priority(opts[j])
  }

  /** At most one command, and no two different histories. */
  ghost predicate Unambiguous(opts: seq<LogOption>) {
    && (forall h, h' :: WithHistory(h) in opts && WithHistory(h') in opts ==> h == h')
    && (forall c, c' :: WithCommand(c) in opts && WithCommand(c') in opts ==> c == c')
    && (forall c :: multiset(opts)[WithCommand(c)] <= 1)
  }

  // ---------------------------------------------------------------- reference configuration

  predicate KeepsSource(opts: seq<LogOption>, s: Source) {
    !(s.name == PStdout && NoStdoutInput in opts) && !(s.name == PStderr && NoStderrInput in opts)
  }

  predicate KeepsSink(opts: seq<LogOption>, s: End) {
    && NoOutput !in opts
    && !(s == MStdout && NoStdoutOutput in opts) && !(s == MStderr && NoStderrOutput in opts)
  }

  function KeptSources(opts: seq<LogOption>, sources: seq<Source>): seq<Source> {
    if sources == [] then []
    else
      var last := sources[|sources| - 1];
      KeptSources(opts, sources[..|sources| - 1]) + if KeepsSource(opts, last) then [last] else []
  }

  function KeptSinks(opts: seq<LogOption>, sinks: seq<End>): seq<End> {
    if sinks == [] then []
    else
      var last := sinks[|sinks| - 1];
      KeptSinks(opts, sinks[..|sinks| - 1]) + if KeepsSink(opts, last) then [last] else []
  }

  /** The configuration a list of options asks for, read off its members whatever their order: the
      given history or the default, and the command's sources and sinks that no option excludes. */
  ghost predicate Wanted(opts: seq<LogOption>, c: Config) {
    && (forall h :: WithHistory(h) in opts ==> c.hist == h)
    && ((forall h :: WithHistory(h) !in opts) ==> c.hist == 30)
    && ((forall cmd :: WithCommand(cmd) !in opts) ==> c.sources == [] && c.sinks == [])
    && (forall cmd :: WithCommand(cmd) in opts ==>
          && c.sources == KeptSources(opts, CommandSources(cmd, c.hist))
          && c.sinks == KeptSinks(opts, CommandSinks(cmd)))
  }

  /** The history in force after all options: the last one given, or the default. */
  function FinalHist(opts: seq<LogOption>): int {
    if opts == [] then DEFAULT.hist
    else
      var o := opts[|opts| - 1];
      if o.WithHistory? then o.hist else FinalHist(opts[..|opts| - 1])
  }

  function Commands(opts: seq<LogOption>): seq<Command> {
    if opts == [] then []
    else
      var o := opts[|opts| - 1];
      Commands(opts[..|opts| - 1]) + if o.WithCommand? then [o.command] else []
  }

  function AllSources(cs: seq<Command>, hist: int): seq<Source> {
    if cs == [] then [] else AllSources(cs[..|cs| - 1], hist) + CommandSources(cs[|cs| - 1], hist)
  }

  function AllSinks(cs: seq<Command>): seq<End> {
    if cs == [] then [] else AllSinks(cs[..|cs| - 1]) + CommandSinks(cs[|cs| - 1])
  }

  predicate SomeFails(cs: seq<Command>) {
    exists cmd :: cmd in cs && Fails(cmd)
  }

  /** What a history, a list of commands and the filters among the options amount to. */
  function Amounts(hist: int, cs: seq<Command>, opts: seq<LogOption>): Outcome {
    if cs == [] then Built(Config(hist, [], []))
    else if hist < -1 then if Fails(cs[0]) then Failed else Panicked
    else if SomeFails(cs) then Failed
    else Built(Config(hist, KeptSources(opts, AllSources(cs, hist)), KeptSinks(opts, AllSinks(cs))))
  }

  // ---------------------------------------------------------------- sorted application

  lemma {:induction false} FilterKeptSinks(opts: seq<LogOption>, opts': seq<LogOption>, target: End, sinks: seq<End>)
    requires forall s :: KeepsSink(opts', s) <==> KeepsSink(opts, s) && s != target
    ensures KeptSinks(opts', sinks) == FilterSinks(KeptSinks(opts, sinks), target)
  {
    if sinks != [] {
      var n := |sinks| - 1;
      FilterKeptSinks(opts, opts', target, sinks[..n]);
      var front, last := KeptSinks(opts, sinks[..n]), sinks[n];
      assert (front + [last])[..|front + [last]| - 1] == front;
      assert KeptSinks(opts, sinks) == if KeepsSink(opts, last) then front + [last] else front;
      assert FilterSinks(front + [last], target) == FilterSinks(front, target) + if last == target then [] else [last];
    }
  }

  lemma {:induction false} FilterKeptSources(
      opts: seq<LogOption>, opts': seq<LogOption>, target: End, sources: seq<Source>)
    requires forall s :: KeepsSource(opts', s) <==> KeepsSource(opts, s) && s.name != target
    ensures KeptSources(opts', sources) == FilterSources(KeptSources(opts, sources), target)
  {
    if sources != [] {
      var n := |sources| - 1;
      FilterKeptSources(opts, opts', target, sources[..n]);
      var front, last := KeptSources(opts, sources[..n]), sources[n];
      assert (front + [last])[..|front + [last]| - 1] == front;
      assert KeptSources(opts, sources) == if KeepsSource(opts, last) then front + [last] else front;
      assert FilterSources(front + [last], target) ==
             FilterSources(front, target) + if last.name == target then [] else [last];
    }
  }

  lemma {:induction false} KeptNone(opts: seq<LogOption>, sinks: seq<End>)
    requires NoOutput in opts
    ensures KeptSinks(opts, sinks) == []
  {
    if sinks != [] {
      KeptNone(opts, sinks[..|sinks| - 1]);
    }
  }

  /** Options about other ends leave the kept ones alone. */
  lemma {:induction false} KeptSameSinks(opts: seq<LogOption>, opts': seq<LogOption>, sinks: seq<End>)
    requires forall s :: KeepsSink(opts, s) == KeepsSink(opts', s)
    ensures KeptSinks(opts, sinks) == KeptSinks(opts', sinks)
  {
    if sinks != [] {
      KeptSameSinks(opts, opts', sinks[..|sinks| - 1]);
    }
  }

  lemma {:induction false} KeptSameSources(opts: seq<LogOption>, opts': seq<LogOption>, sources: seq<Source>)
    requires forall s :: KeepsSource(opts, s) == KeepsSource(opts', s)
    ensures KeptSources(opts, sources) == KeptSources(opts', sources)
  {
    if sources != [] {
      KeptSameSources(opts, opts', sources[..|sources| - 1]);
    }
  }

  lemma {:induction false} KeptAllSinks(opts: seq<LogOption>, sinks: seq<End>)
    requires forall o :: o in opts ==> Priority(o) <= 1
    ensures KeptSinks(opts, sinks) == sinks
  {
    if sinks != [] {
      KeptAllSinks(opts, sinks[..|sinks| - 1]);
    }
  }

  lemma {:induction false} KeptAllSources(opts: seq<LogOption>, sources: seq<Source>)
    requires forall o :: o in opts ==> Priority(o) <= 1
    ensures KeptSources(opts, sources) == sources
  {
    if sources != [] {
      KeptAllSources(opts, sources[..|sources| - 1]);
    }
  }

  lemma SnocMembers(front: seq<LogOption>, o: LogOption)
    ensures forall p :: p in front + [o] <==> p in front || p == o
    ensures Sorted(front + [o]) ==> Sorted(front) && forall p :: p in front ==> Priority(p) <= Priority(o)
  {
    var opts := front + [o];
    if Sorted(opts) {
      forall p | p in front
        ensures Priority(p) <= Priority(o)
      {
        var i :| 0 <= i < |front| && front[i] == p;
        assert opts[i] == p && opts[|front|] == o;
      }
      assert forall i :: 0 <= i < |front| ==> opts[i] == front[i];
    }
  }

  /** One more filtering option excludes its own end and nothing else. */
  lemma FilterKeeps(front: seq<LogOption>, o: LogOption)
    requires Priority(o) >= 2
    ensures forall s :: KeepsSink(front + [o], s) <==>
                          KeepsSink(front, s) && o != NoOutput
                          && !(o == NoStdoutOutput && s == MStdout) && !(o == NoStderrOutput && s == MStderr)
    ensures forall s :: KeepsSource(front + [o], s) <==>
                          KeepsSource(front, s)
                          && !(o == NoStdoutInput && s.name == PStdout) && !(o == NoStderrInput && s.name == PStderr)
    ensures o in front + [o]
  {
    SnocMembers(front, o);
  }

  lemma FilterStepSinks(front: seq<LogOption>, c: Config, o: LogOption, sinks: seq<End>)
    requires Priority(o) >= 2 && c.sinks == KeptSinks(front, sinks)
    ensures ApplyOption(c, o).config.sinks == KeptSinks(front + [o], sinks)
  {
    var opts := front + [o];
    FilterKeeps(front, o);
    if o == NoStdoutOutput {
      FilterKeptSinks(front, opts, MStdout, sinks);
    } else if o == NoStderrOutput {
      FilterKeptSinks(front, opts, MStderr, sinks);
    } else if o == NoOutput {
      KeptNone(opts, sinks);
    } else {
      KeptSameSinks(front, opts, sinks);
    }
  }

  lemma FilterStepSources(front: seq<LogOption>, c: Config, o: LogOption, sources: seq<Source>)
    requires Priority(o) >= 2 && c.sources == KeptSources(front, sources)
    ensures ApplyOption(c, o).config.sources == KeptSources(front + [o], sources)
  {
    var opts := front + [o];
    FilterKeeps(front, o);
    if o == NoStdoutInput {
      FilterKeptSources(front, opts, PStdout, sources);
    } else if o == NoStderrInput {
      FilterKeptSources(front, opts, PStderr, sources);
    } else {
      KeptSameSources(front, opts, sources);
    }
  }

  lemma {:induction false} CommandsMember(opts: seq<LogOption>, cmd: Command)
    ensures multiset(Commands(opts))[cmd] == multiset(opts)[WithCommand(cmd)]
    ensures cmd in Commands(opts) <==> WithCommand(cmd) in opts
  {
    if opts != [] {
      var front, o := opts[..|opts| - 1], opts[|opts| - 1];
      assert opts == front + [o];
      CommandsMember(front, cmd);
      assert multiset(opts) == multiset(front) + multiset{o};
    }
  }

  lemma CommandStep(front: seq<LogOption>, cmd: Command)
    requires forall p :: p in front ==> Priority(p) <= 1
    requires ApplyAll(front) == Amounts(FinalHist(front), Commands(front), front)
    ensures var opts := front + [WithCommand(cmd)];
            ApplyAll(opts) == Amounts(FinalHist(opts), Commands(opts), opts)
  {
    var opts, cs, h := front + [WithCommand(cmd)], Commands(front), FinalHist(front);
    var cs' := cs + [cmd];
    assert opts[..|front|] == front && Commands(opts) == cs' && FinalHist(opts) == h;
    assert SomeFails(cs') <==> SomeFails(cs) || Fails(cmd) by {
      assert forall x :: x in cs' <==> x in cs || x == cmd;
    }
    assert cs'[..|cs|] == cs;
    SnocMembers(front, WithCommand(cmd));
    KeptAllSources(front, AllSources(cs, h));
    KeptAllSinks(front, AllSinks(cs));
    KeptAllSources(opts, AllSources(cs', h));
    KeptAllSinks(opts, AllSinks(cs'));
    if cs == [] {
      assert AllSources(cs, h) == [] && AllSinks(cs) == [];
    }
  }

  lemma FilterStep(front: seq<LogOption>, o: LogOption)
    requires Priority(o) >= 2
    requires ApplyAll(front) == Amounts(FinalHist(front), Commands(front), front)
    ensures var opts := front + [o];
            ApplyAll(opts) == Amounts(FinalHist(opts), Commands(opts), opts)
  {
    var opts, cs, h := front + [o], Commands(front), FinalHist(front);
    assert opts[..|front|] == front && Commands(opts) == cs && FinalHist(opts) == h;
    var before := ApplyAll(front);
    if before.Built? {
      if cs != [] {
        FilterStepSources(front, before.config, o, AllSources(cs, h));
        FilterStepSinks(front, before.config, o, AllSinks(cs));
      } else {
        FilterStepSources(front, before.config, o, []);
        FilterStepSinks(front, before.config, o, []);
      }
    }
  }

  lemma HistoryStep(front: seq<LogOption>, h: int)
    requires forall p :: p in front ==> p.WithHistory?
    requires ApplyAll(front) == Amounts(FinalHist(front), Commands(front), front)
    ensures var opts := front + [WithHistory(h)];
            ApplyAll(opts) == Amounts(FinalHist(opts), Commands(opts), opts)
  {
    var opts := front + [WithHistory(h)];
    assert opts[..|front|] == front;
    if Commands(front) != [] {
      CommandsMember(front, Commands(front)[0]);
    }
  }

  lemma SortedSnoc(front: seq<LogOption>, o: LogOption)
    requires Sorted(front + [o]) && ApplyAll(front) == Amounts(FinalHist(front), Commands(front), front)
    ensures var opts := front + [o]; ApplyAll(opts) == Amounts(FinalHist(opts), Commands(opts), opts)
  {
    SnocMembers(front, o);
    if o.WithHistory? {
      assert forall p :: p in front ==> Priority(p) <= 0;
      HistoryStep(front, o.hist);
    } else if o.WithCommand? {
      CommandStep(front, o.command);
    } else {
      FilterStep(front, o);
    }
  }

  /** Options applied in priority order, however many histories and commands there are: the last history
      holds, the first command decides when it is too small, any failing command otherwise, and else
      every command contributes the ends that no filter excludes. */
  lemma {:induction false} SortedAmounts(opts: seq<LogOption>)
    requires Sorted(opts)
    ensures ApplyAll(opts) == Amounts(FinalHist(opts), Commands(opts), opts)
  {
    if opts != [] {
      var front, o := opts[..|opts| - 1], opts[|opts| - 1];
      SortedAmounts(front);
      assert opts == front + [o];
      SortedSnoc(front, o);
    }
  }

  lemma {:induction false} FinalHistMember(opts: seq<LogOption>)
    ensures (forall h :: WithHistory(h) !in opts) ==> FinalHist(opts) == DEFAULT.hist
    ensures (exists h :: WithHistory(h) in opts) ==> WithHistory(FinalHist(opts)) in opts
  {
    if opts != [] {
      var front, o := opts[..|opts| - 1], opts[|opts| - 1];
      assert opts == front + [o];
      FinalHistMember(front);
      assert forall p :: p in opts <==> p in front || p == o;
    }
  }

  lemma OneCommandAtMost(opts: seq<LogOption>)
    requires Unambiguous(opts)
    ensures |Commands(opts)| <= 1
  {
    var cs := Commands(opts);
    forall cmd
      ensures cmd in cs <==> WithCommand(cmd) in opts
      ensures multiset(cs)[cmd] <= 1
    {
      CommandsMember(opts, cmd);
    }
    if |cs| >= 2 {
      FirstTwice(cs);
    }
  }

  lemma FirstTwice(cs: seq<Command>)
    requires |cs| >= 2
    ensures cs[0] in cs && cs[1] in cs && (cs[0] == cs[1] ==> multiset(cs)[cs[0]] >= 2)
  {
    assert cs == [cs[0]] + ([cs[1]] + cs[2..]);
    assert multiset(cs) == multiset{cs[0]} + (multiset{cs[1]} + multiset(cs[2..]));
  }

  lemma OneCommandEnds(cmd: Command, h: int)
    ensures AllSources([cmd], h) == CommandSources(cmd, h) && AllSinks([cmd]) == CommandSinks(cmd)
  {
    assert [cmd][..0] == [];
    assert AllSources([], h) == [] && AllSinks([]) == [];
  }

  lemma WantedOfCommand(opts: seq<LogOption>, cmd: Command, c: Config)
    requires Commands(opts) == [cmd]
    requires c.sources == KeptSources(opts, AllSources([cmd], c.hist)) && c.sinks == KeptSinks(opts, AllSinks([cmd]))
    ensures forall d :: WithCommand(d) in opts ==>
              c.sources == KeptSources(opts, CommandSources(d, c.hist)) && c.sinks == KeptSinks(opts, CommandSinks(d))
    ensures WithCommand(cmd) in opts
  {
    OneCommandEnds(cmd, c.hist);
    CommandsMember(opts, cmd);
    forall d | WithCommand(d) in opts
      ensures d == cmd
    {
      CommandsMember(opts, d);
    }
  }

  /** Unambiguous options applied in priority order give the configuration they ask for. */
  lemma SortedGivesWanted(opts: seq<LogOption>)
    requires Sorted(opts) && Unambiguous(opts) && ApplyAll(opts).Built?
    ensures Wanted(opts, ApplyAll(opts).config)
  {
    SortedAmounts(opts);
    FinalHistMember(opts);
    OneCommandAtMost(opts);
    var cs, c := Commands(opts), ApplyAll(opts).config;
    if cs == [] {
      forall cmd
        ensures WithCommand(cmd) !in opts
      {
        CommandsMember(opts, cmd);
      }
    } else {
      assert cs == [cs[0]];
      WantedOfCommand(opts, cs[0], c);
    }
  }

  /** The constructor returns an error exactly when some command's pipes fail, unless a history below -1
      makes the first command's queue panic before the failing one is reached. */
  lemma FailsIff(opts: seq<LogOption>)
    requires Sorted(opts)
    ensures ApplyAll(opts) == Failed <==>
              && (exists cmd: Command :: WithCommand(cmd) in opts && cmd.Wrapped? && !(cmd.outOk && cmd.errOk))
              && (FinalHist(opts) < -1 ==> Commands(opts) != [] && Fails(Commands(opts)[0]))
    ensures ApplyAll(opts) == Panicked <==>
              Commands(opts) != [] && FinalHist(opts) < -1 && !Fails(Commands(opts)[0])
  {
    var cs := Commands(opts);
    SortedAmounts(opts);
    forall cmd
      ensures cmd in cs <==> WithCommand(cmd) in opts
    {
      CommandsMember(opts, cmd);
    }
  }

  lemma WantedSameMembers(a: seq<LogOption>, b: seq<LogOption>, c: Config)
    requires multiset(a) == multiset(b) && Wanted(a, c)
    ensures Wanted(b, c)
  {
    assert forall o :: o in a <==> o in multiset(a);
    assert forall o :: o in b <==> o in multiset(b);
    forall cmd | WithCommand(cmd) in b
      ensures c.sources == KeptSources(b, CommandSources(cmd, c.hist)) && c.sinks == KeptSinks(b, CommandSinks(cmd))
    {
      KeptSameSinks(a, b, CommandSinks(cmd));
      KeptSameSources(a, b, CommandSources(cmd, c.hist));
    }
  }

  // ---------------------------------------------------------------- wiring sources to sinks

  /** A goroutine that reads one source and writes to its sinks. */
  datatype Emitter = Emitter(source: Source, sinks: seq<End>)

  /** The process's own output streams are kept apart; anything else goes to every sink. */
  function SinksFor(c: Config, s: Source): seq<End> {
    match s.name
    case PStdout => FilterSinks(c.sinks, MStderr)
    case PStderr => FilterSinks(c.sinks, MStdout)
    case _ => c.sinks
  }

  function Emitters(c: Config): (es: seq<Emitter>)
    ensures |es| == |c.sources|
    ensures forall i :: 0 <= i < |es| ==> es[i] == Emitter(c.sources[i], SinksFor(c, c.sources[i]))
  {
    seq(|c.sources|, i requires 0 <= i < |c.sources| => Emitter(c.sources[i], SinksFor(c, c.sources[i])))
  }

  lemma KeptPair(opts: seq<LogOption>, x: End, y: End)
    ensures KeptSinks(opts, [x, y]) == (if KeepsSink(opts, x) then [x] else []) + if KeepsSink(opts, y) then [y] else []
    ensures KeptSinks(opts, [x]) == if KeepsSink(opts, x) then [x] else []
  {
    assert [x, y][..1] == [x] && [x][..0] == [];
    assert KeptSinks(opts, []) == [];
  }

  lemma FilterPair(x: End, y: End, target: End)
    ensures FilterSinks([x, y], target) == (if x == target then [] else [x]) + if y == target then [] else [y]
    ensures FilterSinks([x], target) == if x == target then [] else [x]
    ensures FilterSinks([], target) == []
  {
    assert [x, y][..1] == [x] && [x][..0] == [];
    assert FilterSinks([x], target) == FilterSinks([], target) + if x == target then [] else [x];
  }

  lemma {:induction false} KeptMember(opts: seq<LogOption>, sources: seq<Source>, s: Source)
    ensures s in KeptSources(opts, sources) <==> s in sources && KeepsSource(opts, s)
  {
    if sources != [] {
      KeptMember(opts, sources[..|sources| - 1], s);
    }
  }

  lemma FilterKept(sinks: seq<End>, stdout: bool, stderr: bool)
    requires sinks == (if stdout then [MStdout] else []) + if stderr then [MStderr] else []
    ensures FilterSinks(sinks, MStderr) == if stdout then [MStdout] else []
    ensures FilterSinks(sinks, MStdout) == if stderr then [MStderr] else []
  {
    if stdout && stderr {
      assert sinks == [MStdout, MStderr];
      FilterPair(MStdout, MStderr, MStderr);
      FilterPair(MStdout, MStderr, MStdout);
    } else if stdout {
      assert sinks == [MStdout];
      FilterPair(MStdout, MStdout, MStderr);
      FilterPair(MStdout, MStdout, MStdout);
    } else if stderr {
      assert sinks == [MStderr];
      FilterPair(MStderr, MStderr, MStderr);
      FilterPair(MStderr, MStderr, MStdout);
    }
  }

  function SinkOf(s: Source): End {
    if s.name == PStderr then MStderr else MStdout
  }

  lemma SinksOfPair(c: Config, s: Source, stdout: bool, stderr: bool)
    requires c.sinks == (if stdout then [MStdout] else []) + if stderr then [MStderr] else []
    requires s.name in {PStdout, PStderr}
    ensures SinksFor(c, s) == if (if s.name == PStderr then stderr else stdout) then [SinkOf(s)] else []
  {
    FilterKept(c.sinks, stdout, stderr);
  }

  lemma SinksOfCommand(opts: seq<LogOption>, cmd: Command, c: Config, s: Source)
    requires c.sinks == KeptSinks(opts, CommandSinks(cmd))
    requires s.name in if cmd.Piped? then {MStdin} else {PStdout, PStderr}
    ensures SinksFor(c, s) == if KeepsSink(opts, SinkOf(s)) then [SinkOf(s)] else []
  {
    KeptPair(opts, MStdout, MStderr);
    if !cmd.Piped? {
      SinksOfPair(c, s, KeepsSink(opts, MStdout), KeepsSink(opts, MStderr));
    }
  }

  lemma SourcesAre(cmd: Command, hist: int, s: Source)
    ensures s in CommandSources(cmd, hist) <==>
              s.name in (if cmd.Piped? then {MStdin} else {PStdout, PStderr}) && s.capacity == hist
  {
    assert s == Source(s.name, s.capacity);
    if s.name == PStderr {
      assert !cmd.Piped? ==> CommandSources(cmd, hist)[1] == Source(PStderr, hist);
    } else {
      assert CommandSources(cmd, hist)[0] == Source(if cmd.Piped? then MStdin else PStdout, hist);
    }
  }

  /** Exactly the streams of the command that no option excludes are read, and each stream of a wrapped
      process is copied to monny's stream of the same name and to no other, a piped process to standard
      output, unless an option excludes that stream or all output. */
  lemma StreamsStayApart(opts: seq<LogOption>, cmd: Command, s: Source, sinks: seq<End>)
    requires Sorted(opts) && Unambiguous(opts) && WithCommand(cmd) in opts && ApplyAll(opts).Built?
    ensures var c := ApplyAll(opts).config;
            Emitter(s, sinks) in Emitters(c) <==>
              && s.name in (if cmd.Piped? then {MStdin} else {PStdout, PStderr})
              && s.capacity == c.hist && KeepsSource(opts, s)
              && sinks == if KeepsSink(opts, SinkOf(s)) then [SinkOf(s)] else []
  {
    var c := ApplyAll(opts).config;
    SortedGivesWanted(opts);
    KeptMember(opts, CommandSources(cmd, c.hist), s);
    SourcesAre(cmd, c.hist, s);
    if s in c.sources {
      var i :| 0 <= i < |c.sources| && c.sources[i] == s;
      assert Emitters(c)[i] == Emitter(s, SinksFor(c, s));
      SinksOfCommand(opts, cmd, c, s);
    }
  }

  // ---------------------------------------------------------------- the constructor's loops

  method FilterSinkLoop(sinks: seq<End>, target: End) returns (r: seq<End>)
    ensures r == FilterSinks(sinks, target)
  {
    r := [];
    for i := 0 to |sinks|
      invariant r == FilterSinks(sinks[..i], target)
    {
      assert sinks[..i + 1][..i] == sinks[..i];
      if sinks[i] != target {
        r := r + [sinks[i]];
      }
    }
    assert sinks[..|sinks|] == sinks;
  }

  method FilterSourceLoop(sources: seq<Source>, target: End) returns (r: seq<Source>)
    ensures r == FilterSources(sources, target)
  {
    r := [];
    for i := 0 to |sources|
      invariant r == FilterSources(sources[..i], target)
    {
      assert sources[..i + 1][..i] == sources[..i];
      if sources[i].name != target {
        r := r + [sources[i]];
      }
    }
    assert sources[..|sources|] == sources;
  }

  /** The state the options mutate. */
  class Builder {
    var hist: int
    var sources: seq<Source>
    var sinks: seq<End>

    function Abs(): Config
      reads this
    {
      Config(hist, sources, sinks)
    }

    constructor ()
      ensures Abs() == DEFAULT
    {
      hist := 30;
      sources := [];
      sinks := [];
    }

    /** Built means that the option was applied. */
    method Apply(o: LogOption) returns (r: Outcome)
      modifies this
      ensures r == ApplyOption(old(Abs()), o)
      ensures r.Built? ==> Abs() == r.config
    {
      match o {
        case WithHistory(h) => hist := h;
        case WithCommand(cmd) =>
          if cmd.Wrapped? && (!cmd.outOk || !cmd.errOk) {
            return Failed;
          }
          if hist + 1 < 0 {
            return Panicked;
          }
          sources := sources + CommandSources(cmd, hist);
          sinks := sinks + CommandSinks(cmd);
        case NoStdoutOutput => sinks := FilterSinkLoop(sinks, MStdout);
        case NoStderrOutput => sinks := FilterSinkLoop(sinks, MStderr);
        case NoOutput => sinks := [];
        case NoStdoutInput => sources := FilterSourceLoop(sources, PStdout);
        case NoStderrInput => sources := FilterSourceLoop(sources, PStderr);
      }
      r := Built(Abs());
    }
  }

  /** `sorted` is what the unstable sort made of the caller's options.  Gives the outcome and the
      goroutines that are started when it is a configuration. */
  method NewLogProcessor(options: seq<LogOption>, sorted: seq<LogOption>)
    returns (r: Outcome, emitters: seq<Emitter>)
    requires multiset(sorted) == multiset(options) && Sorted(sorted)
    ensures r == ApplyAll(sorted)
    ensures Unambiguous(options) && r.Built? ==> Wanted(options, r.config)
    ensures emitters == if r.Built? then Emitters(r.config) else []
  {
    var builder := new Builder();
    emitters := [];
    r := Built(builder.Abs());
    for i := 0 to |sorted|
      invariant fresh(builder) && emitters == []
      invariant r == ApplyAll(sorted[..i]) && (r.Built? ==> r.config == builder.Abs())
    {
      assert sorted[..i + 1][..i] == sorted[..i];
      if r.Built? {
        r := builder.Apply(sorted[i]);
      }
    }
    assert sorted[..|sorted|] == sorted;
    if Unambiguous(options) {
      SameUnambiguous(options, sorted);
    }
    if r.Built? {
      if Unambiguous(options) {
        SortedGivesWanted(sorted);
        WantedSameMembers(sorted, options, r.config);
      }
      emitters := StartEmitters(r.config);
    }
  }

  lemma SameUnambiguous(a: seq<LogOption>, b: seq<LogOption>)
    requires multiset(a) == multiset(b) && Unambiguous(a)
    ensures Unambiguous(b)
  {
    assert forall o :: o in a <==> o in multiset(a);
    assert forall o :: o in b <==> o in multiset(b);
  }

  method StartEmitters(c: Config) returns (es: seq<Emitter>)
    ensures es == Emitters(c)
  {
    es := [];
    for i := 0 to |c.sources|
      invariant |es| == i && forall j :: 0 <= j < i ==> es[j] == Emitters(c)[j]
    {
      var sinks := c.sinks;
      if c.sources[i].name == PStdout {
        sinks := FilterSinkLoop(c.sinks, MStderr);
      } else if c.sources[i].name == PStderr {
        sinks := FilterSinkLoop(c.sinks, MStdout);
      }
      es := es + [Emitter(c.sources[i], sinks)];
    }
  }
}
