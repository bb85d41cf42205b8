/** The recompiler's passes in sequence: functions, graphs, file. */
module Pipeline {
  import opened Options
  import opened Mips
  import opened Executable
  import opened ControlFlow
  import opened CodeGenerator
  import opened Names
  import opened Layout
  import opened FunctionAnalysis
  import opened ClosedProgram
  import opened Recompiler
  import opened Seqs

  /** Graphs stored under the start addresses of their functions. */
  function Collect(functions: seq<Func>, graphs: seq<Graph>, n: nat): map<Word, Graph>
    requires n <= |functions| == |graphs|
  {
    if n == 0 then map[] else Collect(functions, graphs, n - 1)[functions[n - 1].start := graphs[n - 1]]
  }

  function GraphList(exe: Exe, functions: seq<Func>): seq<Graph>
    requires exe.Valid()
  {
    seq(|functions|, i requires 0 <= i < |functions| => GraphOf(exe, functions[i]))
  }

  function GraphsOf(exe: Exe, functions: seq<Func>): map<Word, Graph>
    requires exe.Valid()
  {
    Collect(functions, GraphList(exe, functions), |functions|)
  }

  method AnalyzeAllFunctions(exe: Exe, functions: seq<Func>) returns (cfgs: map<Word, Graph>)
    requires exe.Valid()
    ensures cfgs == GraphsOf(exe, functions)
  {
    cfgs := map[];
    ghost var graphs := GraphList(exe, functions);
    for i := 0 to |functions|
      invariant cfgs == Collect(functions, graphs, i)
    {
      var g := AnalyzeFunction(exe, functions[i]);
      cfgs := cfgs[functions[i].start := g];
    }
  }

  predicate Apart(functions: seq<Func>, i: nat, j: nat)
    requires i < |functions| && j < |functions|
  {
    functions[i].start != functions[j].start
  }

  lemma {:induction false} CollectAt(functions: seq<Func>, graphs: seq<Graph>, n: nat, i: nat)
    requires i < n <= |functions| == |graphs|
    requires forall j: nat {:trigger Apart(functions, i, j)} | i < j < |functions| :: Apart(functions, i, j)
    ensures functions[i].start in Collect(functions, graphs, n)
    ensures Collect(functions, graphs, n)[functions[i].start] == graphs[i]
  {
    if i < n - 1 {
      assert Apart(functions, i, n - 1);
      CollectAt(functions, graphs, n - 1, i);
    }
  }

  lemma {:induction false} CollectOrdered(functions: seq<Func>, graphs: seq<Graph>, n: nat)
    requires n <= |functions| == |graphs| && forall g | g in graphs :: Ordered(g)
    ensures AllOrdered(Collect(functions, graphs, n))
  {
    if n > 0 {
      CollectOrdered(functions, graphs, n - 1);
      assert graphs[n - 1] in graphs;
    }
  }

  lemma GraphOrdered(exe: Exe, f: Func)
    requires exe.Valid()
    ensures Ordered(GraphOf(exe, f))
  {
    GraphKeys(exe, f);
  }

  lemma GraphsOrdered(exe: Exe, functions: seq<Func>)
    requires exe.Valid()
    ensures AllOrdered(GraphsOf(exe, functions))
  {
    var graphs := GraphList(exe, functions);
    forall g | g in graphs ensures Ordered(g) {
      var i: nat :| i < |functions| && graphs[i] == g;
      GraphOrdered(exe, functions[i]);
    }
    CollectOrdered(functions, graphs, |functions|);
  }

  predicate Fits(exe: Exe, functions: seq<Func>, cfgs: map<Word, Graph>, i: nat)
    requires exe.Valid() && i < |functions|
  {
    var f := functions[i];
    f.name == NameOf(f.start) && Placed(exe, f) && f.start in cfgs && cfgs[f.start] == GraphOf(exe, f)
  }

  lemma FitTogether(exe: Exe, functions: seq<Func>, cfgs: map<Word, Graph>)
    requires exe.Valid() && AllOrdered(cfgs)
    requires forall i: nat {:trigger Fits(exe, functions, cfgs, i)} | i < |functions| :: Fits(exe, functions, cfgs, i)
    ensures Analysed(exe, functions, cfgs)
  {
    forall f | f in functions
      ensures f.name == NameOf(f.start) && Placed(exe, f) && f.start in cfgs && cfgs[f.start] == GraphOf(exe, f)
    {
      var i: nat :| i < |functions| && functions[i] == f;
      assert Fits(exe, functions, cfgs, i);
    }
  }

  /** What the passes hand to the generator is what ClosedProgram needs. */
  lemma PassesFit(exe: Exe, forced: seq<Word>)
    requires Aligned(exe) && ForcedOk(exe, forced) && !EndsInTwoReturns(exe)
    ensures var functions := FunctionsOf(exe, forced);
            Analysed(exe, functions, GraphsOf(exe, functions))
  {
    var functions := FunctionsOf(exe, forced);
    var cfgs := GraphsOf(exe, functions);
    GraphsOrdered(exe, functions);
    forall i: nat | i < |functions| ensures Fits(exe, functions, cfgs, i) {
      IsPlaced(exe, forced, i);
      StoredGraph(exe, forced, i);
    }
    FitTogether(exe, functions, cfgs);
  }

  lemma StoredGraph(exe: Exe, forced: seq<Word>, i: nat)
    requires exe.Valid() && i < |FunctionsOf(exe, forced)|
    ensures var functions := FunctionsOf(exe, forced);
            var f := functions[i];
            && f.name == NameOf(f.start)
            && f.start in GraphsOf(exe, functions) && GraphsOf(exe, functions)[f.start] == GraphOf(exe, f)
  {
    NamedByStart(exe, forced, i);
    StartsApart(exe, forced, i);
    StoredAt(exe, FunctionsOf(exe, forced), i);
  }

  lemma NamedByStart(exe: Exe, forced: seq<Word>, i: nat)
    requires exe.Valid() && i < |FunctionsOf(exe, forced)|
    ensures FunctionsOf(exe, forced)[i].name == NameOf(FunctionsOf(exe, forced)[i].start)
  {
  }

  lemma StoredAt(exe: Exe, functions: seq<Func>, i: nat)
    requires exe.Valid() && i < |functions|
    requires forall j: nat {:trigger Apart(functions, i, j)} | i < j < |functions| :: Apart(functions, i, j)
    ensures var f := functions[i];
            f.start in GraphsOf(exe, functions) && GraphsOf(exe, functions)[f.start] == GraphOf(exe, f)
  {
    CollectAt(functions, GraphList(exe, functions), |functions|, i);
  }

  lemma StartsApart(exe: Exe, forced: seq<Word>, i: nat)
    requires exe.Valid() && i < |FunctionsOf(exe, forced)|
    ensures var functions := FunctionsOf(exe, forced);
            forall j: nat {:trigger Apart(functions, i, j)} | i < j < |functions| :: Apart(functions, i, j)
  {
    var functions := FunctionsOf(exe, forced);
    var starts := Ascending(StartSet(exe, forced));
    AscendingIsStrict(StartSet(exe, forced));
    forall j: nat | i < j < |functions| ensures Apart(functions, i, j) {
      StrictAt(starts, i, j);
    }
  }

  /** The i-th function of a program, as the generator compiles it. */
  function CompiledUnit(exe: Exe, forced: seq<Word>, i: nat): Unit
    requires Aligned(exe) && ForcedOk(exe, forced) && !EndsInTwoReturns(exe)
    requires i < |FunctionsOf(exe, forced)|
  {
    var functions := FunctionsOf(exe, forced);
    IsPlaced(exe, forced, i);
    UnitOf(exe, functions[i], Starts(functions, |functions|))
  }

  /** The start of the function that is emitted as following the i-th one. */
  function CompiledNext(exe: Exe, forced: seq<Word>, i: nat): Option<Word>
    requires exe.Valid() && i < |FunctionsOf(exe, forced)|
  {
    var functions := FunctionsOf(exe, forced);
    Following(NameTable(functions, |functions|), functions[i])
  }

  /** No function but the last is compiled with its end unknown, and what follows is always what
      begins at the end: the theorems of Recompiler apply to every function as it stands in the
      file. */
  lemma EndsAreKnown(exe: Exe, forced: seq<Word>, i: nat)
    requires Aligned(exe) && ForcedOk(exe, forced) && !EndsInTwoReturns(exe)
    requires i < |FunctionsOf(exe, forced)|
    ensures var next, end := CompiledNext(exe, forced, i), CompiledUnit(exe, forced, i).f.end;
            (next.Some? ==> next.value == end) && (i + 1 < |FunctionsOf(exe, forced)| ==> next == Some(end))
  {
    if i + 1 < |FunctionsOf(exe, forced)| {
      FollowedBy(exe, forced, i);
    }
  }

  lemma {:induction false} AllKept(functions: seq<Func>, n: nat)
    requires n <= |functions|
    requires forall i: nat, j: nat {:trigger Apart(functions, i, j)} | i < j < |functions| :: Apart(functions, i, j)
    ensures Kept(functions, n) == functions[..n]
  {
    if n > 0 {
      AllKept(functions, n - 1);
      forall i | 0 <= i < n - 1 ensures functions[i].start != functions[n - 1].start {
        assert Apart(functions, i, n - 1);
      }
      assert functions[..n] == functions[..n - 1] + [functions[n - 1]];
    }
  }

  lemma NothingDropped(exe: Exe, forced: seq<Word>)
    requires exe.Valid()
    ensures var functions := FunctionsOf(exe, forced); Kept(functions, |functions|) == functions
  {
    var functions := FunctionsOf(exe, forced);
    forall i: nat, j: nat | i < j < |functions| ensures Apart(functions, i, j) {
      StartsApart(exe, forced, i);
    }
    AllKept(functions, |functions|);
    assert functions[..|functions|] == functions;
  }

  lemma KnownIs(exe: Exe, known: set<Word>, names: map<Word, string>, f: Func, cfgs: map<Word, Graph>)
    requires Placed(exe, f) && AllOrdered(cfgs) && f.start in cfgs && cfgs[f.start] == GraphOf(exe, f) && !f.isData
    ensures DefinitionOf(exe, known, names, f, cfgs) ==
            Definition(f.name, Translated(Emitted(UnitOf(exe, f, known), Following(names, f))))
  {
  }

  /** The definitions that the passes make of an executable. */
  function Program(exe: Exe, forced: seq<Word>): seq<Definition>
    requires exe.Valid()
  {
    var functions := FunctionsOf(exe, forced);
    GraphsOrdered(exe, functions);
    FileOf(exe, functions, GraphsOf(exe, functions))
  }

  /** The i-th definition of the emitted file is the function that the theorems of Recompiler are
      about, unless it has been taken for data. */
  lemma FileHolds(exe: Exe, forced: seq<Word>, i: nat)
    requires Aligned(exe) && ForcedOk(exe, forced) && !EndsInTwoReturns(exe)
    requires i < |FunctionsOf(exe, forced)| && !FunctionsOf(exe, forced)[i].isData
    ensures |Program(exe, forced)| == |FunctionsOf(exe, forced)|
    ensures Program(exe, forced)[i].name == FunctionsOf(exe, forced)[i].name
    ensures Program(exe, forced)[i].code ==
            Translated(Emitted(CompiledUnit(exe, forced, i), CompiledNext(exe, forced, i)))
  {
    var functions := FunctionsOf(exe, forced);
    var cfgs := GraphsOf(exe, functions);
    GraphsOrdered(exe, functions);
    NothingDropped(exe, forced);
    IsPlaced(exe, forced, i);
    StoredGraph(exe, forced, i);
    KnownIs(exe, Starts(functions, |functions|), NameTable(functions, |functions|), functions[i], cfgs);
  }

  // ---------------------------------------------------------------- the program as it is run

  /** The analyzer takes an entry only if it lies inside the executable. */
  function Inside(exe: Exe, a: Word): seq<Word> {
    if exe.load <= a < exe.End() then [a] else []
  }

  /** The entries taken of the first n given ones, */
  function Fixed(exe: Exe, entries: seq<Word>, n: nat): seq<Word>
    requires n <= |entries|
  {
    if n == 0 then [] else Fixed(exe, entries, n - 1) + Inside(exe, entries[n - 1])
  }

  /** and of the first n lines of the list of further functions: comments and addresses outside the
      memory of the machine are passed over. */
  function Further(exe: Exe, lines: seq<string>, n: nat): seq<Word>
    requires n <= |lines|
  {
    if n == 0 then [] else Further(exe, lines, n - 1) + OfLine(exe, lines[n - 1])
  }

  function OfLine(exe: Exe, line: string): seq<Word> {
    if line == "" || line[0] == '#' then [] else OfAddress(exe, Strtoul(line))
  }

  function OfAddress(exe: Exe, a: Word): seq<Word> {
    if 0x8000_F000 <= a < 0x8020_0000 then Inside(exe, a) else []
  }

  method AddFixed(analyzer: FunctionAnalyzer, entries: seq<Word>)
    requires analyzer.forced == []
    modifies analyzer
    ensures analyzer.forced == Fixed(analyzer.exe, entries, |entries|)
  {
    for i := 0 to |entries|
      invariant analyzer.forced == Fixed(analyzer.exe, entries, i)
    {
      analyzer.AddForcedEntry(entries[i]);
    }
  }

  method AddAddress(analyzer: FunctionAnalyzer, a: Word)
    modifies analyzer
    ensures analyzer.forced == old(analyzer.forced) + OfAddress(analyzer.exe, a)
  {
    if 0x8000_F000 <= a && a < 0x8020_0000 {
      analyzer.AddForcedEntry(a);
    }
  }

  method AddFurther(analyzer: FunctionAnalyzer, lines: seq<string>)
    modifies analyzer
    ensures analyzer.forced == old(analyzer.forced) + Further(analyzer.exe, lines, |lines|)
  {
    for i := 0 to |lines|
      invariant analyzer.forced == old(analyzer.forced) + Further(analyzer.exe, lines, i)
    {
      Regroup(old(analyzer.forced), Further(analyzer.exe, lines, i), OfLine(analyzer.exe, lines[i]));
      if lines[i] != "" && lines[i][0] != '#' {
        var a := ParseHex(lines[i]);
        AddAddress(analyzer, a);
      }
    }
  }

  /** From the executable, the entries fixed for the game and the lines of the list to the emitted
      file. The samples that are printed before leave no trace in it. */
  method Recompile(exe: Exe, entries: seq<Word>, lines: seq<string>)
    returns (definitions: seq<Definition>, exports: seq<Export>)
    requires exe.Valid()
    ensures definitions == Program(exe, Fixed(exe, entries, |entries|) + Further(exe, lines, |lines|))
    ensures exports == Exported(definitions)
  {
    var analyzer := new FunctionAnalyzer(exe);
    AddFixed(analyzer, entries);
    AddFurther(analyzer, lines);
    var functions := analyzer.Analyze();
    var cfgs := AnalyzeAllFunctions(exe, functions);
    GraphsOrdered(exe, functions);
    var generator := new Generator(exe);
    var samples := generator.GenerateAllFunctions(functions[..if |functions| < 5 then |functions| else 5], cfgs);
    definitions, exports := generator.GenerateFile(functions, cfgs);
  }
}
