/** Emission of one function: the C text as a list of statements with labels and gotos. */
module CodeGenerator {
  import opened Options
  import opened Mips
  import opened Executable
  import opened ControlFlow
  import opened Names
  import JumpTables

  /** Where a jump statement goes: a label of this function, or a call followed by return. */
  datatype Dest = ToBlock(at: Word) | ToFunc(func: Word) | ToAddr(addr: Word)

  /** A branch condition: the value saved before the delay slot, or computed on the spot. */
  datatype Cond = Saved(tag: Word) | Now(instr: Word)

  datatype Stmt =
    | Label(at: Word)
    | Exec(addr: Word, instr: Word)                 // an ordinary instruction, translated
    | IfExec(test: Word, addr: Word, instr: Word)   // delay slot of a likely branch
    | SaveCond(tag: Word, test: Word)
    | SetReg(reg: Reg, value: Word)
    | AddSp(bytes: int)
    | CallFn(func: Word)
    | CallAddr(target: Word)
    | CallReg(reg: Reg)
    | IfElse(cond: Cond, taken: Dest, notTaken: Dest)
    | Go(dest: Dest)
    | Switch(reg: Reg, cases: seq<Word>, default: seq<Stmt>)
    | ReturnStmt
    | Intercept(func: Word)                         // return if the override table takes the call

  predicate Ordered(g: Graph) {
    forall i | 0 <= i < |g.order| :: g.order[i] in g.blocks
  }

  /** What emission of one function depends on. The tables give the entries read for each
      indirect jump, none if no jump table is recognised. */
  datatype Unit = Unit(exe: Exe, f: Func, g: Graph, known: set<Word>, extra: set<Word>, tables: JumpTables.Tables)

  function Far(u: Unit, t: Word): Dest {
    if t in u.known then ToFunc(t) else ToAddr(t)
  }

  function Near(u: Unit, t: Word): Dest {
    if t in u.g.blocks then ToBlock(t) else Far(u, t)
  }

  predicate HasLabel(u: Unit, t: Word) {
    t in u.g.blocks || t in u.extra
  }

  /** The switch cases of a jump table: its labelled entries, each once, in first-seen order. */
  function Cases(u: Unit, entries: seq<Word>): seq<Word> {
    if entries == [] then []
    else
      var n := |entries| - 1;
      Cases(u, entries[..n]) +
      if entries[n] !in entries[..n] && HasLabel(u, entries[n]) then [entries[n]] else []
  }

  function Table(u: Unit, a: Word, w: Word): seq<Word> {
    Cases(u, u.tables(a, Rs(w)))
  }

  /** The cases are the labelled entries, and no case appears twice. */
  lemma {:induction false} CasesAre(u: Unit, entries: seq<Word>, l: Word)
    ensures l in Cases(u, entries) <==> l in entries && HasLabel(u, l)
    ensures multiset(Cases(u, entries))[l] <= 1
  {
    if entries != [] {
      var n := |entries| - 1;
      CasesAre(u, entries[..n], l);
      assert entries == entries[..n] + [entries[n]];
      var last := if entries[n] !in entries[..n] && HasLabel(u, entries[n]) then [entries[n]] else [];
      assert Cases(u, entries) == Cases(u, entries[..n]) + last;
      assert l in multiset(Cases(u, entries[..n])) <==> l in Cases(u, entries[..n]);
    }
  }

  // ---------------------------------------------------------------- the text of a block

  function SlotCode(u: Unit, exit: FlowInstr, a: Word): seq<Stmt> {
    match (if exit.hasSlot then u.exe.ReadWord(Wrap(a + 4)) else None)
    case None => []
    case Some(slot) =>
      if exit.isLikely then [IfExec(exit.instr, Wrap(a + 4), slot)]
      else if exit.kind == Branch then [SaveCond(a, exit.instr), Exec(Wrap(a + 4), slot)]
      else [Exec(Wrap(a + 4), slot)]
  }

  function CondOf(u: Unit, exit: FlowInstr, a: Word): Cond {
    if exit.hasSlot && u.exe.ReadWord(Wrap(a + 4)).Some? && !exit.isLikely then Saved(a) else Now(exit.instr)
  }

  predicate IsAndLink(w: Word) {
    Opcode(w) == 1 && (Rt(w) == 0x10 || Rt(w) == 0x11)
  }

  function BranchCode(u: Unit, exit: FlowInstr, succ: seq<Word>, a: Word): seq<Stmt> {
    (if IsAndLink(exit.instr) then [SetReg(RA, Wrap(a + 8))] else []) +
    [if |succ| == 2 then IfElse(CondOf(u, exit, a), ToBlock(succ[0]), ToBlock(succ[1]))
     else IfElse(CondOf(u, exit, a), Near(u, exit.target), Near(u, Wrap(exit.address + 8)))]
  }

  function IndirectCode(u: Unit, exit: FlowInstr): seq<Stmt> {
    var default :=
      [CallReg(Rs(exit.instr))] +
      (if u.f.hasPrologue && u.f.frame > 0 then [AddSp(u.f.frame)] else []) +
      [ReturnStmt];
    var cases := Table(u, exit.address, exit.instr);
    if cases != [] then [Switch(Rs(exit.instr), cases, default)] else default
  }

  function Continue(u: Unit, exit: FlowInstr, succ: seq<Word>): Stmt {
    if succ != [] then Go(ToBlock(succ[0])) else Go(Far(u, Wrap(exit.address + 8)))
  }

  function ExitCode(u: Unit, exit: FlowInstr, succ: seq<Word>, a: Word): seq<Stmt> {
    SlotCode(u, exit, a) +
    match exit.kind
    case Branch => BranchCode(u, exit, succ, a)
    case Jump =>
      if succ != [] then [Go(ToBlock(succ[0]))]
      else if exit.target != 0 then [Go(Far(u, exit.target))]
      else []
    case Return => [ReturnStmt]
    case JumpRegister => IndirectCode(u, exit)
    case JumpLink =>
      [SetReg(RA, Wrap(a + 8)),
       if exit.target in u.known then CallFn(exit.target) else CallAddr(exit.target),
       Continue(u, exit, succ)]
    case JumpLinkReg =>
      [SetReg(Rd(exit.instr), Wrap(a + 8)), CallReg(Rs(exit.instr)), Continue(u, exit, succ)]
    case Sequential => []
  }

  /** The delay slot of the exit is the block's last word, so the loop must not emit it again. */
  predicate SlotInBlock(b: BasicBlock) {
    b.exit.hasSlot && b.exit.kind != Sequential && b.exit.address < b.end
  }

  function ExitAddr(b: BasicBlock): Word {
    if SlotInBlock(b) then Back(b.end) else b.end
  }

  function WordCode(u: Unit, b: BasicBlock, a: Word, w: Word): seq<Stmt> {
    (if a != b.start && a in u.extra then [Label(a)] else []) +
    if !IsControlFlow(w) then [Exec(a, w)]
    else if a == ExitAddr(b) then ExitCode(u, b.exit, b.succ, a)
    else []
  }

  /** The text of block b from address a to its end. */
  function CodeFrom(u: Unit, b: BasicBlock, a: Word): seq<Stmt>
    requires u.exe.Valid()
    decreases if a < u.exe.End() then u.exe.End() - a else 0
  {
    if a > b.end || !u.exe.Readable(a) || (SlotInBlock(b) && a == b.end) then []
    else WordCode(u, b, a, u.exe.WordAt(a)) + CodeFrom(u, b, a + 4)
  }

  lemma CodeStep(u: Unit, b: BasicBlock, a: Word, out: seq<Stmt>)
    requires u.exe.Valid() && a <= b.end && u.exe.Readable(a) && !(SlotInBlock(b) && a == b.end)
    ensures out + CodeFrom(u, b, a) == out + WordCode(u, b, a, u.exe.WordAt(a)) + CodeFrom(u, b, a + 4)
  {
  }

  function BlockCode(u: Unit, b: BasicBlock): seq<Stmt>
    requires u.exe.Valid()
  {
    [Label(b.start)] + CodeFrom(u, b, b.start)
  }

  // ---------------------------------------------------------------- the text of a function

  /** Addresses inside the function that a jump table names and that start no block. */
  function TableLabels(g: Graph, entries: seq<Word>): set<Word> {
    set t | t in entries && g.start <= t < g.end && t !in g.blocks
  }

  /** Mid-block labels wanted by the tables found in the pre-scan of the first n blocks. */
  function ExtraLabels(g: Graph, prescan: JumpTables.Tables, order: seq<Word>, n: nat): set<Word>
    requires n <= |order| && forall i | 0 <= i < |order| :: order[i] in g.blocks
  {
    if n == 0 then {}
    else
      var exit := g.blocks[order[n - 1]].exit;
      ExtraLabels(g, prescan, order, n - 1) +
      if exit.kind == JumpRegister then TableLabels(g, prescan(exit.address, Rs(exit.instr))) else {}
  }

  function BlocksCode(u: Unit, order: seq<Word>, n: nat): seq<Stmt>
    requires u.exe.Valid() && n <= |order| && forall i | 0 <= i < |order| :: order[i] in u.g.blocks
  {
    if n == 0 then [] else BlocksCode(u, order, n - 1) + BlockCode(u, u.g.blocks[order[n - 1]])
  }

  /** Whether the last block runs off the end of the function and can be reached. */
  predicate NeedsFallthrough(g: Graph, order: seq<Word>)
    requires forall i | 0 <= i < |order| :: order[i] in g.blocks
  {
    order != [] &&
    var last := g.blocks[order[|order| - 1]];
    && (last.exit.kind == Sequential
        || ((last.exit.kind == Branch || last.exit.kind == Jump) && last.succ == []))
    && (last.isEntry || last.pred != [])
  }

  function TailCode(g: Graph, order: seq<Word>, next: Option<Word>): seq<Stmt>
    requires forall i | 0 <= i < |order| :: order[i] in g.blocks
  {
    if next.Some? && NeedsFallthrough(g, order) then [CallFn(next.value)] else []
  }

  /** The body of the emitted function, after the call of the override table. */
  function Body(u: Unit, next: Option<Word>): seq<Stmt>
    requires u.exe.Valid() && Ordered(u.g)
  {
    BlocksCode(u, u.g.order, |u.g.order|) + TailCode(u.g, u.g.order, next)
  }

  /** The whole emitted function: the override table is asked first. */
  function Emitted(u: Unit, next: Option<Word>): seq<Stmt>
    requires u.exe.Valid() && Ordered(u.g)
  {
    [Intercept(u.f.start)] + Body(u, next)
  }

  // ---------------------------------------------------------------- the whole file

  /** The body of a definition: one of two stubs that leave the work to the runtime, or code. */
  datatype Code = DataStub | InterpreterStub | Translated(body: seq<Stmt>)

  datatype Definition = Definition(name: string, code: Code)

  /** An entry of the list from which the dispatch table is made. */
  datatype Export = Export(at: Word, name: string)

  function Starts(functions: seq<Func>, n: nat): set<Word>
    requires n <= |functions|
  {
    set i | 0 <= i < n :: functions[i].start
  }

  /** The functions with each start address kept at its first occurrence. */
  function Kept(functions: seq<Func>, n: nat): seq<Func>
    requires n <= |functions|
  {
    if n == 0 then []
    else
      Kept(functions, n - 1) +
      if functions[n - 1].start in Starts(functions, n - 1) then [] else [functions[n - 1]]
  }

  /** The last name given to each start address. */
  function NameTable(functions: seq<Func>, n: nat): map<Word, string>
    requires n <= |functions|
  {
    if n == 0 then map[] else NameTable(functions, n - 1)[functions[n - 1].start := functions[n - 1].name]
  }

  predicate AllOrdered(cfgs: map<Word, Graph>) {
    forall a | a in cfgs :: Ordered(cfgs[a])
  }

  /** The labels that the pre-scan of a function asks for. */
  function LabelsWanted(exe: Exe, g: Graph): set<Word>
    requires Ordered(g)
  {
    ExtraLabels(g, JumpTables.TablesOf(exe, g.start, false), g.order, |g.order|)
  }

  function UnitFor(exe: Exe, known: set<Word>, f: Func, g: Graph): Unit
    requires Ordered(g)
  {
    Unit(exe, f, g, known, LabelsWanted(exe, g), JumpTables.TablesOf(exe, g.start, true))
  }

  /** The start of the function that begins where f ends. */
  function Following(names: map<Word, string>, f: Func): Option<Word> {
    if f.end in names && names[f.end] != "" then Some(f.end) else None
  }

  function DefinitionOf(exe: Exe, known: set<Word>, names: map<Word, string>, f: Func,
                        cfgs: map<Word, Graph>): Definition
    requires exe.Valid() && AllOrdered(cfgs)
  {
    Definition(f.name,
               if f.isData then DataStub
               else if f.start !in cfgs then InterpreterStub
               else Translated(Emitted(UnitFor(exe, known, f, cfgs[f.start]), Following(names, f))))
  }

  function AllDefinitions(exe: Exe, known: set<Word>, functions: seq<Func>, cfgs: map<Word, Graph>): seq<Definition>
    requires exe.Valid() && AllOrdered(cfgs)
  {
    var names := NameTable(functions, |functions|);
    seq(|functions|, i requires 0 <= i < |functions| => DefinitionOf(exe, known, names, functions[i], cfgs))
  }

  /** The definitions of the output file. */
  function FileOf(exe: Exe, functions: seq<Func>, cfgs: map<Word, Graph>): seq<Definition>
    requires exe.Valid() && AllOrdered(cfgs)
  {
    AllDefinitions(exe, Starts(functions, |functions|), Kept(functions, |functions|), cfgs)
  }

  function Exported(definitions: seq<Definition>): seq<Export> {
    seq(|definitions|, i requires 0 <= i < |definitions| =>
      var name := definitions[i].name;
      Export(Strtoul(name[if |name| < 5 then |name| else 5..]), name))
  }

  // ---------------------------------------------------------------- the emitter

  class Generator {
    const exe: Exe
    var known: set<Word>
    var extraLabels: set<Word>

    constructor (exe: Exe)
      ensures this.exe == exe && known == {} && extraLabels == {}
    {
      this.exe := exe;
      known, extraLabels := {}, {};
    }

    method SetKnownFunctions(functions: set<Word>)
      modifies this`known
      ensures known == functions
    {
      known := functions;
    }

    function Context(f: Func, g: Graph): Unit
      reads this
    {
      Unit(exe, f, g, known, extraLabels, JumpTables.TablesOf(exe, g.start, true))
    }

    /** The entries of the table that a scan finds for an indirect jump. */
    method ReadTable(g: Graph, exit: FlowInstr, wide: bool) returns (entries: seq<Word>)
      ensures entries == JumpTables.TablesOf(exe, g.start, wide)(exit.address, Rs(exit.instr))
    {
      entries := [];
      var table := JumpTables.ScanForTable(exe, g.start, exit.address, Rs(exit.instr), wide);
      if table.Some? {
        entries := JumpTables.ReadEntries(exe, table.value.base, table.value.count);
      }
    }

    /** The switch cases of a table: labelled entries, each once. */
    method CollectCases(ghost u: Unit, g: Graph, entries: seq<Word>) returns (targets: seq<Word>)
      requires u.g == g && u.extra == extraLabels
      ensures targets == Cases(u, entries)
    {
      var seen: set<Word> := {};
      targets := [];
      for i := 0 to |entries|
        invariant forall x :: x in seen <==> x in entries[..i]
        invariant targets == Cases(u, entries[..i])
      {
        assert entries[..i + 1][..i] == entries[..i];
        assert entries[..i + 1] == entries[..i] + [entries[i]];
        if entries[i] !in seen && (entries[i] in g.blocks || entries[i] in extraLabels) {
          targets := targets + [entries[i]];
        }
        seen := seen + {entries[i]};
      }
      assert entries[..|entries|] == entries;
    }

    method EmitIndirect(f: Func, g: Graph, exit: FlowInstr) returns (out: seq<Stmt>)
      ensures out == IndirectCode(Context(f, g), exit)
    {
      var entries := ReadTable(g, exit, true);
      var targets := CollectCases(Context(f, g), g, entries);
      var default := [CallReg(Rs(exit.instr))];
      if f.hasPrologue && f.frame > 0 {
        default := default + [AddSp(f.frame)];
      }
      default := default + [ReturnStmt];
      assert default == [CallReg(Rs(exit.instr))] + (if f.hasPrologue && f.frame > 0 then [AddSp(f.frame)] else [])
                        + [ReturnStmt];
      out := if targets != [] then [Switch(Rs(exit.instr), targets, default)] else default;
    }

    method EmitSlot(ghost u: Unit, exit: FlowInstr, a: Word) returns (out: seq<Stmt>, saved: bool)
      requires u.exe == exe
      ensures out == SlotCode(u, exit, a)
      ensures exit.kind == Branch ==> CondOf(u, exit, a) == if saved then Saved(a) else Now(exit.instr)
    {
      out, saved := [], false;
      if exit.hasSlot {
        var slot := exe.ReadWord(Wrap(a + 4));
        if slot.Some? {
          if exit.isLikely {
            out := [IfExec(exit.instr, Wrap(a + 4), slot.value)];
          } else {
            if exit.kind == Branch {
              out := [SaveCond(a, exit.instr)];
              saved := true;
            }
            out := out + [Exec(Wrap(a + 4), slot.value)];
          }
        }
      }
    }

    method EmitBranch(ghost u: Unit, g: Graph, exit: FlowInstr, succ: seq<Word>, a: Word, condition: Cond)
      returns (out: seq<Stmt>)
      requires u.g == g && u.known == known && condition == CondOf(u, exit, a)
      ensures out == BranchCode(u, exit, succ, a)
    {
      out := [];
      if IsAndLink(exit.instr) {
        out := out + [SetReg(RA, Wrap(a + 8))];
      }
      if |succ| == 2 {
        out := out + [IfElse(condition, ToBlock(succ[0]), ToBlock(succ[1]))];
      } else {
        var after := Wrap(exit.address + 8);
        var taken :=
          if exit.target in g.blocks then ToBlock(exit.target)
          else if exit.target in known then ToFunc(exit.target) else ToAddr(exit.target);
        var notTaken :=
          if after in g.blocks then ToBlock(after)
          else if after in known then ToFunc(after) else ToAddr(after);
        out := out + [IfElse(condition, taken, notTaken)];
      }
    }

    method EmitExit(f: Func, g: Graph, exit: FlowInstr, succ: seq<Word>, a: Word)
      returns (out: seq<Stmt>)
      ensures out == ExitCode(Context(f, g), exit, succ, a)
    {
      ghost var u := Context(f, g);
      var slot, saved := EmitSlot(u, exit, a);
      var code: seq<Stmt> := [];
      if exit.kind == Branch {
        code := EmitBranch(u, g, exit, succ, a, if saved then Saved(a) else Now(exit.instr));
      } else if exit.kind == Jump {
        if succ != [] {
          code := [Go(ToBlock(succ[0]))];
        } else if exit.target != 0 && exit.target in known {
          code := [Go(ToFunc(exit.target))];
        } else if exit.target != 0 {
          code := [Go(ToAddr(exit.target))];
        }
      } else if exit.kind == Return {
        code := [ReturnStmt];
      } else if exit.kind == JumpRegister {
        code := EmitIndirect(f, g, exit);
      } else if exit.kind == JumpLink {
        var call := if exit.target in known then CallFn(exit.target) else CallAddr(exit.target);
        var cont := EmitContinue(u, exit, succ);
        code := [SetReg(RA, Wrap(a + 8)), call, cont];
      } else if exit.kind == JumpLinkReg {
        var cont := EmitContinue(u, exit, succ);
        code := [SetReg(Rd(exit.instr), Wrap(a + 8)), CallReg(Rs(exit.instr)), cont];
      }
      out := slot + code;
    }

    method EmitContinue(ghost u: Unit, exit: FlowInstr, succ: seq<Word>) returns (out: Stmt)
      requires u.known == known
      ensures out == Continue(u, exit, succ)
    {
      if succ != [] {
        out := Go(ToBlock(succ[0]));
      } else {
        var cont := Wrap(exit.address + 8);
        out := if cont in known then Go(ToFunc(cont)) else Go(ToAddr(cont));
      }
    }

    method EmitWord(b: BasicBlock, f: Func, g: Graph, exitAddr: Word, a: Word, word: Word)
      returns (out: seq<Stmt>)
      requires exitAddr == ExitAddr(b)
      ensures out == WordCode(Context(f, g), b, a, word)
    {
      out := [];
      if a != b.start && a in extraLabels {
        out := out + [Label(a)];
      }
      if !IsControlFlow(word) {
        out := out + [Exec(a, word)];
      } else if a == exitAddr {
        var code := EmitExit(f, g, b.exit, b.succ, a);
        out := out + code;
      }
    }

    method TranslateBasicBlock(b: BasicBlock, f: Func, g: Graph)
      returns (out: seq<Stmt>)
      requires exe.Valid()
      ensures out == BlockCode(Context(f, g), b)
    {
      ghost var u := Context(f, g);
      out := [Label(b.start)];
      var a: int := b.start;
      var exitHasDelay := b.exit.hasSlot && b.exit.kind != Sequential;
      var slotInBlock := exitHasDelay && b.exit.address < b.end;
      var exitAddr := if slotInBlock then Back(b.end) else b.end;
      while a <= b.end
        invariant 0 <= a < 0x1_0000_0000
        invariant BlockCode(u, b) == out + CodeFrom(u, b, a)
        decreases if a < exe.End() then exe.End() - a else 0
      {
        var word := exe.ReadWord(a);
        if word.None? {
          break;
        }
        if slotInBlock && a == b.end {
          break;
        }
        var code := EmitWord(b, f, g, exitAddr, a, word.value);
        CodeStep(u, b, a, out);
        out := out + code;
        a := a + 4;
      }
      assert out + [] == out;
    }

    /** The entries that lie inside the function and start no block. */
    method InnerTargets(g: Graph, entries: seq<Word>) returns (found: set<Word>)
      ensures found == TableLabels(g, entries)
    {
      found := {};
      for k := 0 to |entries|
        invariant found == TableLabels(g, entries[..k])
      {
        assert entries[..k + 1] == entries[..k] + [entries[k]];
        if g.start <= entries[k] < g.end && entries[k] !in g.blocks {
          found := found + {entries[k]};
        }
      }
      assert entries[..|entries|] == entries;
    }

    method CollectExtraLabels(g: Graph)
      requires Ordered(g)
      modifies this`extraLabels
      ensures extraLabels == LabelsWanted(exe, g)
    {
      extraLabels := {};
      for i := 0 to |g.order|
        invariant extraLabels == ExtraLabels(g, JumpTables.TablesOf(exe, g.start, false), g.order, i)
      {
        var exit := g.blocks[g.order[i]].exit;
        if exit.kind == JumpRegister {
          var entries := ReadTable(g, exit, false);
          var found := InnerTargets(g, entries);
          extraLabels := extraLabels + found;
        }
      }
    }

    method EmitBlocks(f: Func, g: Graph) returns (body: seq<Stmt>)
      requires exe.Valid() && Ordered(g)
      ensures body == BlocksCode(Context(f, g), g.order, |g.order|)
    {
      body := [];
      for i := 0 to |g.order|
        invariant body == BlocksCode(Context(f, g), g.order, i)
      {
        var code := TranslateBasicBlock(g.blocks[g.order[i]], f, g);
        body := body + code;
      }
    }

    /** next is the start of the function that begins where f ends, if there is one. */
    method GenerateFunction(f: Func, g: Graph, next: Option<Word>) returns (body: seq<Stmt>)
      requires exe.Valid() && Ordered(g)
      modifies this`extraLabels
      ensures extraLabels == LabelsWanted(exe, g)
      ensures body == Emitted(UnitFor(exe, known, f, g), next)
    {
      body := [Intercept(f.start)];
      CollectExtraLabels(g);
      ghost var u := Context(f, g);
      var code := EmitBlocks(f, g);
      body := body + code;
      assert BlocksCode(u, g.order, |g.order|) + [] == code;
      if next.Some? && g.order != [] {
        var last := g.blocks[g.order[|g.order| - 1]];
        var needs := false;
        if last.exit.kind == Sequential {
          needs := true;
        } else if (last.exit.kind == Branch || last.exit.kind == Jump) && last.succ == [] {
          needs := true;
        }
        if needs && (last.isEntry || last.pred != []) {
          body := body + [CallFn(next.value)];
          assert body == [Intercept(f.start)] + (code + [CallFn(next.value)]);
        }
      }
    }

    method NamesByAddress(functions: seq<Func>) returns (names: map<Word, string>)
      ensures names == NameTable(functions, |functions|)
    {
      names := map[];
      for i := 0 to |functions|
        invariant names == NameTable(functions, i)
      {
        names := names[functions[i].start := functions[i].name];
      }
    }

    method GenerateAllFunctions(functions: seq<Func>, cfgs: map<Word, Graph>)
      returns (definitions: seq<Definition>)
      requires exe.Valid() && AllOrdered(cfgs)
      modifies this`extraLabels
      ensures definitions == AllDefinitions(exe, known, functions, cfgs)
    {
      definitions := [];
      var names := NamesByAddress(functions);
      for i := 0 to |functions|
        invariant |definitions| == i
        invariant forall k | 0 <= k < i ::
                    definitions[k] == DefinitionOf(exe, known, names, functions[k], cfgs)
      {
        var f := functions[i];
        if f.isData {
          definitions := definitions + [Definition(f.name, DataStub)];
        } else if f.start !in cfgs {
          definitions := definitions + [Definition(f.name, InterpreterStub)];
        } else {
          var next: Option<Word> := None;
          if f.end in names && names[f.end] != "" {
            next := Some(f.end);
          }
          var body := GenerateFunction(f, cfgs[f.start], next);
          definitions := definitions + [Definition(f.name, Translated(body))];
        }
      }
    }

    method Deduplicate(functions: seq<Func>) returns (kept: seq<Func>, known: set<Word>)
      ensures kept == Kept(functions, |functions|)
      ensures known == Starts(functions, |functions|)
    {
      kept, known := [], {};
      for i := 0 to |functions|
        invariant kept == Kept(functions, i)
        invariant known == Starts(functions, i)
      {
        if functions[i].start !in known {
          kept := kept + [functions[i]];
        }
        known := known + {functions[i].start};
      }
    }

    method ExportList(definitions: seq<Definition>) returns (exports: seq<Export>)
      ensures exports == Exported(definitions)
    {
      exports := [];
      for i := 0 to |definitions|
        invariant |exports| == i
        invariant forall k | 0 <= k < i :: exports[k] == Exported(definitions)[k]
      {
        var name := definitions[i].name;
        var at := ParseHex(name[if |name| < 5 then |name| else 5..]);
        exports := exports + [Export(at, name)];
      }
    }

    /** The definitions of the output file, and the list exported for the dispatch table. */
    method GenerateFile(functions: seq<Func>, cfgs: map<Word, Graph>)
      returns (definitions: seq<Definition>, exports: seq<Export>)
      requires exe.Valid() && AllOrdered(cfgs)
      modifies this
      ensures known == Starts(functions, |functions|)
      ensures definitions == FileOf(exe, functions, cfgs)
      ensures exports == Exported(definitions)
    {
      var kept, starts := Deduplicate(functions);
      SetKnownFunctions(starts);
      definitions := GenerateAllFunctions(kept, cfgs);
      exports := ExportList(definitions);
    }
  }
}
