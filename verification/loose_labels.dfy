/** Where the labels of jump tables do and do not come out: a table entry that becomes a case
    whose goto misses its label, and one that becomes no case, each in a few instructions. */
module LooseLabels {
  import opened Options
  import opened Mips
  import opened Executable
  import opened ControlFlow
  import opened CodeGenerator
  import opened Layout
  import opened Recompiler
  import opened SmallExes
  import JumpTables
  import Labels

  /** sltiu $v0, $a0, 1; lui $v1, 0x8001; addiu $v1, $v1, 28; addu $v0, $v0, $v1; lw $v0, 0($v0);
      jr $v0; nop; and behind them the table, whose only entry is e. */
  function Bounded(e: Word): seq<Word> {
    [0x2C82_0001, 0x3C03_8001, 0x2463_001C, 0x0043_1021, 0x8C42_0000, JR, 0, e]
  }

  /** ori $t0, $zero, 1; sltu $at, $t0, $a0; lui $v1, 0x8001; addiu $v1, $v1, 32; addu $v0, $v0, $v1;
      lw $v0, 0($v0); jr $v0; nop; and behind them the table, whose only entry is e. */
  function Compared(e: Word): seq<Word> {
    [0x3408_0001, 0x0104_082B, 0x3C03_8001, 0x2463_0020, 0x0043_1021, 0x8C42_0000, JR, 0, e]
  }

  /** The function of the first n words. */
  function First(n: nat): Func
    requires n <= 0x400
  {
    Func(LOAD, LOAD + 4 * n, "func_80010000", false, false, 0, false)
  }

  lemma OneEntry(exe: Exe, base: Word, e: Word)
    requires exe.ReadWord(base) == Some(e)
    ensures JumpTables.Entries(exe, base, 1) == [e]
  {
    assert JumpTables.Entries(exe, base, 0) == [];
  }

  /** What the instructions of the examples are. */
  lemma Parts()
    ensures JumpTables.LoadsFrom(0x8C42_0000, 2, 2, 0) && JumpTables.AddsTable(0x0043_1021, 2, 3)
    ensures JumpTables.AddsConst(0x2463_001C, 3, 0x1C) && JumpTables.AddsConst(0x2463_0020, 3, 0x20)
    ensures JumpTables.LoadsUpper(0x3C03_8001, 3, 0x8001_0000)
    ensures Opcode(0x2C82_0001) == 0xB && JumpTables.IsCompare(0x0104_082B) && Rs(0x0104_082B) == 8
    ensures JumpTables.Loaded(0x3408_0001, 8) == Some(1)
  {
  }

  lemma PlainParts()
    ensures !IsControlFlow(0x8C42_0000) && !IsControlFlow(0x0043_1021) && !IsControlFlow(0x3C03_8001)
    ensures !IsControlFlow(0x2463_001C) && !IsControlFlow(0x2463_0020) && !IsControlFlow(0)
    ensures !IsControlFlow(0x2C82_0001) && !IsControlFlow(0x0104_082B) && !IsControlFlow(0x3408_0001)
  {
  }

  lemma NoBoundParts()
    ensures Opcode(0x8C42_0000) != 0xB && Opcode(0x0043_1021) != 0xB && Opcode(0x3C03_8001) != 0xB
    ensures Opcode(0x2463_0020) != 0xB && Opcode(0x0104_082B) != 0xB && Opcode(0x3408_0001) != 0xB
  {
  }

  /** The words before the j-th one are in reach of its scan. */
  lemma Lies(exe: Exe, words: seq<Word>, j: nat, back: nat)
    requires MadeOf(exe, words) && 1 <= back <= j < |words| <= 0x400
    ensures JumpTables.InReach(exe, LOAD, LOAD + 4 * j, back)
    ensures JumpTables.Before(exe, LOAD + 4 * j, back) == words[j - back]
  {
    assert HasWord(exe, words, j - back);
  }

  lemma FoundHere(exe: Exe, words: seq<Word>, j: nat, wide: bool, back: nat, w: Word)
    requires MadeOf(exe, words) && 1 <= back <= j < |words| <= 0x400 && back <= 40 && words[j - back] == w
    ensures JumpTables.FoundAt(exe, LOAD, LOAD + 4 * j, wide, back, back, w)
  {
    Lies(exe, words, j, back);
  }

  /** The five words before the j-th one are a dispatch, which ends in its jump. */
  lemma Dispatches(exe: Exe, words: seq<Word>, j: nat, wide: bool, low: Word, c: int, bound: Word, base: Word)
    requires MadeOf(exe, words) && 5 <= j < |words| <= 0x400
    requires words[j - 1] == 0x8C42_0000 && words[j - 2] == 0x0043_1021 && words[j - 4] == 0x3C03_8001
    requires words[j - 3] == low && JumpTables.AddsConst(low, 3, c)
    requires base == Wrap(0x8001_0000 + c + 0) && base != 0
    requires words[j - 5] == bound &&
             JumpTables.ComparesIndex(wide, bound, JumpTables.BoundIn(exe, LOAD, LOAD + 4 * j, Rs(bound), 6), 1)
    ensures JumpTables.FindTable(exe, LOAD, LOAD + 4 * j, 2, wide) == Some(JumpTables.Table(base, 1))
  {
    LoadHere(exe, words, j, wide, bound);
    CompareHere(exe, words, j, wide, bound);
    FoundHere(exe, words, j, wide, 3, low);
    LongHere(exe, LOAD + 4 * j, wide, low, c, PLACES, DispatchWords(bound));
    DispatchHere(exe, LOAD, LOAD + 4 * j, wide, low, c, PLACES, DispatchWords(bound), base);
  }

  /** Where the words of the examples' dispatch lie, one next to the other, and what they are. */
  const PLACES := JumpTables.Dispatch(1, 2, 4, 5, 2, 3, 0x8001_0000, 0, 1)

  function DispatchWords(bound: Word): JumpTables.Words {
    JumpTables.Words(0x8C42_0000, 0x0043_1021, 0x3C03_8001, bound)
  }

  lemma LoadHere(exe: Exe, words: seq<Word>, j: nat, wide: bool, bound: Word)
    requires MadeOf(exe, words) && 5 <= j < |words| <= 0x400
    requires words[j - 1] == 0x8C42_0000 && words[j - 2] == 0x0043_1021
    ensures JumpTables.LoadsAndAdds(exe, LOAD, LOAD + 4 * j, 2, wide, PLACES, DispatchWords(bound))
  {
    Parts();
    FoundHere(exe, words, j, wide, 1, 0x8C42_0000);
    FoundHere(exe, words, j, wide, 2, 0x0043_1021);
  }

  lemma CompareHere(exe: Exe, words: seq<Word>, j: nat, wide: bool, bound: Word)
    requires MadeOf(exe, words) && 5 <= j < |words| <= 0x400
    requires words[j - 4] == 0x3C03_8001 && words[j - 5] == bound
    requires JumpTables.ComparesIndex(wide, bound, JumpTables.BoundIn(exe, LOAD, LOAD + 4 * j, Rs(bound), 6), 1)
    ensures JumpTables.LoadsAndCompares(exe, LOAD, LOAD + 4 * j, wide, 4, PLACES, DispatchWords(bound))
  {
    Parts();
    FoundHere(exe, words, j, wide, 4, 0x3C03_8001);
    FoundHere(exe, words, j, wide, 5, bound);
  }

  lemma LongHere(exe: Exe, at: Word, wide: bool, low: Word, c: int, d: JumpTables.Dispatch, ws: JumpTables.Words)
    requires d.add == 2 && d.table == 3
    requires JumpTables.LoadsAndAdds(exe, LOAD, at, 2, wide, d, ws)
    requires JumpTables.LoadsAndCompares(exe, LOAD, at, wide, 4, d, ws)
    requires JumpTables.FoundAt(exe, LOAD, at, wide, 3, 3, low) && JumpTables.AddsConst(low, 3, c)
    ensures JumpTables.IsLong(exe, LOAD, at, 2, wide, d, ws, 3, low, c)
  {
  }

  lemma DispatchHere(exe: Exe, start: Word, at: Word, wide: bool, low: Word, c: int, d: JumpTables.Dispatch,
                     ws: JumpTables.Words, base: Word)
    requires exe.Valid() && exe.load <= start && at < 0x8020_0000
    requires base == Wrap(d.high + c + d.offset) && base != 0 && 0 < d.n < 512
    requires JumpTables.IsLong(exe, start, at, 2, wide, d, ws, 3, low, c)
    ensures JumpTables.FindTable(exe, start, at, 2, wide) == Some(JumpTables.Table(base, d.n))
  {
    JumpTables.DispatchFound(exe, start, at, 2, wide, d, ws, 3, low, c);
  }

  // ---------------------------------------------------------------- a goto without its label

  lemma EightStraight(f: Func, words: seq<Word>)
    requires |words| >= 8 && f.start == LOAD && f.end == LOAD + 32
    requires !IsControlFlow(words[0]) && !IsControlFlow(words[1]) && !IsControlFlow(words[2])
    requires !IsControlFlow(words[3]) && !IsControlFlow(words[4]) && !IsControlFlow(words[5])
    requires words[6] == JR && !IsControlFlow(words[7])
    ensures Straight(f, words, 8)
  {
  }

  lemma SevenStraight(f: Func, words: seq<Word>)
    requires |words| >= 7 && f.start == LOAD && f.end == LOAD + 28
    requires !IsControlFlow(words[0]) && !IsControlFlow(words[1]) && !IsControlFlow(words[2])
    requires !IsControlFlow(words[3]) && !IsControlFlow(words[4]) && words[5] == JR && !IsControlFlow(words[6])
    ensures Straight(f, words, 7)
  {
  }

  lemma BoundedStraight(e: Word)
    ensures Straight(First(7), Bounded(e), 7)
  {
    PlainParts();
    SevenStraight(First(7), Bounded(e));
  }

  /** Both scans find the table. */
  lemma BoundedTable(exe: Exe, e: Word, wide: bool)
    requires MadeOf(exe, Bounded(e))
    ensures JumpTables.TablesOf(exe, LOAD, wide)(LOAD + 20, 2) == [e]
  {
    var words := Bounded(e);
    Parts();
    Dispatches(exe, words, 5, wide, 0x2463_001C, 0x1C, 0x2C82_0001, 0x8001_001C);
    assert HasWord(exe, words, 7);
    OneEntry(exe, 0x8001_001C, e);
  }

  lemma InEither(all: seq<Stmt>, x: seq<Stmt>, y: seq<Stmt>, s: Stmt)
    requires all == [] + x + y && (s in x || s in y)
    ensures s in all
  {
  }

  lemma CodeHas(u: Unit, b: BasicBlock, a: Word, s: Stmt)
    requires u.exe.Valid() && a <= b.end && u.exe.Readable(a) && !(SlotInBlock(b) && a == b.end)
    requires s in WordCode(u, b, a, u.exe.WordAt(a)) || s in CodeFrom(u, b, a + 4)
    ensures s in CodeFrom(u, b, a)
  {
    CodeStep(u, b, a, []);
    assert [] + CodeFrom(u, b, a) == CodeFrom(u, b, a);
    InEither(CodeFrom(u, b, a), WordCode(u, b, a, u.exe.WordAt(a)), CodeFrom(u, b, a + 4), s);
  }

  lemma {:induction false} CodeReaches(u: Unit, b: BasicBlock, a: Word, n: nat, at: Word, s: Stmt)
    requires u.exe.Valid() && u.exe.load <= a && at == a + 4 * n <= b.end && b.end + 4 <= u.exe.End()
    requires !(SlotInBlock(b) && at == b.end)
    requires s in CodeFrom(u, b, at)
    ensures s in CodeFrom(u, b, a)
    decreases n
  {
    if n > 0 {
      u.exe.AddressBounds();
      CodeReaches(u, b, a + 4, n - 1, at, s);
      CodeHas(u, b, a, s);
    }
  }

  /** The example's function, as far as its emission depends on it. */
  ghost predicate IsBounded(u: Unit, e: Word) {
    && Laid(u.exe, u.f, u.g) && OneBlock(u.exe, u.f, u.g) && u.exe.load == LOAD && u.exe.End() == LOAD + 32
    && u.f.start == LOAD && u.f.end == LOAD + 28 && u.g.blocks[LOAD].exit == Analyze(LOAD + 20, JR)
    && u.exe.ReadWord(LOAD + 20) == Some(JR)
    && u.extra == {e} && u.tables(LOAD + 20, 2) == [e]
  }

  lemma SwitchThere(u: Unit, e: Word) returns (s: Stmt)
    requires e in u.extra && u.tables(LOAD + 20, 2) == [e]
    ensures s in IndirectCode(u, Analyze(LOAD + 20, JR)) && Labels.Targets(s, e)
  {
    var cases := Table(u, LOAD + 20, JR);
    CasesAre(u, [e], e);
    s := IndirectCode(u, Analyze(LOAD + 20, JR))[0];
  }

  lemma BlockHolds(u: Unit, e: Word, s: Stmt)
    requires IsBounded(u, e) && s in IndirectCode(u, Analyze(LOAD + 20, JR))
    ensures s in CodeFrom(u, u.g.blocks[LOAD], LOAD)
  {
    var b := u.g.blocks[LOAD];
    assert b.exit.kind == JumpRegister && ExitAddr(b) == LOAD + 20;
    assert s in ExitCode(u, b.exit, b.succ, LOAD + 20);
    CodeHas(u, b, LOAD + 20, s);
    CodeReaches(u, b, LOAD, 5, LOAD + 20, s);
  }

  lemma OneBlockEmitted(u: Unit, s: Stmt)
    requires u.exe.Valid() && OneBlock(u.exe, u.f, u.g) && s in CodeFrom(u, u.g.blocks[LOAD], LOAD)
    ensures Ordered(u.g) && s in Emitted(u, None)
  {
    assert BlocksCode(u, u.g.order, 0) == [];
    assert s in BlockCode(u, u.g.blocks[LOAD]);
    assert s in BlocksCode(u, u.g.order, 1);
  }

  lemma SlotOnly(u: Unit, e: Word)
    requires IsBounded(u, e)
    ensures Labels.InBlockSlot(u, e) <==> e == LOAD + 24
  {
    var b := u.g.blocks[LOAD];
    assert SlotInBlock(b);
  }

  lemma GotoOf(u: Unit, e: Word)
    requires IsBounded(u, e) && LOAD < e < LOAD + 28
    ensures exists s :: s in Emitted(u, None) && Labels.Targets(s, e)
    ensures Labels.LabelCount(Emitted(u, None), e) == if e % 4 == 0 && e != LOAD + 24 then 1 else 0
  {
    var s := SwitchThere(u, e);
    BlockHolds(u, e, s);
    OneBlockEmitted(u, s);
    SlotOnly(u, e);
    Labels.LabelsPrinted(u, None, e);
  }

  lemma OneWanted(exe: Exe, f: Func, g: Graph, prescan: JumpTables.Tables, e: Word)
    requires OneBlock(exe, f, g) && g.blocks[LOAD].exit == Analyze(LOAD + 20, JR)
    requires LOAD < e < g.end && prescan(LOAD + 20, 2) == [e]
    ensures Ordered(g) && ExtraLabels(g, prescan, g.order, |g.order|) == {e}
  {
    assert ExtraLabels(g, prescan, g.order, 0) == {};
    assert Analyze(LOAD + 20, JR).kind == JumpRegister && Rs(JR) == 2;
    assert TableLabels(g, [e]) == {e};
  }

  lemma BoundedBlock(exe: Exe, f: Func, e: Word)
    requires MadeOf(exe, Bounded(e)) && Straight(f, Bounded(e), 7)
    ensures Laid(exe, f, GraphOf(exe, f)) && OneBlock(exe, f, GraphOf(exe, f))
    ensures GraphOf(exe, f).blocks[LOAD].exit == Analyze(LOAD + 20, JR) && exe.ReadWord(LOAD + 20) == Some(JR)
    ensures exe.load == LOAD && exe.End() == LOAD + 32 && f.start == LOAD && f.end == LOAD + 28
  {
    HasOneBlock(exe, f, Bounded(e), 7);
    StraightExit(exe, f, Bounded(e), 7);
    assert HasWord(exe, Bounded(e), 5);
  }

  lemma UnitIsBounded(exe: Exe, f: Func, e: Word)
    requires MadeOf(exe, Bounded(e)) && Straight(f, Bounded(e), 7) && LOAD < e < LOAD + 28
    ensures Placed(exe, f) && IsBounded(UnitOf(exe, f, {}), e)
  {
    BoundedBlock(exe, f, e);
    BoundedTable(exe, e, true);
    BoundedTable(exe, e, false);
    OneWanted(exe, f, GraphOf(exe, f), JumpTables.TablesOf(exe, LOAD, false), e);
  }

  /** The emitted function has a case that goes to e, whatever e is; its label is printed only if
      e is aligned and not the slot of the jump. So with the entry LOAD + 1 or LOAD + 24 the goto
      has no label. */
  lemma GotoMisses(e: Word)
    requires LOAD < e < LOAD + 28
    ensures Placed(Made(Bounded(e)), First(7))
    ensures var u := UnitOf(Made(Bounded(e)), First(7), {});
            && (exists s :: s in Emitted(u, None) && Labels.Targets(s, e))
            && Labels.LabelCount(Emitted(u, None), e) == if e % 4 == 0 && e != LOAD + 24 then 1 else 0
  {
    IsMadeOf(Bounded(e));
    BoundedStraight(e);
    UnitIsBounded(Made(Bounded(e)), First(7), e);
    GotoOf(UnitOf(Made(Bounded(e)), First(7), {}), e);
  }

  // ---------------------------------------------------------------- an entry that is no case

  lemma ComparedStraight(e: Word)
    ensures Straight(First(8), Compared(e), 8)
  {
    PlainParts();
    EightStraight(First(8), Compared(e));
  }

  /** The translator traces the comparison to its bound, which is 1. */
  lemma BoundTraced(exe: Exe, e: Word)
    requires MadeOf(exe, Compared(e))
    ensures JumpTables.BoundIn(exe, LOAD, LOAD + 24, 8, 6) == 1
  {
    Parts();
    assert HasWord(exe, Compared(e), 0);
  }

  lemma ComparedTable(exe: Exe, e: Word)
    requires MadeOf(exe, Compared(e))
    ensures JumpTables.TableEntries(exe, LOAD, LOAD + 24, 2, true) == [e]
  {
    var words := Compared(e);
    Parts();
    BoundTraced(exe, e);
    Dispatches(exe, words, 6, true, 0x2463_0020, 0x20, 0x0104_082B, 0x8001_0020);
    assert HasWord(exe, words, 8);
    OneEntry(exe, 0x8001_0020, e);
  }

  /** The pre-scan does not. */
  lemma NotPrescanned(exe: Exe, e: Word)
    requires MadeOf(exe, Compared(e))
    ensures JumpTables.TableEntries(exe, LOAD, LOAD + 24, 2, false) == []
  {
    NoBoundParts();
    forall back: nat {:trigger JumpTables.InReach(exe, LOAD, LOAD + 24, back)} |
      1 <= back <= 40 && JumpTables.InReach(exe, LOAD, LOAD + 24, back)
      ensures !JumpTables.GivesBound(exe, LOAD, LOAD + 24, false, back)
    {
      Lies(exe, Compared(e), 6, back);
    }
    JumpTables.NoTable(exe, LOAD, LOAD + 24, 2, false);
  }

  lemma NoCases(u: Unit, e: Word)
    requires !HasLabel(u, e) && u.tables(LOAD + 24, 2) == [e]
    ensures Table(u, LOAD + 24, JR) == []
  {
    assert Rs(JR) == 2;
    assert Cases(u, [e][..0]) == [];
  }

  lemma NoneWanted(exe: Exe, f: Func, g: Graph, e: Word)
    requires OneBlock(exe, f, g) && g.blocks[LOAD].exit == Analyze(LOAD + 24, JR)
    requires JumpTables.TableEntries(exe, g.start, LOAD + 24, 2, false) == []
    ensures !exists c :: Prescanned(exe, g, c, e)
  {
    assert Rs(JR) == 2;
  }

  /** The only entry of the table of the only indirect jump lies in the function, and is no case
      of its switch, whatever it is: the emitted function calls it as a function. */
  lemma EntryMisses(e: Word)
    requires LOAD < e < LOAD + 32
    ensures var exe, f := Made(Compared(e)), First(8);
            && Placed(exe, f) && GraphOf(exe, f).blocks.Keys == {LOAD}
            && GraphOf(exe, f).blocks[LOAD].exit == Analyze(LOAD + 24, JR)
            && JumpTables.TableEntries(exe, f.start, LOAD + 24, 2, true) == [e]
            && Table(UnitOf(exe, f, {}), LOAD + 24, JR) == []
  {
    IsMadeOf(Compared(e));
    ComparedStraight(e);
    EntryMissesIn(Made(Compared(e)), First(8), Compared(e), e);
  }

  lemma EntryMissesIn(exe: Exe, f: Func, words: seq<Word>, e: Word)
    requires words == Compared(e) && MadeOf(exe, words) && Straight(f, words, 8) && LOAD < e < LOAD + 32
    ensures Placed(exe, f) && GraphOf(exe, f).blocks.Keys == {LOAD}
    ensures GraphOf(exe, f).blocks[LOAD].exit == Analyze(LOAD + 24, JR)
    ensures JumpTables.TableEntries(exe, f.start, LOAD + 24, 2, true) == [e]
    ensures Table(UnitOf(exe, f, {}), LOAD + 24, JR) == []
  {
    ComparedBlock(exe, f, e);
    ComparedTable(exe, e);
    CaseMisses(exe, f, e);
  }

  lemma CaseMisses(exe: Exe, f: Func, e: Word)
    requires MadeOf(exe, Compared(e)) && Placed(exe, f) && OneBlock(exe, f, GraphOf(exe, f))
    requires f.start == LOAD < e < f.end
    requires GraphOf(exe, f).blocks[LOAD].exit == Analyze(LOAD + 24, JR)
    ensures Table(UnitOf(exe, f, {}), LOAD + 24, JR) == []
  {
    NotPrescanned(exe, e);
    NotLabelled(exe, f, e);
    ComparedTable(exe, e);
    UnitTables(exe, f, {}, LOAD + 24, 2);
    NoCases(UnitOf(exe, f, {}), e);
  }

  lemma NotLabelled(exe: Exe, f: Func, e: Word)
    requires Placed(exe, f) && OneBlock(exe, f, GraphOf(exe, f)) && f.start == LOAD < e < f.end
    requires GraphOf(exe, f).blocks[LOAD].exit == Analyze(LOAD + 24, JR)
    requires JumpTables.TableEntries(exe, LOAD, LOAD + 24, 2, false) == []
    ensures !HasLabel(UnitOf(exe, f, {}), e)
  {
    NoneWanted(exe, f, GraphOf(exe, f), e);
    LabelWhen(exe, f, {}, e);
  }

  lemma ComparedBlock(exe: Exe, f: Func, e: Word)
    requires MadeOf(exe, Compared(e)) && Straight(f, Compared(e), 8)
    ensures Placed(exe, f) && OneBlock(exe, f, GraphOf(exe, f))
    ensures GraphOf(exe, f).blocks[LOAD].exit == Analyze(LOAD + 24, JR)
  {
    HasOneBlock(exe, f, Compared(e), 8);
    StraightExit(exe, f, Compared(e), 8);
  }

  // ---------------------------------------------------------------- a table in the wrong place

  /** addiu $v0, $v0, 4; sltiu $a0, $v0, 1; lui $v1, 0x8001; addu $v0, $v0, $v1; lw $v0, 28($v0); jr $v0;
      nop: the offset of the load is the low half of the table's address. */
  function Offset(e: Word, other: Word): seq<Word> {
    [0x2442_0004, 0x2C44_0001, 0x3C03_8001, 0x0043_1021, 0x8C42_001C, JR, 0, e, other]
  }

  lemma OffsetParts()
    ensures JumpTables.LoadsFrom(0x8C42_001C, 2, 2, 0x1C)
    ensures Opcode(0x2C44_0001) == 0xB && 0x2C44_0001 % 0x1_0000 == 1 && Rs(0x0043_1021) == 2
  {
  }

  lemma BothParts()
    ensures JumpTables.AddsTable(0x0043_1021, 2, 3) && JumpTables.LoadsUpper(0x3C03_8001, 3, LOAD)
  {
  }

  lemma IndexParts()
    ensures JumpTables.AddsConst(0x2442_0004, 2, 4)
  {
  }

  /** Where its words lie. */
  const SHORT_PLACES := JumpTables.Dispatch(1, 2, 3, 4, 2, 3, 0x8001_0000, 0x1C, 1)

  const SHORT_WORDS := JumpTables.Words(0x8C42_001C, 0x0043_1021, 0x3C03_8001, 0x2C44_0001)

  lemma ShortHere(exe: Exe, words: seq<Word>, at: Word, wide: bool)
    requires at == LOAD + 4 * 5
    requires MadeOf(exe, words) && |words| == 9 && words[1] == 0x2C44_0001 && words[2] == 0x3C03_8001
    requires words[3] == 0x0043_1021 && words[4] == 0x8C42_001C
    ensures JumpTables.IsShort(exe, LOAD, at, 2, wide, SHORT_PLACES, SHORT_WORDS)
  {
    BothParts();
    OffsetParts();
    FoundHere(exe, words, 5, wide, 1, 0x8C42_001C);
    FoundHere(exe, words, 5, wide, 2, 0x0043_1021);
    FoundHere(exe, words, 5, wide, 3, 0x3C03_8001);
    FoundHere(exe, words, 5, wide, 4, 0x2C44_0001);
  }

  lemma Taken(exe: Exe, words: seq<Word>, at: Word)
    requires at == LOAD + 20
    requires MadeOf(exe, words) && |words| == 9 && words[0] == 0x2442_0004
    ensures JumpTables.Adopted(exe, LOAD, at, 2, 5) == Some(4)
  {
    IndexParts();
    assert HasWord(exe, words, 0);
  }

  lemma ShortMoves(exe: Exe, start: Word, at: Word, wide: bool, d: JumpTables.Dispatch, ws: JumpTables.Words, c: int,
                   base: Word)
    requires exe.Valid() && exe.load <= start && at < 0x8020_0000 && 0 < d.n < 512
    requires JumpTables.IsShort(exe, start, at, 2, wide, d, ws)
    requires JumpTables.Adopted(exe, start, at, Rs(ws.add), d.bound + 1) == Some(c)
    requires base == Wrap(d.high + c + d.offset) && base != 0
    ensures JumpTables.FindTable(exe, start, at, 2, wide) == Some(JumpTables.Table(base, d.n))
  {
    JumpTables.ShortDispatchFound(exe, start, at, 2, wide, d, ws);
  }

  /** The dispatch loads from LOAD + 28, and both scans place its table four bytes further on,
      because of the constant added to the index. */
  lemma TableMoves(e: Word, other: Word, wide: bool) returns (exe: Exe, at: Word)
    ensures exe == Made(Offset(e, other)) && at == LOAD + 20
    ensures JumpTables.IsShort(exe, LOAD, at, 2, wide, SHORT_PLACES, SHORT_WORDS)
    ensures JumpTables.FindTable(exe, LOAD, at, 2, wide) == Some(JumpTables.Table(LOAD + 32, 1))
  {
    at := LOAD + 20;
    exe := OffsetExe(e, other);
    MovesIn(exe, Offset(e, other), at, wide);
  }

  lemma OffsetExe(e: Word, other: Word) returns (exe: Exe)
    ensures exe == Made(Offset(e, other)) && MadeOf(exe, Offset(e, other))
  {
    exe := Made(Offset(e, other));
    IsMadeOf(Offset(e, other));
  }

  lemma MovesIn(exe: Exe, words: seq<Word>, at: Word, wide: bool)
    requires at == LOAD + 20
    requires MadeOf(exe, words) && |words| == 9 && words[0] == 0x2442_0004 && words[1] == 0x2C44_0001
    requires words[2] == 0x3C03_8001 && words[3] == 0x0043_1021 && words[4] == 0x8C42_001C
    ensures JumpTables.IsShort(exe, LOAD, at, 2, wide, SHORT_PLACES, SHORT_WORDS)
    ensures JumpTables.FindTable(exe, LOAD, at, 2, wide) == Some(JumpTables.Table(LOAD + 32, 1))
  {
    ShortHere(exe, words, at, wide);
    Taken(exe, words, at);
    MovesFour(exe, at, wide);
  }

  lemma MovesFour(exe: Exe, at: Word, wide: bool)
    requires exe.Valid() && exe.load == LOAD && at < 0x8020_0000
    requires JumpTables.Adopted(exe, LOAD, at, 2, 5) == Some(4)
    requires JumpTables.IsShort(exe, LOAD, at, 2, wide, SHORT_PLACES, SHORT_WORDS)
    ensures JumpTables.FindTable(exe, LOAD, at, 2, wide) == Some(JumpTables.Table(LOAD + 32, 1))
  {
    OffsetParts();
    ShortMoves(exe, LOAD, at, wide, SHORT_PLACES, SHORT_WORDS, 4, 0x8001_0020);
  }
}
