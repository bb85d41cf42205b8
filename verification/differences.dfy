/** The three ways in which the emitted function differs from the R3000A, each with a function of
    one or three words: a return in place of running on, a frame taken off the stack that the
    R3000A leaves alone, and a jump inside the function made a call. */
module Differences {
  import opened Options
  import opened Mips
  import opened Executable
  import opened ControlFlow
  import opened CodeGenerator
  import opened Layout
  import opened Text
  import opened Machines
  import opened R3000
  import opened Translation
  import opened Recompiler
  import opened SmallExes
  import JumpTables

  /** addiu $sp, $sp, -8 */
  const PUSH: Word := 0x27BD_FFF8

  /** One instruction besides nop is known. */
  function Effect<M>(w: Word, cpu: Cpu<M>): Cpu<M> {
    if w == PUSH then Set(cpu, SP, Wrap(cpu.gpr[SP] + Imm(w))) else cpu
  }

  /** Every callee leaves the processor in the same state, and nothing is intercepted. */
  function Still<M>(answer: Cpu<M>): Host<M> {
    Host((w, cpu) => Effect(w, cpu), (w, cpu) => Effect(w, cpu), trace => answer, (a, cpu) => None)
  }

  // ---------------------------------------------------------------- supported functions

  predicate Known(w: Word) {
    w == 0 || w == PUSH || w == JR
  }

  /** A straight function of known words, without a table. */
  ghost predicate Simple(exe: Exe, f: Func, words: seq<Word>) {
    && MadeOf(exe, words) && 0 < |words| <= 40 && Straight(f, words, |words|)
    && (forall i: nat {:trigger words[i]} | i < |words| :: Known(words[i]))
  }

  lemma KnownWords()
    ensures IsControlFlow(JR) && !IsControlFlow(PUSH) && !IsControlFlow(0)
    ensures PlainFlow(JR) && Analyze(0, JR).kind == JumpRegister && Rs(JR) == 2
    ensures Opcode(JR) == 0 && Funct(JR) == 8 && Opcode(PUSH) == 9
    ensures Decode(JR) == Flow(Jr(2)) && Decode(PUSH).Ordinary? && Decode(0).Ordinary?
  {
  }

  /** The word at an address of the function. */
  lemma WordHere(exe: Exe, f: Func, words: seq<Word>, a: Word) returns (i: nat)
    requires Simple(exe, f, words) && Within(f, a)
    ensures i < |words| && a == LOAD + 4 * i && exe.ReadWord(a) == Some(words[i]) && Known(words[i])
    ensures words[i] == JR ==> i + 2 == |words|
  {
    i := (a - LOAD) / 4;
    KnownWords();
    assert HasWord(exe, words, i);
    assert StraightAt(words[i], i, |words|);
  }

  lemma SlotHere(exe: Exe, f: Func, words: seq<Word>, a: Word)
    requires Simple(exe, f, words) && Within(f, a) && FlowAt(exe, a)
    ensures exe.WordAt(a) == JR && a + 8 == f.end && exe.Readable(a + 4)
    ensures exe.WordAt(a + 4) != JR && Known(exe.WordAt(a + 4))
  {
    var i := WordHere(exe, f, words, a);
    KnownWords();
    assert Within(f, a + 4);
    var j := WordHere(exe, f, words, a + 4);
  }

  lemma SimplePlain(exe: Exe, f: Func, words: seq<Word>)
    requires Simple(exe, f, words)
    ensures PlainFunction(exe, f)
  {
    StraightPlaced(exe, f, words, |words|);
    KnownWords();
    forall a: Word | Within(f, a) ensures PlainAt(exe, a) && PlainSlot(exe, a) {
      if FlowAt(exe, a) {
        SlotHere(exe, f, words, a);
      }
    }
  }

  /** No scan finds a table, since nothing bounds an index. */
  lemma NothingBounds(exe: Exe, f: Func, words: seq<Word>, at: Word, r: Reg, wide: bool)
    requires Simple(exe, f, words) && Within(f, at)
    ensures JumpTables.TableEntries(exe, LOAD, at, r, wide) == []
  {
    KnownWords();
    forall back: nat {:trigger JumpTables.InReach(exe, LOAD, at, back)} |
      1 <= back <= 40 && JumpTables.InReach(exe, LOAD, at, back)
      ensures !JumpTables.GivesBound(exe, LOAD, at, wide, back)
    {
      assert Within(f, at - 4 * back);
      var i := WordHere(exe, f, words, at - 4 * back);
    }
    JumpTables.NoTable(exe, LOAD, at, r, wide);
  }

  lemma SimpleExit(exe: Exe, f: Func, words: seq<Word>)
    requires Simple(exe, f, words)
    ensures Placed(exe, f) && OneBlock(exe, f, GraphOf(exe, f))
    ensures var exit := GraphOf(exe, f).blocks[LOAD].exit;
            exit.kind == JumpRegister ==> Within(f, exit.address)
  {
    StraightPlaced(exe, f, words, |words|);
    HasOneBlock(exe, f, words, |words|);
    LastExit(exe, f, words, |words|, ExitInstr(exe, LOAD, f.end - 4));
  }

  lemma LastExit(exe: Exe, f: Func, words: seq<Word>, n: nat, exit: FlowInstr)
    requires MadeOf(exe, words) && Straight(f, words, n) && exit == ExitInstr(exe, LOAD, f.end - 4)
    ensures exit.kind == JumpRegister ==> Within(f, exit.address)
  {
    StraightExit(exe, f, words, n);
    if n >= 2 {
      AddressKept(f.end - 8, JR);
    }
  }

  lemma AddressKept(a: Word, w: Word)
    ensures Analyze(a, w).kind == JumpRegister ==> Analyze(a, w).address == a
  {
  }

  lemma NothingPrescanned(exe: Exe, f: Func, words: seq<Word>, c: Word, t: Word)
    requires Simple(exe, f, words) && OneBlock(exe, f, GraphOf(exe, f))
    requires var exit := GraphOf(exe, f).blocks[LOAD].exit;
             exit.kind == JumpRegister ==> Within(f, exit.address)
    ensures !Prescanned(exe, GraphOf(exe, f), c, t)
  {
    var exit := GraphOf(exe, f).blocks[LOAD].exit;
    if c == LOAD && exit.kind == JumpRegister {
      NothingBounds(exe, f, words, exit.address, Rs(exit.instr), false);
    }
  }

  lemma SimpleRegular(exe: Exe, f: Func, words: seq<Word>)
    requires Simple(exe, f, words)
    ensures Placed(exe, f) && Regular(UnitOf(exe, f, {}))
  {
    SimplePlain(exe, f, words);
    SimpleExit(exe, f, words);
    forall c, t ensures !Prescanned(exe, GraphOf(exe, f), c, t) {
      NothingPrescanned(exe, f, words, c, t);
    }
    UnitIsRegular(exe, f, {});
  }

  lemma WordSafe<M(!new)>(w: Word, answer: Cpu<M>)
    requires w == 0 || w == PUSH
    ensures Agrees(Still(answer), w) && Keeps(Still(answer), w, 2)
  {
  }

  lemma SimpleSupported<M(!new)>(exe: Exe, f: Func, words: seq<Word>, answer: Cpu<M>)
    requires Simple(exe, f, words) && answer.gpr[0] == 0
    ensures Placed(exe, f) && Supported(UnitOf(exe, f, {}), Still(answer))
  {
    SimpleRegular(exe, f, words);
    forall a: Word | Within(f, a) ensures SafeAt(UnitOf(exe, f, {}), Still(answer), a) {
      SimpleSafe(exe, f, words, UnitOf(exe, f, {}), answer, a);
    }
  }

  lemma SimpleSafe<M(!new)>(exe: Exe, f: Func, words: seq<Word>, u: Unit, answer: Cpu<M>, a: Word)
    requires Simple(exe, f, words) && Placed(exe, f) && u.exe == exe && u.f == f && Within(f, a)
    ensures SafeAt(u, Still(answer), a)
  {
    KnownWords();
    var i := WordHere(exe, f, words, a);
    if FlowAt(exe, a) {
      SlotHere(exe, f, words, a);
      WordSafe(exe.WordAt(a + 4), answer);
    } else {
      WordSafe(words[i], answer);
    }
  }

  /** The function as it is compiled. */
  lemma UnitHere<M(!new)>(exe: Exe, f: Func, words: seq<Word>, answer: Cpu<M>) returns (u: Unit)
    requires Simple(exe, f, words) && answer.gpr[0] == 0
    ensures Placed(exe, f) && u == UnitOf(exe, f, {}) && u.exe == exe && u.f == f && Supported(u, Still(answer))
    ensures forall a, r :: u.tables(a, r) == JumpTables.TableEntries(exe, LOAD, a, r, true)
  {
    SimpleSupported(exe, f, words, answer);
    u := UnitOf(exe, f, {});
    forall a, r ensures u.tables(a, r) == JumpTables.TableEntries(exe, LOAD, a, r, true) {
      UnitTables(exe, f, {}, a, r);
    }
  }

  // ---------------------------------------------------------------- off the end

  /** One nop. */
  const Nop: seq<Word> := [0]

  function NopOnly(): Func {
    Func(LOAD, LOAD + 4, "func_80010000", false, false, 0, false)
  }

  /** A run of the R3000A that leaves in this way has these events, and the emitted function others. */
  ghost predicate PartWays<M(!new)>(u: Unit, answer: Cpu<M>, cpu: Cpu<M>, exit: Exit<M>, events: seq<Event<M>>,
                                    seen: seq<Event<M>>)
  {
    var h := Still(answer);
    && Ready(u, h, None, cpu)
    && Leaves(u, h, cpu, [], exit) && Events(h, [], exit) == events
    && Ends(u, h, None, cpu, seen) && !Ends(u, h, None, cpu, events)
  }

  lemma NopSimple()
    ensures Simple(Made(Nop), NopOnly(), Nop)
  {
    IsMadeOf(Nop);
    OneSimple(Made(Nop), NopOnly(), Nop);
  }

  lemma OneSimple(exe: Exe, f: Func, words: seq<Word>)
    requires MadeOf(exe, words) && |words| == 1 && words[0] == 0 && f.start == LOAD && f.end == LOAD + 4
    ensures Simple(exe, f, words)
  {
    KnownWords();
  }

  lemma NopRuns<M>(u: Unit, answer: Cpu<M>, cpu: Cpu<M>)
    requires u.f == NopOnly() && u.exe.ReadWord(LOAD) == Some(0)
    ensures Run(u, Still(answer), Start(u, cpu), 1) == Done([], RanOff(LOAD + 4, cpu))
  {
    KnownWords();
    assert Run(u, Still(answer), Start(u, cpu), 0) == Start(u, cpu);
  }

  lemma NopEnds<M(!new)>(u: Unit, answer: Cpu<M>, cpu: Cpu<M>)
    requires u.f == NopOnly() && u.exe.ReadWord(LOAD) == Some(0) && Supported(u, Still(answer)) && cpu.gpr[0] == 0
    ensures PartWays(u, answer, cpu, RanOff(LOAD + 4, cpu), [Call(LOAD + 4, cpu), Ret(answer)], [Ret(cpu)])
  {
    var h, exit := Still(answer), RanOff(LOAD + 4, cpu);
    NopRuns(u, answer, cpu);
    EndMatters(u, h, cpu, [], exit);
    assert [] + [Ret(cpu)] == [Ret(cpu)];
  }

  lemma NopUnit<M(!new)>(answer: Cpu<M>) returns (u: Unit)
    requires answer.gpr[0] == 0
    ensures Placed(Made(Nop), NopOnly()) && u == UnitOf(Made(Nop), NopOnly(), {}) && Supported(u, Still(answer))
    ensures u.f == NopOnly() && u.exe.ReadWord(LOAD) == Some(0)
  {
    NopSimple();
    u := UnitHere(Made(Nop), NopOnly(), Nop, answer);
    FirstIs(u.exe, Nop);
  }

  lemma FirstIs(exe: Exe, words: seq<Word>)
    requires MadeOf(exe, words) && |words| > 0
    ensures exe.ReadWord(LOAD) == Some(words[0])
  {
    assert HasWord(exe, words, 0);
  }

  /** A nop after which no function is known: the R3000A goes on at the next word, and the emitted
      function returns. */
  lemma NopRunsOff<M(!new)>(answer: Cpu<M>, cpu: Cpu<M>) returns (u: Unit)
    requires answer.gpr[0] == 0 && cpu.gpr[0] == 0
    ensures Placed(Made(Nop), NopOnly()) && u == UnitOf(Made(Nop), NopOnly(), {})
    ensures PartWays(u, answer, cpu, RanOff(LOAD + 4, cpu), [Call(LOAD + 4, cpu), Ret(answer)], [Ret(cpu)])
  {
    u := NopUnit(answer);
    NopEnds(u, answer, cpu);
  }

  // ---------------------------------------------------------------- indirect jumps

  /** addiu $sp, $sp, -8; jr $v0; nop: a function with a frame that it leaves on the stack. */
  const Push: seq<Word> := [PUSH, JR, 0]

  function PushOnly(): Func {
    Func(LOAD, LOAD + 12, "func_80010000", true, false, 8, false)
  }

  lemma PushSimple()
    ensures Simple(Made(Push), PushOnly(), Push)
  {
    IsMadeOf(Push);
    ThreeSimple(Made(Push), PushOnly(), Push);
  }

  lemma ThreeSimple(exe: Exe, f: Func, words: seq<Word>)
    requires MadeOf(exe, words) && |words| == 3 && words[0] == PUSH && words[1] == JR && words[2] == 0
    requires f.start == LOAD && f.end == LOAD + 12
    ensures Simple(exe, f, words)
  {
    KnownWords();
  }

  ghost predicate IsPush(u: Unit) {
    && u.f == PushOnly() && u.exe.ReadWord(LOAD) == Some(PUSH)
    && u.exe.ReadWord(LOAD + 4) == Some(JR) && u.exe.ReadWord(LOAD + 8) == Some(0)
    && u.tables(LOAD + 4, 2) == []
  }

  lemma PushUnit<M(!new)>(answer: Cpu<M>) returns (u: Unit)
    requires answer.gpr[0] == 0
    ensures Placed(Made(Push), PushOnly()) && u == UnitOf(Made(Push), PushOnly(), {})
    ensures Supported(u, Still(answer)) && IsPush(u)
  {
    PushSimple();
    u := UnitHere(Made(Push), PushOnly(), Push, answer);
    NothingBounds(Made(Push), PushOnly(), Push, LOAD + 4, 2, true);
    PushIf(u, Push);
  }

  lemma PushIf(u: Unit, words: seq<Word>)
    requires MadeOf(u.exe, words) && |words| == 3 && words[0] == PUSH && words[1] == JR && words[2] == 0
    requires u.f == PushOnly() && u.tables(LOAD + 4, 2) == []
    ensures IsPush(u)
  {
    assert HasWord(u.exe, words, 0);
    assert HasWord(u.exe, words, 1);
    assert HasWord(u.exe, words, 2);
  }

  /** After the addition and the jump with its slot. */
  function Pushed<M>(cpu: Cpu<M>): Cpu<M> {
    Effect(PUSH, cpu)
  }

  /** How the function is left, or not: by the address in $v0. */
  function Way<M>(cpu: Cpu<M>): Exit<M> {
    if LOAD <= cpu.gpr[2] < LOAD + 12 then Strayed(cpu.gpr[2], Pushed(cpu)) else Missed(cpu.gpr[2], Pushed(cpu))
  }

  function Called<M>(cpu: Cpu<M>): Event<M> {
    Call(cpu.gpr[2], Pushed(cpu))
  }

  function Popped<M>(cpu: Cpu<M>): Cpu<M> {
    Set(cpu, SP, Wrap(8 + (cpu.gpr[SP] as int)))
  }

  lemma PushFirst<M>(u: Unit, answer: Cpu<M>, cpu: Cpu<M>)
    requires IsPush(u)
    ensures Step(u, Still(answer), Start(u, cpu)) == Running(LOAD + 4, NoJump, Pushed(cpu), [])
  {
    KnownWords();
  }

  lemma PushSecond<M>(u: Unit, answer: Cpu<M>, cpu: Cpu<M>)
    requires IsPush(u)
    ensures var s := Step(u, Still(answer), Running(LOAD + 4, NoJump, Pushed(cpu), []));
            s == Running(LOAD + 8, if LOAD <= cpu.gpr[2] < LOAD + 12 then StrayTo(cpu.gpr[2]) else TailTo(cpu.gpr[2]),
                         Pushed(cpu), [])
  {
    KnownWords();
    assert Cases(u, u.tables(LOAD + 4, 2)) == [];
  }

  lemma PushThird<M>(u: Unit, answer: Cpu<M>, cpu: Cpu<M>, p: Pending)
    requires IsPush(u) && p == if LOAD <= cpu.gpr[2] < LOAD + 12 then StrayTo(cpu.gpr[2]) else TailTo(cpu.gpr[2])
    ensures Step(u, Still(answer), Running(LOAD + 8, p, Pushed(cpu), [])) == Done([], Way(cpu))
  {
    KnownWords();
  }

  lemma PushRuns<M(!new)>(u: Unit, answer: Cpu<M>, cpu: Cpu<M>)
    requires IsPush(u)
    ensures Leaves(u, Still(answer), cpu, [], Way(cpu))
  {
    var h := Still(answer);
    PushFirst(u, answer, cpu);
    PushSecond(u, answer, cpu);
    var s := Step(u, h, Running(LOAD + 4, NoJump, Pushed(cpu), []));
    PushThird(u, answer, cpu, s.pending);
    assert Run(u, h, Start(u, cpu), 0) == Start(u, cpu);
    assert Run(u, h, Start(u, cpu), 1) == Running(LOAD + 4, NoJump, Pushed(cpu), []);
    assert Run(u, h, Start(u, cpu), 2) == s;
    assert Run(u, h, Start(u, cpu), 3) == Done([], Way(cpu));
  }

  /** Wherever the jump goes, the emitted function calls the target and then takes the frame off
      the stack. The R3000A makes a tail call of a target outside and leaves the frame where it
      is; to a target inside it jumps and makes no call. */
  lemma JumpDiffers<M(!new)>(answer: Cpu<M>, cpu: Cpu<M>) returns (u: Unit)
    requires answer.gpr[0] == 0 && cpu.gpr[0] == 0
    ensures Placed(Made(Push), PushOnly()) && u == UnitOf(Made(Push), PushOnly(), {})
    ensures PartWays(u, answer, cpu, Way(cpu), if Way(cpu).Strayed? then [] else [Called(cpu), Ret(answer)],
                     [Called(cpu), Ret(Popped(answer))])
  {
    u := PushUnit(answer);
    PushEnds(u, answer, cpu);
  }

  lemma PushEnds<M(!new)>(u: Unit, answer: Cpu<M>, cpu: Cpu<M>)
    requires IsPush(u) && Supported(u, Still(answer)) && cpu.gpr[0] == 0
    ensures PartWays(u, answer, cpu, Way(cpu), if Way(cpu).Strayed? then [] else [Called(cpu), Ret(answer)],
                     [Called(cpu), Ret(Popped(answer))])
  {
    var h, exit := Still(answer), Way(cpu);
    PushRuns(u, answer, cpu);
    AgreesExactly(u, h, None, cpu, [], exit);
    EndsForward(u, h, None, cpu, [], exit);
    assert [] + [Called(cpu)] == [Called(cpu)];
    FrameOff(u, answer);
  }

  lemma FrameOff<M>(u: Unit, answer: Cpu<M>)
    requires u.f == PushOnly()
    ensures Unwound(u, answer) == Popped(answer)
  {
  }
}
