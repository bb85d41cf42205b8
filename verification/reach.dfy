/** Which blocks a run of the R3000A gets to: only ones that the graph knows to be reached, if
    that holds of the cases of jump tables. */
module Reach {
  import opened Options
  import opened Mips
  import opened Executable
  import opened ControlFlow
  import opened CodeGenerator
  import opened Layout
  import opened Text
  import opened Machines
  import opened Translation
  import opened Instructions

  predicate Live(b: BasicBlock) {
    b.isEntry || b.pred != []
  }

  /** The block that covers a is the entry or has a predecessor. */
  ghost predicate Covered(u: Unit, a: int) {
    exists i: nat {:trigger Covers(u.f, u.g.order, i, a)} ::
      i < |u.g.order| && u.g.order[i] in u.g.blocks && Covers(u.f, u.g.order, i, a) && Live(u.g.blocks[u.g.order[i]])
  }

  predicate NamedAt(u: Unit, a: Word, t: Word)
    requires Placed(u.exe, u.f) && Within(u.f, a)
  {
    t in Table(u, a, WordOf(u, a))
  }

  /** All cases of jump tables lie in blocks that something besides the table also reaches. */
  ghost predicate TablesCovered(u: Unit)
    requires Placed(u.exe, u.f)
  {
    forall a: Word, t: Word {:trigger NamedAt(u, a, t)} | Within(u.f, a) && NamedAt(u, a, t) :: Covered(u, t)
  }

  /** Control cannot run off the end of the function without a jump. */
  predicate EndsInFlow(u: Unit) {
    FlowAt(u.exe, u.f.end - 4) || SkipsSlot(u, u.f.end - 8)
  }

  predicate IndirectAt(u: Unit, a: Word) {
    FlowAt(u.exe, a) && Analyze(a, u.exe.WordAt(a)).kind == JumpRegister
  }

  ghost predicate HasIndirect(u: Unit) {
    exists a: Word {:trigger IndirectAt(u, a)} :: Within(u.f, a) && IndirectAt(u, a)
  }

  // ---------------------------------------------------------------- blocks with predecessors

  lemma {:induction false} CountPositive(q: seq<Word>, x: Word)
    ensures Count(q, x) > 0 <==> x in q
    decreases |q|
  {
    if q != [] {
      CountPositive(q[..|q| - 1], x);
      assert q == q[..|q| - 1] + [q[|q| - 1]];
    }
  }

  lemma StartCovered(u: Unit, t: Word)
    requires Laid(u.exe, u.f, u.g) && t in u.g.blocks && Live(u.g.blocks[t])
    ensures Covered(u, t)
  {
    assert Listed(u.g.order, t);
    var k: nat :| k < |u.g.order| && u.g.order[k] == t;
    NextStartAligned(u.f, u.g, k);
    assert Covers(u.f, u.g.order, k, t);
  }

  lemma SuccessorCovered(u: Unit, a: Word, t: Word)
    requires Laid(u.exe, u.f, u.g) && a in u.g.blocks && t in u.g.blocks && t in u.g.blocks[a].succ
    ensures Covered(u, t)
  {
    assert ConverseAt(u.g.blocks, a, t);
    CountPositive(u.g.blocks[a].succ, t);
    CountPositive(u.g.blocks[t].pred, a);
    StartCovered(u, t);
  }

  lemma EntryCovered(u: Unit)
    requires Laid(u.exe, u.f, u.g)
    ensures Covered(u, u.f.start)
  {
    assert BlockShape(u.exe, u.f, u.g, 0);
    StartCovered(u, u.f.start);
  }

  /** The blocks a control-flow word can go to are reached from its own block. */
  lemma FlowCovers(u: Unit, a: Word)
    requires Regular(u) && Within(u.f, a) && FlowAt(u.exe, a)
    ensures var cf := Analyze(a, WordOf(u, a));
            && (cf.kind == Branch || cf.kind == Jump ==> cf.target in u.g.blocks ==> Covered(u, cf.target))
            && (cf.kind == Branch || cf.kind == JumpLink || cf.kind == JumpLinkReg ==>
                 Wrap(a + 8) in u.g.blocks ==> Covered(u, Wrap(a + 8)))
  {
    var cf := Analyze(a, WordOf(u, a));
    var i := FindCover(u.f, u.g.order, |u.g.order|, a);
    FlowDecidesExit(u.exe, u.f, u.g, i, a);
    assert BlockShape(u.exe, u.f, u.g, i);
    var b := u.g.order[i];
    SuccIgnoresLast(u.g.blocks.Keys, cf, u.g.blocks[b].end, a);
    var succ := u.g.blocks[b].succ;
    if cf.kind == Branch || cf.kind == Jump {
      TargetNotZero(u.exe, u.f, a, WordOf(u, a));
      if cf.target in u.g.blocks {
        assert cf.target in ControlFlow.Taken(u.g.blocks.Keys, cf);
        assert cf.target in succ;
        SuccessorCovered(u, b, cf.target);
      }
    }
    if cf.kind == Branch || cf.kind == JumpLink || cf.kind == JumpLinkReg {
      if Wrap(a + 8) in u.g.blocks {
        assert Wrap(a + 8) in After(u.g.blocks.Keys, cf);
        assert Wrap(a + 8) in succ;
        SuccessorCovered(u, b, Wrap(a + 8));
      }
    }
  }

  /** An ordinary word at the end of its block, unless it is a skipped slot, ends a block
      that falls through. */
  lemma EndsSequentially(u: Unit, i: nat, a: Word)
    requires Regular(u) && Within(u.f, a) && !FlowAt(u.exe, a) && !SkipsSlot(u, a - 4)
    requires i < |u.g.order| && Covers(u.f, u.g.order, i, a) && NextStart(u.f, u.g.order, i) == a + 4
    ensures u.g.blocks[u.g.order[i]].exit.kind == Sequential
  {
    assert BlockShape(u.exe, u.f, u.g, i);
    ExtentOf(u.exe, u.f, u.g, i);
    if u.g.order[i] < a && a in u.g.blocks {
      NoStartInside(u.f, u.g, i, a);
    }
    OrdinaryEnd(u.exe, u.g.order[i], a);
  }

  lemma OrdinaryEnd(exe: Exe, start: Word, last: Word)
    requires start <= last && start % 4 == 0 && last % 4 == 0 && !FlowAt(exe, last)
    requires start < last ==> !FlowAt(exe, last - 4)
    ensures ExitInstr(exe, start, last).kind == Sequential
  {
  }

  lemma StepCovered(u: Unit, a: Word)
    requires Regular(u) && Within(u.f, a) && !FlowAt(u.exe, a) && !SkipsSlot(u, a - 4) && Covered(u, a)
    requires a + 4 < u.f.end
    ensures Covered(u, a + 4)
  {
    var i: nat :| i < |u.g.order| && Covers(u.f, u.g.order, i, a) && Live(u.g.blocks[u.g.order[i]]);
    NextStartAligned(u.f, u.g, i);
    if NextStart(u.f, u.g.order, i) == a + 4 {
      EndsSequentially(u, i, a);
      SequentialSuccessor(u.exe, u.f, u.g, i);
      SuccessorCovered(u, u.g.order[i], u.g.order[i + 1]);
    } else {
      assert Covers(u.f, u.g.order, i, a + 4);
    }
  }

  // ---------------------------------------------------------------- the last block

  predicate LastLive(u: Unit)
    requires Ordered(u.g) && u.g.order != []
  {
    Live(u.g.blocks[u.g.order[|u.g.order| - 1]])
  }

  lemma LastCovers(u: Unit) returns (i: nat)
    requires Laid(u.exe, u.f, u.g)
    ensures i + 1 == |u.g.order| && Covers(u.f, u.g.order, i, u.f.end - 4) && Ordered(u.g)
  {
    i := |u.g.order| - 1;
    NextStartAligned(u.f, u.g, i);
  }

  lemma LastIsCovered(u: Unit)
    requires Laid(u.exe, u.f, u.g)
    ensures Ordered(u.g) && (Covered(u, u.f.end - 4) <==> LastLive(u))
  {
    var k := LastCovers(u);
    if Covered(u, u.f.end - 4) {
      var i: nat :| i < |u.g.order| && Covers(u.f, u.g.order, i, u.f.end - 4) && Live(u.g.blocks[u.g.order[i]]);
      OneCover(u.f, u.g.order, i, k, u.f.end - 4);
    }
  }

  /** Where control can run off the end, the emitted text ends in a call of the next function if
      and only if one is known and the last block is the entry or has a predecessor. */
  lemma TailAtEnd(u: Unit, next: Option<Word>)
    requires Regular(u) && !EndsInFlow(u)
    ensures TailCode(u.g, u.g.order, next) != [] <==> next.Some? && LastLive(u)
  {
    var last := LastSequential(u);
    TailWhen(u.g, next, last);
  }

  lemma LastSequential(u: Unit) returns (last: BasicBlock)
    requires Regular(u) && !EndsInFlow(u)
    ensures Ordered(u.g) && u.g.order != [] && last == u.g.blocks[u.g.order[|u.g.order| - 1]]
    ensures last.exit.kind == Sequential
  {
    var i := LastCovers(u);
    EndsSequentially(u, i, u.f.end - 4);
    last := u.g.blocks[u.g.order[i]];
  }

  lemma TailWhen(g: Graph, next: Option<Word>, last: BasicBlock)
    requires Ordered(g) && g.order != [] && last == g.blocks[g.order[|g.order| - 1]] && last.exit.kind == Sequential
    ensures TailCode(g, g.order, next) != [] <==> next.Some? && Live(last)
  {
  }

  // ---------------------------------------------------------------- runs

  /** What is known of every address that control gets to. */
  ghost predicate Reached(u: Unit, a: int)
    requires Placed(u.exe, u.f)
  {
    TablesCovered(u) ==> Covered(u, a)
  }

  /** If t lies in the function, control may arrive there. */
  ghost predicate Lawful(u: Unit, t: Word)
    requires Placed(u.exe, u.f)
  {
    u.f.start <= t < u.f.end ==> Within(u.f, t) && !SkipsSlot(u, t - 4) && Reached(u, t)
  }

  ghost predicate LawfulNext(u: Unit, p: Pending)
    requires Placed(u.exe, u.f)
  {
    match p
    case JumpTo(t) => Lawful(u, t)
    case CallTo(_, back) => Lawful(u, back)
    case TailTo(_) => HasIndirect(u)
    case StrayTo(_) => HasIndirect(u)
    case _ => true
  }

  /** Where a run is, and how it has left. */
  ghost predicate Lawfully<M>(u: Unit, s: Machine<M>)
    requires Placed(u.exe, u.f)
  {
    match s
    case Running(pc, p, _, _) =>
      LawfulNext(u, p) && (p == NoJump ==> Within(u.f, pc) && !SkipsSlot(u, pc - 4) && Reached(u, pc))
    case Done(_, exit) =>
      && (exit.Missed? || exit.Strayed? ==> HasIndirect(u))
      && (exit.RanOff? ==> !EndsInFlow(u) && Reached(u, u.f.end - 4))
    case Stuck(_) => true
  }

  lemma BlockLawful(u: Unit, t: Word)
    requires Regular(u) && Open(u, t) && (t in u.g.blocks ==> Reached(u, t))
    ensures Lawful(u, t)
  {
  }

  lemma CaseLawful(u: Unit, a: Word, t: Word)
    requires Regular(u) && Within(u.f, a) && NamedAt(u, a, t)
    ensures Lawful(u, t)
  {
    CaseLabelled(u, a, WordOf(u, a), t);
    assert t in u.extra ==> LabelOk(u, t);
  }

  lemma JumpLawful<M>(u: Unit, a: Word, cpu: Cpu<M>)
    requires Regular(u) && Within(u.f, a) && FlowAt(u.exe, a) && Analyze(a, WordOf(u, a)).kind == JumpRegister
    ensures LawfulNext(u, Intended(u, a, WordOf(u, a), cpu).0)
  {
    var v := cpu.gpr[Rs(WordOf(u, a))];
    assert IndirectAt(u, a);
    if NamedAt(u, a, v) {
      CaseLawful(u, a, v);
    }
  }

  lemma IssueLawful<M>(u: Unit, a: Word, cpu: Cpu<M>)
    requires Regular(u) && Within(u.f, a) && FlowAt(u.exe, a)
    ensures LawfulNext(u, Intended(u, a, WordOf(u, a), cpu).0)
  {
    var w := WordOf(u, a);
    var cf := Analyze(a, w);
    FlowOpens(u, a);
    FlowCovers(u, a);
    match cf.kind {
      case Branch =>
        BlockLawful(u, cf.target);
        BlockLawful(u, a + 8);
      case Jump =>
        BlockLawful(u, cf.target);
      case JumpRegister =>
        JumpLawful(u, a, cpu);
      case JumpLink =>
        BlockLawful(u, a + 8);
      case JumpLinkReg =>
        BlockLawful(u, a + 8);
      case _ =>
    }
  }

  lemma StepReached(u: Unit, a: Word)
    requires Regular(u) && Within(u.f, a) && !FlowAt(u.exe, a) && !SkipsSlot(u, a - 4) && Reached(u, a)
    requires a + 4 < u.f.end
    ensures Reached(u, a + 4)
  {
    if Covered(u, a) {
      StepCovered(u, a);
    }
  }

  lemma EndNotFlow(u: Unit, a: Word)
    requires a + 4 == u.f.end && !FlowAt(u.exe, a) && !SkipsSlot(u, a - 4)
    ensures !EndsInFlow(u)
  {
  }

  /** Where an ordinary word leads. */
  lemma OrdinaryNext(u: Unit, a: Word, next: Word)
    requires Regular(u) && Within(u.f, a) && !FlowAt(u.exe, a) && !SkipsSlot(u, a - 4) && Reached(u, a)
    requires next == Wrap(a + 4)
    ensures next == u.f.end ==> !EndsInFlow(u) && Reached(u, u.f.end - 4)
    ensures next != u.f.end ==> Within(u.f, next) && !SkipsSlot(u, next - 4) && Reached(u, next)
  {
    NextWord(u.exe, u.f, a);
    if next == u.f.end {
      EndNotFlow(u, a);
    } else {
      StepReached(u, a);
    }
  }

  lemma NextWord(exe: Exe, f: Func, a: Word)
    requires Placed(exe, f) && Within(f, a)
    ensures Wrap(a + 4) == a + 4 && (a + 4 == f.end || Within(f, a + 4))
  {
    WordsReadable(exe, f, a);
  }

  lemma FallLawful<M>(u: Unit, next: Word, cpu: Cpu<M>, trace: seq<Event<M>>)
    requires Placed(u.exe, u.f)
    requires next == u.f.end ==> !EndsInFlow(u) && Reached(u, u.f.end - 4)
    requires next != u.f.end ==> Within(u.f, next) && !SkipsSlot(u, next - 4) && Reached(u, next)
    ensures Lawfully(u, Fall(u, next, cpu, trace))
  {
  }

  lemma TransferLawful<M>(u: Unit, h: Host<M>, p: Pending, cpu: Cpu<M>, trace: seq<Event<M>>)
    requires Placed(u.exe, u.f) && p != NoJump && LawfulNext(u, p)
    ensures Lawfully(u, Transfer(u, h, p, cpu, trace))
  {
  }

  lemma StepLawful<M>(u: Unit, h: Host<M>, s: Machine<M>)
    requires Regular(u) && Lawfully(u, s)
    ensures Lawfully(u, Step(u, h, s))
  {
    if s.Running? && u.exe.Readable(s.pc) {
      var w := u.exe.WordAt(s.pc);
      ReadAlike(s.pc, w);
      if s.pending != NoJump {
        TransferLawful(u, h, s.pending, h.mips(w, s.cpu), s.trace);
      } else if IsControlFlow(w) {
        IssueLawful(u, s.pc, s.cpu);
        assert PlainAt(u.exe, s.pc);
        IntendedIs(u, s.pc, w, s.cpu);
      } else {
        OrdinaryNext(u, s.pc, Wrap(s.pc + 4));
        FallLawful(u, Wrap(s.pc + 4), h.mips(w, s.cpu), s.trace);
      }
    }
  }

  /** Runs stay in covered blocks and only run off the end from there, if the tables' cases are
      covered; they leave or stray by an indirect jump only if there is one. */
  lemma {:induction false} RunLawful<M>(u: Unit, h: Host<M>, s: Machine<M>, n: nat)
    requires Regular(u) && Lawfully(u, s)
    ensures Lawfully(u, Run(u, h, s, n))
  {
    if n > 0 {
      RunLawful(u, h, s, n - 1);
      StepLawful(u, h, Run(u, h, s, n - 1));
    }
  }
}
