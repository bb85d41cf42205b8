/** The emitted body read address by address, without mention of blocks. */
module Text {
  import opened Options
  import opened Mips
  import opened Executable
  import opened ControlFlow
  import opened CodeGenerator
  import opened Layout
  import opened Seqs

  function WordOf(u: Unit, a: Word): (w: Word)
    requires Placed(u.exe, u.f) && Within(u.f, a)
    ensures u.exe.Readable(a) && w == u.exe.WordAt(a)
  {
    WordsReadable(u.exe, u.f, a);
    u.exe.WordAt(a)
  }

  function LabelAt(u: Unit, a: Word): seq<Stmt> {
    if HasLabel(u, a) then [Label(a)] else []
  }

  /** The slot of a control-flow word that no label separates from it: emitted with the word
      and not again. */
  predicate SkipsSlot(u: Unit, a: int) {
    FlowAt(u.exe, a) && a + 4 < u.f.end && a + 4 !in u.g.blocks
  }

  function CallTo(u: Unit, t: Word): Stmt {
    if t in u.known then CallFn(t) else CallAddr(t)
  }

  /** The statements for a control-flow word at a whose slot holds the given word. */
  function FlowText(u: Unit, a: Word, w: Word, slot: Word): seq<Stmt> {
    TransferText(u, Analyze(a, w), a, w, slot)
  }

  function TransferText(u: Unit, cf: FlowInstr, a: Word, w: Word, slot: Word): seq<Stmt> {
    match cf.kind
    case Branch => [SaveCond(a, w), Exec(Wrap(a + 4), slot), IfElse(Saved(a), Near(u, cf.target), Near(u, Wrap(a + 8)))]
    case Jump => [Exec(Wrap(a + 4), slot), Go(Near(u, cf.target))]
    case Return => [Exec(Wrap(a + 4), slot), ReturnStmt]
    case JumpRegister => [Exec(Wrap(a + 4), slot)] + IndirectCode(u, cf)
    case JumpLink =>
      [Exec(Wrap(a + 4), slot), SetReg(RA, Wrap(a + 8)), CallTo(u, cf.target), Go(Near(u, Wrap(a + 8)))]
    case JumpLinkReg =>
      [Exec(Wrap(a + 4), slot), SetReg(Rd(w), Wrap(a + 8)), CallReg(Rs(w)), Go(Near(u, Wrap(a + 8)))]
    case Sequential => []
  }

  function OwnText(u: Unit, a: Word): seq<Stmt>
    requires Placed(u.exe, u.f) && Within(u.f, a)
  {
    var w := WordOf(u, a);
    if IsControlFlow(w) then
      FlowText(u, a, w, if u.exe.Readable(Wrap(a + 4)) then u.exe.WordAt(Wrap(a + 4)) else 0)
    else [Exec(a, w)]
  }

  /** The address whose text follows the text of a. */
  function NextText(u: Unit, a: Word): (n: int)
    requires Within(u.f, a) && u.f.end % 4 == 0
    ensures (n == a + 4 || n == a + 8) && n <= u.f.end && n % 4 == 0
  {
    if SkipsSlot(u, a) then a + 8 else a + 4
  }

  /** The text from address a to the end of the function, then the tail. */
  function TextAt(u: Unit, tail: seq<Stmt>, a: Word): seq<Stmt>
    requires Placed(u.exe, u.f) && (Within(u.f, a) || a == u.f.end)
    decreases u.f.end - a, 1
  {
    if a == u.f.end then tail else LabelAt(u, a) + InstrText(u, tail, a)
  }

  function InstrText(u: Unit, tail: seq<Stmt>, a: Word): seq<Stmt>
    requires Placed(u.exe, u.f) && Within(u.f, a)
    decreases u.f.end - a, 0
  {
    OwnText(u, a) + TextAt(u, tail, NextText(u, a))
  }

  // ---------------------------------------------------------------- the supported functions

  /** Branches of the R3000A proper: no likely forms, no and-link forms, and of the REGIMM
      group only bltz and bgez. */
  predicate PlainFlow(w: Word) {
    && !(0x14 <= Opcode(w) <= 0x17)
    && (Opcode(w) == 1 ==> Rt(w) == 0 || Rt(w) == 1)
  }

  predicate PlainAt(exe: Exe, a: Word) {
    FlowAt(exe, a) ==> PlainFlow(exe.WordAt(a)) && a + 4 < 0x1_0000_0000 && exe.Readable(a + 4)
  }

  /** Extra labels are addresses of words that start no block and are no skipped slots. */
  predicate LabelOk(u: Unit, t: Word) {
    t in u.extra ==> Within(u.f, t) && t !in u.g.blocks && !SkipsSlot(u, t - 4)
  }

  /** The functions whose text is read address by address. */
  ghost predicate Regular(u: Unit) {
    && Laid(u.exe, u.f, u.g)
    && NoFlowInSlots(u.exe, u.f)
    && (forall a: Word {:trigger PlainAt(u.exe, a)} | Within(u.f, a) :: PlainAt(u.exe, a))
    && (forall t {:trigger LabelOk(u, t)} | t in u.extra :: LabelOk(u, t))
  }

  // ---------------------------------------------------------------- blocks and text agree

  lemma SuccessorExits(u: Unit, a: Word, w: Word, succ: seq<Word>)
    requires Laid(u.exe, u.f, u.g) && Within(u.f, a)
    requires IsControlFlow(w)
    requires succ == Successors(u.g.blocks.Keys, Analyze(a, w), a)
    requires Analyze(a, w).target != 0 || Analyze(a, w).kind !in {Branch, Jump}
    ensures var cf := Analyze(a, w);
            && (cf.kind == Branch ==>
                 (|succ| == 2 <==> cf.target in u.g.blocks && Wrap(a + 8) in u.g.blocks) &&
                 (|succ| == 2 ==> succ == [cf.target, Wrap(a + 8)]))
            && (cf.kind == Jump ==> succ == if cf.target in u.g.blocks then [cf.target] else [])
            && (cf.kind == JumpLink || cf.kind == JumpLinkReg ==>
                 succ == if Wrap(a + 8) in u.g.blocks then [Wrap(a + 8)] else [])
  {
  }

  lemma TargetNotZero(exe: Exe, f: Func, a: Word, w: Word)
    requires Placed(exe, f) && Within(f, a)
    requires Analyze(a, w).kind == Branch || Analyze(a, w).kind == Jump
    ensures Analyze(a, w).target != 0
  {
    WordsReadable(exe, f, a);
  }

  lemma ExitCodeIsFlowText(u: Unit, a: Word, succ: seq<Word>)
    requires Regular(u) && Within(u.f, a) && FlowAt(u.exe, a)
    requires succ == Successors(u.g.blocks.Keys, Analyze(a, WordOf(u, a)), a)
    ensures ExitCode(u, Analyze(a, WordOf(u, a)), succ, a) == OwnText(u, a)
  {
    var w := WordOf(u, a);
    var cf := Analyze(a, w);
    assert PlainAt(u.exe, a);
    if cf.kind == Branch || cf.kind == Jump {
      TargetNotZero(u.exe, u.f, a, w);
    }
    SuccessorExits(u, a, w, succ);
    WordsReadable(u.exe, u.f, a);
    ExitIsText(u, cf, a, w, u.exe.WordAt(a + 4), succ);
  }

  /** An exit of the supported kinds, with its slot. */
  predicate PlainExit(u: Unit, cf: FlowInstr, a: Word, w: Word, slot: Word) {
    && cf == FlowInstr(a, w, cf.kind, cf.target, true, false) && cf.kind != Sequential && PlainFlow(w)
    && a + 4 < 0x1_0000_0000 && u.exe.ReadWord(a + 4) == Some(slot)
  }

  lemma SlotIs(u: Unit, cf: FlowInstr, a: Word, w: Word, slot: Word)
    requires PlainExit(u, cf, a, w, slot)
    ensures SlotCode(u, cf, a) ==
            (if cf.kind == Branch then [SaveCond(a, w), Exec(Wrap(a + 4), slot)] else [Exec(Wrap(a + 4), slot)])
    ensures CondOf(u, cf, a) == Saved(a)
  {
    assert Wrap(a + 4) == a + 4;
  }

  lemma BranchIs(u: Unit, cf: FlowInstr, a: Word, w: Word, slot: Word, succ: seq<Word>)
    requires PlainExit(u, cf, a, w, slot)
    requires |succ| == 2 <==> cf.target in u.g.blocks && Wrap(a + 8) in u.g.blocks
    requires |succ| == 2 ==> succ == [cf.target, Wrap(a + 8)]
    ensures BranchCode(u, cf, succ, a) == [IfElse(Saved(a), Near(u, cf.target), Near(u, Wrap(a + 8)))]
  {
    SlotIs(u, cf, a, w, slot);
    assert !IsAndLink(w);
  }

  lemma ContinueIs(u: Unit, cf: FlowInstr, a: Word, succ: seq<Word>)
    requires cf.address == a && succ == if Wrap(a + 8) in u.g.blocks then [Wrap(a + 8)] else []
    ensures Continue(u, cf, succ) == Go(Near(u, Wrap(a + 8)))
  {
  }

  lemma ExitIsText(u: Unit, cf: FlowInstr, a: Word, w: Word, slot: Word, succ: seq<Word>)
    requires PlainExit(u, cf, a, w, slot)
    requires cf.kind == Branch || cf.kind == Jump ==> cf.target != 0
    requires cf.kind == Branch ==>
               (|succ| == 2 <==> cf.target in u.g.blocks && Wrap(a + 8) in u.g.blocks) &&
               (|succ| == 2 ==> succ == [cf.target, Wrap(a + 8)])
    requires cf.kind == Jump ==> succ == if cf.target in u.g.blocks then [cf.target] else []
    requires cf.kind == JumpLink || cf.kind == JumpLinkReg ==>
               succ == if Wrap(a + 8) in u.g.blocks then [Wrap(a + 8)] else []
    ensures ExitCode(u, cf, succ, a) == TransferText(u, cf, a, w, slot)
  {
    SlotIs(u, cf, a, w, slot);
    match cf.kind {
      case Branch => BranchIs(u, cf, a, w, slot, succ);
      case JumpLink => ContinueIs(u, cf, a, succ);
      case JumpLinkReg => ContinueIs(u, cf, a, succ);
      case _ =>
    }
  }

  lemma SlotFollowsFlow(exe: Exe, f: Func, g: Graph, i: nat)
    requires Laid(exe, f, g) && i < |g.order| && SlotInBlock(g.blocks[g.order[i]])
    ensures var b := g.blocks[g.order[i]];
            4 <= b.end && g.order[i] <= b.end - 4 && FlowAt(exe, b.end - 4)
  {
    assert BlockShape(exe, f, g, i);
    NextStartAligned(f, g, i);
    LastWord(g.order[i], NextStart(f, g.order, i));
    SlotIsLast(exe, g.order[i], NextStart(f, g.order, i) - 4);
  }

  lemma AnalyzedAt(a: Word, w: Word)
    ensures Analyze(a, w).address == a
  {
  }

  lemma SlotIsLast(exe: Exe, start: Word, last: Word)
    requires start <= last && start % 4 == 0 && last % 4 == 0 && exe.Valid()
    requires var exit := ExitInstr(exe, start, last);
             exit.hasSlot && exit.kind != Sequential && exit.address < last
    ensures 4 <= last && start <= last - 4 && FlowAt(exe, last - 4)
  {
    AnalyzedAt(last, exe.WordAt(last));
    assert start < last && exe.Readable(Back(last));
    AnalyzedAt(Back(last), exe.WordAt(Back(last)));
    assert Back(last) == last - 4;
  }

  lemma ExtentOf(exe: Exe, f: Func, g: Graph, i: nat)
    requires Laid(exe, f, g) && i < |g.order|
    ensures var b := g.blocks[g.order[i]];
            && b.start == g.order[i] && b.end + 4 == NextStart(f, g.order, i)
            && b.start <= b.end && Within(f, b.start) && Within(f, b.end)
  {
    NextStartAligned(f, g, i);
    LastWord(g.order[i], NextStart(f, g.order, i));
    assert BlockShape(exe, f, g, i);
  }

  lemma LastWord(a: Word, next: Word)
    requires a % 4 == 0 && next % 4 == 0 && a < next
    ensures a <= next - 4 && (next - 4) % 4 == 0 && Back(next) == next - 4
  {
  }

  /** The emitter skips exactly the slots that the address-wise text skips. */
  lemma SkipsMatch(u: Unit, i: nat, a: Word)
    requires Regular(u) && i < |u.g.order| && Within(u.f, a) && FlowAt(u.exe, a) && Covers(u.f, u.g.order, i, a)
    ensures NextText(u, a) == NextStart(u.f, u.g.order, i)
    ensures var b := u.g.blocks[u.g.order[i]]; b.end == a || (SlotInBlock(b) && b.end == a + 4)
  {
    var b := u.g.blocks[u.g.order[i]];
    FlowDecidesExit(u.exe, u.f, u.g, i, a);
    ExtentOf(u.exe, u.f, u.g, i);
    if b.end == a {
      assert a + 4 == u.f.end || a + 4 in u.g.blocks;
    } else {
      if a + 4 in u.g.blocks {
        NoStartInside(u.f, u.g, i, a + 4);
      }
      ExitAddrOf(b, a);
    }
  }

  /** The statements a block emits for one address, apart from a leading label. */
  lemma WordText(u: Unit, i: nat, a: Word)
    requires Regular(u) && i < |u.g.order| && Within(u.f, a) && Covers(u.f, u.g.order, i, a)
    ensures var b := u.g.blocks[u.g.order[i]];
            WordCode(u, b, a, WordOf(u, a)) ==
            (if a == b.start then [] else LabelAt(u, a)) + OwnText(u, a)
  {
    var b := u.g.blocks[u.g.order[i]];
    ExtentOf(u.exe, u.f, u.g, i);
    if a != b.start && a in u.g.blocks {
      NoStartInside(u.f, u.g, i, a);
    }
    if FlowAt(u.exe, a) {
      FlowIsExit(u.exe, u.f, u.g, i, a);
      assert BlockShape(u.exe, u.f, u.g, i);
      SuccIgnoresLast(u.g.blocks.Keys, b.exit, b.end, a);
      ExitCodeIsFlowText(u, a, b.succ);
    }
  }

  lemma SuccIgnoresLast(keys: set<Word>, exit: FlowInstr, last: Word, other: Word)
    requires exit.kind != Sequential
    ensures Successors(keys, exit, last) == Successors(keys, exit, other)
  {
  }

  function Unlabelled(u: Unit, tail: seq<Stmt>, b: BasicBlock, a: Word): seq<Stmt>
    requires Placed(u.exe, u.f) && Within(u.f, a)
  {
    if a == b.start then InstrText(u, tail, a) else TextAt(u, tail, a)
  }

  lemma UnlabelledStep(u: Unit, tail: seq<Stmt>, i: nat, a: Word)
    requires Regular(u) && i < |u.g.order| && Within(u.f, a) && Covers(u.f, u.g.order, i, a)
    ensures var b := u.g.blocks[u.g.order[i]];
            Unlabelled(u, tail, b, a) == WordCode(u, b, a, WordOf(u, a)) + TextAt(u, tail, NextText(u, a))
  {
    var b := u.g.blocks[u.g.order[i]];
    WordText(u, i, a);
    var own := OwnText(u, a);
    var rest := TextAt(u, tail, NextText(u, a));
    assert InstrText(u, tail, a) == own + rest;
    if a == b.start {
      assert [] + own == own;
    } else {
      Regroup(LabelAt(u, a), own, rest);
    }
  }

  /** One word's code, then the rest; at the end of the block, or one before it when the last
      word is the slot, nothing more. */
  lemma CodeUnrolled(u: Unit, b: BasicBlock, a: Word)
    requires u.exe.Valid() && a <= b.end && u.exe.Readable(a) && !(SlotInBlock(b) && a == b.end)
    ensures CodeFrom(u, b, a) == WordCode(u, b, a, u.exe.WordAt(a)) + CodeFrom(u, b, a + 4)
    ensures b.end == a || (SlotInBlock(b) && b.end == a + 4) ==> CodeFrom(u, b, a + 4) == []
  {
  }

  lemma StaysInside(u: Unit, i: nat, a: Word)
    requires Regular(u) && i < |u.g.order| && Within(u.f, a) && Covers(u.f, u.g.order, i, a) && !FlowAt(u.exe, a)
    requires a != u.g.blocks[u.g.order[i]].end
    ensures var b := u.g.blocks[u.g.order[i]];
            Covers(u.f, u.g.order, i, a + 4) && Within(u.f, a + 4) && !(SlotInBlock(b) && a + 4 == b.end)
  {
    ExtentOf(u.exe, u.f, u.g, i);
    if SlotInBlock(u.g.blocks[u.g.order[i]]) {
      SlotFollowsFlow(u.exe, u.f, u.g, i);
    }
  }

  /** What a block emits from an address is one word's code and the rest; nothing follows
      the code of its exit. */
  lemma CodeFromStep(u: Unit, i: nat, a: Word)
    requires Regular(u) && i < |u.g.order| && Within(u.f, a) && Covers(u.f, u.g.order, i, a)
    requires !(SlotInBlock(u.g.blocks[u.g.order[i]]) && a == u.g.blocks[u.g.order[i]].end)
    ensures var b := u.g.blocks[u.g.order[i]];
            && CodeFrom(u, b, a) == WordCode(u, b, a, WordOf(u, a)) + CodeFrom(u, b, a + 4)
            && (FlowAt(u.exe, a) || a == b.end ==>
                 CodeFrom(u, b, a + 4) == [] && NextText(u, a) == NextStart(u.f, u.g.order, i))
            && (!FlowAt(u.exe, a) && a != b.end ==>
                 Covers(u.f, u.g.order, i, a + 4) && Within(u.f, a + 4) && !(SlotInBlock(b) && a + 4 == b.end))
  {
    var b := u.g.blocks[u.g.order[i]];
    ExtentOf(u.exe, u.f, u.g, i);
    CodeUnrolled(u, b, a);
    if FlowAt(u.exe, a) {
      SkipsMatch(u, i, a);
    } else if a != b.end {
      StaysInside(u, i, a);
    }
  }

  /** From any address that is not a skipped slot, a block's text is the address-wise text. */
  lemma {:induction false} BlockText(u: Unit, tail: seq<Stmt>, i: nat, a: Word)
    requires Regular(u) && i < |u.g.order| && Within(u.f, a) && Covers(u.f, u.g.order, i, a)
    requires !(SlotInBlock(u.g.blocks[u.g.order[i]]) && a == u.g.blocks[u.g.order[i]].end)
    ensures var b := u.g.blocks[u.g.order[i]];
            var next := NextStart(u.f, u.g.order, i);
            && (Within(u.f, next) || next == u.f.end)
            && Unlabelled(u, tail, b, a) == CodeFrom(u, b, a) + TextAt(u, tail, next)
    decreases u.f.end - a
  {
    var b := u.g.blocks[u.g.order[i]];
    var next := NextStart(u.f, u.g.order, i);
    NextStartAligned(u.f, u.g, i);
    UnlabelledStep(u, tail, i, a);
    CodeFromStep(u, i, a);
    ghost var own := WordCode(u, b, a, WordOf(u, a));
    if FlowAt(u.exe, a) || a == b.end {
      assert own + [] == own;
    } else {
      ExtentOf(u.exe, u.f, u.g, i);
      BlockText(u, tail, i, a + 4);
      Regroup(own, CodeFrom(u, b, a + 4), TextAt(u, tail, next));
    }
  }

  /** The emitted blocks, in order, are the text of the function. */
  lemma {:induction false} BlocksAreText(u: Unit, tail: seq<Stmt>, n: nat)
    requires Regular(u) && n <= |u.g.order|
    ensures var at := if n < |u.g.order| then u.g.order[n] else u.f.end;
            && (Within(u.f, at) || at == u.f.end)
            && BlocksCode(u, u.g.order, n) + TextAt(u, tail, at) == TextAt(u, tail, u.f.start)
  {
    if n > 0 {
      BlocksAreText(u, tail, n - 1);
      NextStartAligned(u.f, u.g, n - 1);
      var b := u.g.blocks[u.g.order[n - 1]];
      WholeBlockText(u, tail, n - 1);
      Regroup(BlocksCode(u, u.g.order, n - 1), BlockCode(u, b), TextAt(u, tail, NextStart(u.f, u.g.order, n - 1)));
    }
  }

  lemma WholeBlockText(u: Unit, tail: seq<Stmt>, i: nat)
    requires Regular(u) && i < |u.g.order|
    ensures var next := NextStart(u.f, u.g.order, i);
            && Within(u.f, u.g.order[i]) && (Within(u.f, next) || next == u.f.end)
            && TextAt(u, tail, u.g.order[i]) == BlockCode(u, u.g.blocks[u.g.order[i]]) + TextAt(u, tail, next)
  {
    NextStartAligned(u.f, u.g, i);
    ExtentOf(u.exe, u.f, u.g, i);
    var a := u.g.order[i];
    var b := u.g.blocks[a];
    if SlotInBlock(b) {
      SlotFollowsFlow(u.exe, u.f, u.g, i);
    }
    BlockText(u, tail, i, a);
    Regroup([Label(a)], CodeFrom(u, b, a), TextAt(u, tail, NextStart(u.f, u.g.order, i)));
  }

  /** The body the emitter produces is the text of the function followed by its fall-through. */
  lemma BodyIsText(u: Unit, next: Option<Word>)
    requires Regular(u)
    ensures Body(u, next) == TextAt(u, TailCode(u.g, u.g.order, next), u.f.start)
  {
    BlocksAreText(u, TailCode(u.g, u.g.order, next), |u.g.order|);
  }
}
