/** Labels of an emitted function: every goto names exactly one. */
module Labels {
  import opened Options
  import opened Mips
  import opened ControlFlow
  import opened CodeGenerator
  import opened Layout
  import Text

  function LabelCount(code: seq<Stmt>, l: Word): nat {
    if code == [] then 0 else (if code[0] == Label(l) then 1 else 0) + LabelCount(code[1..], l)
  }

  lemma {:induction false} LabelCountConcat(x: seq<Stmt>, y: seq<Stmt>, l: Word)
    ensures LabelCount(x + y, l) == LabelCount(x, l) + LabelCount(y, l)
  {
    if x == [] {
      assert x + y == y;
    } else {
      assert (x + y)[1..] == x[1..] + y;
      LabelCountConcat(x[1..], y, l);
    }
  }

  lemma {:induction false} NoLabels(code: seq<Stmt>, l: Word)
    requires forall s | s in code :: s != Label(l)
    ensures LabelCount(code, l) == 0
  {
    if code != [] {
      assert code[0] in code && forall s | s in code[1..] :: s in code;
      NoLabels(code[1..], l);
    }
  }

  lemma ExitCodeNoLabels(u: Unit, exit: FlowInstr, succ: seq<Word>, a: Word, l: Word)
    ensures forall s | s in ExitCode(u, exit, succ, a) :: s != Label(l)
  {
  }

  lemma WordLabels(u: Unit, b: BasicBlock, a: Word, w: Word, l: Word)
    ensures LabelCount(WordCode(u, b, a, w), l) == if a == l && a != b.start && a in u.extra then 1 else 0
  {
    var first := if a != b.start && a in u.extra then [Label(a)] else [];
    var rest := if !IsControlFlow(w) then [Exec(a, w)]
                else if a == ExitAddr(b) then ExitCode(u, b.exit, b.succ, a) else [];
    ExitCodeNoLabels(u, b.exit, b.succ, a, l);
    NoLabels(rest, l);
    LabelCountConcat(first, rest, l);
    assert WordCode(u, b, a, w) == first + rest;
  }

  /** The block prints a label for l after its first word. */
  predicate InnerLabel(u: Unit, b: BasicBlock, l: Word) {
    b.start < l <= b.end && l in u.extra && l % 4 == 0 && !(SlotInBlock(b) && l == b.end)
  }

  lemma {:induction false} CodeLabels(u: Unit, b: BasicBlock, a: Word, l: Word)
    requires Placed(u.exe, u.f) && u.f.start <= b.start <= a && a % 4 == 0
    requires b.end < u.f.end && b.end % 4 == 0
    ensures LabelCount(CodeFrom(u, b, a), l) == if a <= l && InnerLabel(u, b, l) then 1 else 0
    decreases if a <= b.end then b.end - a + 4 else 0
  {
    if a <= b.end && !(SlotInBlock(b) && a == b.end) {
      WordsReadable(u.exe, u.f, a);
      CodeLabels(u, b, a + 4, l);
      var w := u.exe.WordAt(a);
      var rest := CodeFrom(u, b, a + 4);
      WordLabels(u, b, a, w, l);
      LabelCountConcat(WordCode(u, b, a, w), rest, l);
      if l % 4 == 0 && a < l { Onward(a, l); }
    }
  }

  lemma Onward(a: int, l: int)
    requires a % 4 == 0 && l % 4 == 0 && a < l
    ensures a + 4 <= l
  {
  }

  lemma BlockLabels(u: Unit, b: BasicBlock, l: Word)
    requires Placed(u.exe, u.f) && u.f.start <= b.start && b.start % 4 == 0
    requires b.end < u.f.end && b.end % 4 == 0
    ensures LabelCount(BlockCode(u, b), l) == if l == b.start || InnerLabel(u, b, l) then 1 else 0
  {
    CodeLabels(u, b, b.start, l);
    LabelCountConcat([Label(b.start)], CodeFrom(u, b, b.start), l);
  }

  lemma BlockBounds(u: Unit, i: nat)
    requires Laid(u.exe, u.f, u.g) && i < |u.g.order|
    ensures var b := u.g.blocks[u.g.order[i]];
            && b.start == u.g.order[i] && b.start % 4 == 0 && u.f.start <= b.start
            && b.end + 4 == NextStart(u.f, u.g.order, i) && b.end < u.f.end && b.end % 4 == 0
  {
    Text.ExtentOf(u.exe, u.f, u.g, i);
  }

  /** Whether the block that covers l prints its label. */
  predicate Printed(u: Unit, i: nat, l: Word)
    requires i < |u.g.order| && u.g.order[i] in u.g.blocks
  {
    l == u.g.order[i] || InnerLabel(u, u.g.blocks[u.g.order[i]], l)
  }

  lemma {:induction false} BlocksLabels(u: Unit, n: nat, k: nat, l: Word)
    requires Laid(u.exe, u.f, u.g) && n <= |u.g.order| && k < |u.g.order| && Covers(u.f, u.g.order, k, l)
    ensures LabelCount(BlocksCode(u, u.g.order, n), l) == if k < n && Printed(u, k, l) then 1 else 0
  {
    if n > 0 {
      BlocksLabels(u, n - 1, k, l);
      var b := u.g.blocks[u.g.order[n - 1]];
      BlockBounds(u, n - 1);
      BlockLabels(u, b, l);
      LabelCountConcat(BlocksCode(u, u.g.order, n - 1), BlockCode(u, b), l);
      if Printed(u, n - 1, l) {
        PrintedCovers(u, n - 1, k, l);
      }
    }
  }

  lemma PrintedCovers(u: Unit, i: nat, k: nat, l: Word)
    requires Laid(u.exe, u.f, u.g) && i < |u.g.order| && k < |u.g.order| && Covers(u.f, u.g.order, k, l)
    requires Printed(u, i, l)
    ensures i == k
  {
    BlockBounds(u, i);
    NextStartAligned(u.f, u.g, i);
    assert Covers(u.f, u.g.order, i, l);
    OneCover(u.f, u.g.order, i, k, l);
  }

  /** l is the last word of a block whose exit is the word before: emitted with the exit. */
  ghost predicate InBlockSlot(u: Unit, l: Word) {
    exists b :: b in u.g.blocks && SlotInBlock(u.g.blocks[b]) && u.g.blocks[b].end == l
  }

  /** How often the emitted function prints each label it was asked for: once, except that it never prints
      an unaligned extra label or one on an in-block delay slot. */
  lemma LabelsPrinted(u: Unit, next: Option<Word>, l: Word)
    requires Laid(u.exe, u.f, u.g) && u.f.start <= l < u.f.end && HasLabel(u, l)
    ensures LabelCount(Emitted(u, next), l) ==
            if l in u.g.blocks || (l % 4 == 0 && !InBlockSlot(u, l)) then 1 else 0
  {
    LabelCountConcat([Intercept(u.f.start)], Body(u, next), l);
    BodyPrints(u, next, l);
  }

  lemma BodyPrints(u: Unit, next: Option<Word>, l: Word)
    requires Laid(u.exe, u.f, u.g) && u.f.start <= l < u.f.end && HasLabel(u, l)
    ensures LabelCount(Body(u, next), l) ==
            if l in u.g.blocks || (l % 4 == 0 && !InBlockSlot(u, l)) then 1 else 0
  {
    var order := u.g.order;
    var k := FindCover(u.f, order, |order|, l);
    BlocksLabels(u, |order|, k, l);
    PrintedWhen(u, k, l);
    LabelCountConcat(BlocksCode(u, order, |order|), TailCode(u.g, order, next), l);
    NoLabels(TailCode(u.g, order, next), l);
  }

  lemma PrintedWhen(u: Unit, k: nat, l: Word)
    requires Laid(u.exe, u.f, u.g) && HasLabel(u, l) && k < |u.g.order| && Covers(u.f, u.g.order, k, l)
    ensures Printed(u, k, l) <==> l in u.g.blocks || (l % 4 == 0 && !InBlockSlot(u, l))
  {
    BlockBounds(u, k);
    NextStartAligned(u.f, u.g, k);
    if l in u.g.blocks {
      NoStartInside(u.f, u.g, k, l);
    } else if InBlockSlot(u, l) {
      var b :| b in u.g.blocks && SlotInBlock(u.g.blocks[b]) && u.g.blocks[b].end == l;
      SlotCovered(u, b, k, l);
    }
  }

  lemma SlotCovered(u: Unit, b: Word, k: nat, l: Word)
    requires Laid(u.exe, u.f, u.g) && b in u.g.blocks && u.g.blocks[b].end == l
    requires k < |u.g.order| && Covers(u.f, u.g.order, k, l)
    ensures b == u.g.order[k]
  {
    assert Within(u.f, b) && Listed(u.g.order, b);
    var i: nat :| i < |u.g.order| && u.g.order[i] == b;
    BlockBounds(u, i);
    NextStartAligned(u.f, u.g, i);
    OneCover(u.f, u.g.order, i, k, l);
  }

  // ---------------------------------------------------------------- gotos and calls

  predicate Goes(d: Dest, l: Word) {
    d == ToBlock(l)
  }

  /** s may jump to label l. */
  predicate Targets(s: Stmt, l: Word) {
    match s
    case IfElse(_, yes, no) => Goes(yes, l) || Goes(no, l)
    case Go(d) => Goes(d, l)
    case Switch(_, cases, default) => l in cases || exists d | d in default :: Targets(d, l)
    case _ => false
  }

  /** s calls function t by name, or leaves by calling it. */
  predicate Names(s: Stmt, t: Word) {
    match s
    case CallFn(f) => f == t
    case IfElse(_, yes, no) => yes == ToFunc(t) || no == ToFunc(t)
    case Go(d) => d == ToFunc(t)
    case Switch(_, _, default) => exists d | d in default :: Names(d, t)
    case _ => false
  }

  /** What a statement refers to is there: labels of this function, functions of the program. */
  ghost predicate Refers(u: Unit, s: Stmt) {
    && (forall l | Targets(s, l) :: HasLabel(u, l))
    && (forall t | Names(s, t) :: t in u.known)
  }

  lemma IndirectRefers(u: Unit, exit: FlowInstr, s: Stmt)
    requires s in IndirectCode(u, exit)
    ensures Refers(u, s)
  {
    var default :=
      [CallReg(Rs(exit.instr))] +
      (if u.f.hasPrologue && u.f.frame > 0 then [AddSp(u.f.frame)] else []) + [ReturnStmt];
    assert forall d | d in default :: d.CallReg? || d.AddSp? || d.ReturnStmt?;
    assert s.Switch? || s in default;
    forall l | Targets(s, l) ensures HasLabel(u, l) {
      assert forall d | d in default :: !Targets(d, l);
      assert s.Switch? && s.cases == Table(u, exit.address, exit.instr) && s.default == default;
      CasesAre(u, u.tables(exit.address, Rs(exit.instr)), l);
    }
  }

  lemma ExitRefers(u: Unit, exit: FlowInstr, succ: seq<Word>, a: Word, s: Stmt)
    requires forall t | t in succ :: t in u.g.blocks
    requires s in ExitCode(u, exit, succ, a)
    ensures Refers(u, s)
  {
    if s in SlotCode(u, exit, a) {
    } else if exit.kind == JumpRegister {
      IndirectRefers(u, exit, s);
    } else if succ != [] {
      assert succ[0] in succ && succ[|succ| - 1] in succ;
    }
  }

  lemma {:induction false} CodeRefers(u: Unit, b: BasicBlock, a: Word, s: Stmt)
    requires u.exe.Valid() && forall t | t in b.succ :: t in u.g.blocks
    requires s in CodeFrom(u, b, a)
    ensures Refers(u, s)
    decreases if a < u.exe.End() then u.exe.End() - a else 0
  {
    var w := u.exe.WordAt(a);
    if s in CodeFrom(u, b, a + 4) {
      CodeRefers(u, b, a + 4, s);
    } else if s in ExitCode(u, b.exit, b.succ, a) {
      ExitRefers(u, b.exit, b.succ, a, s);
    }
  }

  lemma SuccessorsAreBlocks(u: Unit, i: nat)
    requires Laid(u.exe, u.f, u.g) && i < |u.g.order|
    ensures forall t | t in u.g.blocks[u.g.order[i]].succ :: t in u.g.blocks
  {
    assert BlockShape(u.exe, u.f, u.g, i);
  }

  lemma {:induction false} BlocksRefer(u: Unit, n: nat, s: Stmt)
    requires Laid(u.exe, u.f, u.g) && n <= |u.g.order| && s in BlocksCode(u, u.g.order, n)
    ensures Refers(u, s)
  {
    var b := u.g.blocks[u.g.order[n - 1]];
    if s in BlocksCode(u, u.g.order, n - 1) {
      BlocksRefer(u, n - 1, s);
    } else {
      SuccessorsAreBlocks(u, n - 1);
      BlockRefers(u, b, s);
    }
  }

  lemma BlockRefers(u: Unit, b: BasicBlock, s: Stmt)
    requires u.exe.Valid() && forall t | t in b.succ :: t in u.g.blocks
    requires s in BlockCode(u, b)
    ensures Refers(u, s)
  {
    if s in CodeFrom(u, b, b.start) {
      CodeRefers(u, b, b.start, s);
    }
  }

  /** Every goto of the function names a label that was asked for. */
  lemma GotosRefer(u: Unit, next: Option<Word>, s: Stmt, l: Word)
    requires Laid(u.exe, u.f, u.g) && s in Emitted(u, next) && Targets(s, l)
    ensures HasLabel(u, l)
  {
    if s in BlocksCode(u, u.g.order, |u.g.order|) {
      BlocksRefer(u, |u.g.order|, s);
    }
  }

  /** Every call by name in the function names a known function or the one that follows. */
  lemma CallsRefer(u: Unit, next: Option<Word>, s: Stmt, t: Word)
    requires Laid(u.exe, u.f, u.g) && s in Emitted(u, next) && Names(s, t)
    ensures t in u.known || next == Some(t)
  {
    if s in BlocksCode(u, u.g.order, |u.g.order|) {
      BlocksRefer(u, |u.g.order|, s);
    }
  }

  /** The extra labels lie in the function; the condition is the one under which the emitter
      prints them. */
  ghost predicate ExtraOk(u: Unit) {
    forall l {:trigger InBlockSlot(u, l)} | l in u.extra ::
      u.f.start <= l < u.f.end && (l in u.g.blocks || (l % 4 == 0 && !InBlockSlot(u, l)))
  }

  /** Every goto names exactly one label of the same function. */
  lemma GotosClosed(u: Unit, next: Option<Word>, s: Stmt, l: Word)
    requires Laid(u.exe, u.f, u.g) && ExtraOk(u) && s in Emitted(u, next) && Targets(s, l)
    ensures LabelCount(Emitted(u, next), l) == 1
  {
    GotosRefer(u, next, s, l);
    assert l in u.g.blocks ==> Within(u.f, l);
    assert l in u.extra ==> InBlockSlot(u, l) || !InBlockSlot(u, l);
    LabelsPrinted(u, next, l);
  }
}
