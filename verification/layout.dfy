/** How the blocks of a graph lie in the function: they tile it, and no control flow is lost. */
module Layout {
  import opened Mips
  import opened Executable
  import opened ControlFlow
  import opened CodeGenerator

  /** A non-empty, word-aligned function inside the code of the executable. */
  predicate Placed(exe: Exe, f: Func) {
    && exe.Valid()
    && exe.load <= f.start < f.end <= exe.End()
    && f.start % 4 == 0 && f.end % 4 == 0
  }

  /** a is the address of one of the function's words. */
  predicate Within(f: Func, a: int) {
    f.start <= a < f.end && a % 4 == 0
  }

  lemma WordsReadable(exe: Exe, f: Func, a: Word)
    requires Placed(exe, f) && Within(f, a)
    ensures exe.Readable(a) && a + 4 <= f.end
    ensures a < 0x8020_0000
  {
    exe.AddressBounds();
  }

  predicate FlowAt(exe: Exe, a: int) {
    0 <= a < 0x1_0000_0000 && exe.Readable(a) && IsControlFlow(exe.WordAt(a))
  }

  /** No delay slot of a control-flow word of f holds control flow itself. */
  ghost predicate NoFlowInSlots(exe: Exe, f: Func) {
    forall a: Word {:trigger PlainSlot(exe, a)} | Within(f, a) :: PlainSlot(exe, a)
  }

  predicate PlainSlot(exe: Exe, a: Word) {
    FlowAt(exe, a) ==> !FlowAt(exe, a + 4)
  }

  // ---------------------------------------------------------------- boundaries

  lemma TargetAligned(a: Word, w: Word)
    requires a % 4 == 0
    ensures Analyze(a, w).target % 4 == 0
  {
  }

  lemma MarksWithin(f: Func, a: Word, w: Word, x: Word)
    requires a % 4 == 0 && f.start <= a < 0x8020_0000
    requires x in Marks(f, Analyze(a, w))
    ensures Within(f, x)
  {
    TargetAligned(a, w);
  }

  lemma {:induction false} ScanKeeps(exe: Exe, f: Func, found: set<Word>, a: Word)
    requires exe.Valid()
    ensures found <= Scan(exe, f, found, a)
    decreases if a < exe.End() then exe.End() - a else 0
  {
    if a < f.end && exe.Readable(a) {
      ScanKeeps(exe, f, found + Marks(f, Analyze(a, exe.WordAt(a))), a + 4);
    }
  }

  /** Every word of the function is scanned, and its marks are boundaries. */
  lemma {:induction false} ScanMarks(exe: Exe, f: Func, found: set<Word>, a: Word, i: Word)
    requires Placed(exe, f) && Within(f, a) && Within(f, i) && a <= i
    ensures exe.Readable(i)
    ensures Marks(f, Analyze(i, exe.WordAt(i))) <= Scan(exe, f, found, a)
    decreases i - a
  {
    WordsReadable(exe, f, a);
    WordsReadable(exe, f, i);
    var more := found + Marks(f, Analyze(a, exe.WordAt(a)));
    if a == i {
      ScanKeeps(exe, f, more, a + 4);
    } else {
      ScanMarks(exe, f, more, a + 4, i);
    }
  }

  /** Boundaries are addresses of words of the function. */
  lemma {:induction false} ScanWithin(exe: Exe, f: Func, found: set<Word>, a: Word, x: Word)
    requires Placed(exe, f) && f.start <= a && a % 4 == 0
    requires x in Scan(exe, f, found, a)
    ensures x in found || Within(f, x)
    decreases if a < exe.End() then exe.End() - a else 0
  {
    exe.AddressBounds();
    if a < f.end && exe.Readable(a) {
      var marks := Marks(f, Analyze(a, exe.WordAt(a)));
      if x in marks {
        MarksWithin(f, a, exe.WordAt(a), x);
      } else {
        ScanWithin(exe, f, found + marks, a + 4, x);
      }
    }
  }

  lemma BoundaryWithin(exe: Exe, f: Func, x: Word)
    requires Placed(exe, f) && x in Boundaries(exe, f)
    ensures Within(f, x)
  {
    ScanWithin(exe, f, {f.start}, f.start, x);
  }

  lemma StartIsBoundary(exe: Exe, f: Func)
    requires Placed(exe, f)
    ensures f.start in Boundaries(exe, f)
  {
    ScanKeeps(exe, f, {f.start}, f.start);
  }

  /** A control-flow word makes a boundary of its target and of the word after its slot,
      as far as they lie in the function. */
  lemma FlowMakesBoundaries(exe: Exe, f: Func, a: Word)
    requires Placed(exe, f) && Within(f, a) && FlowAt(exe, a)
    ensures a + 8 < f.end ==> a + 8 in Boundaries(exe, f)
    ensures var t := Analyze(a, exe.WordAt(a)).target;
            t != 0 && f.start <= t < f.end ==> t in Boundaries(exe, f)
  {
    WordsReadable(exe, f, a);
    ScanMarks(exe, f, {f.start}, f.start, a);
    MarksAre(f, a, exe.WordAt(a));
  }

  lemma MarksAre(f: Func, a: Word, w: Word)
    requires IsControlFlow(w) && a < 0x8020_0000
    ensures a + 8 < f.end ==> a + 8 in Marks(f, Analyze(a, w))
    ensures var t := Analyze(a, w).target;
            t != 0 && f.start <= t < f.end ==> t in Marks(f, Analyze(a, w))
  {
    assert Analyze(a, w).address == a;
  }

  // ---------------------------------------------------------------- the graph's blocks

  lemma GraphKeys(exe: Exe, f: Func)
    requires exe.Valid()
    ensures GraphOf(exe, f).blocks.Keys == Boundaries(exe, f)
    ensures GraphOf(exe, f).order == Ascending(Boundaries(exe, f))
    ensures Strict(GraphOf(exe, f).order)
  {
    var keys := Boundaries(exe, f);
    var order := Ascending(keys);
    AscendingIsStrict(keys);
    var cut := Cut(exe, f, order, |order|);
    forall x ensures x in cut <==> x in keys {
      if x in cut { CutKeys(exe, f, order, |order|, x); }
      if x in keys {
        AscendingHasAll(keys, x);
        var i :| 0 <= i < |order| && order[i] == x;
        CutAt(exe, f, order, |order|, i);
      }
    }
    assert cut.Keys == keys;
  }

  /** Where the i-th block ends, exclusively. */
  function NextStart(f: Func, order: seq<Word>, i: nat): Word
    requires i < |order|
  {
    if i + 1 < |order| then order[i + 1] else f.end
  }

  /** The i-th block of the graph: its extent, its exit and its successors. */
  lemma GraphBlock(exe: Exe, f: Func, i: nat)
    requires Placed(exe, f) && i < |GraphOf(exe, f).order|
    ensures var g := GraphOf(exe, f);
            var b := g.blocks[g.order[i]];
            && b.start == g.order[i]
            && b.end == Back(NextStart(f, g.order, i))
            && b.exit == ExitInstr(exe, b.start, b.end)
            && b.isEntry == (b.start == f.start)
            && b.succ == Successors(g.blocks.Keys, b.exit, b.end)
  {
    GraphKeys(exe, f);
    var keys := Boundaries(exe, f);
    var order := Ascending(keys);
    var cut := Cut(exe, f, order, |order|);
    CutAt(exe, f, order, |order|, i);
    LinkCut(exe, f, i);
    var linked := Link(cut, order, |order|);
    MarkIs(linked, AllBackEdges(linked, order, |order|), order[i]);
  }

  lemma LinkCut(exe: Exe, f: Func, i: nat)
    requires Placed(exe, f)
    requires i < |Ascending(Boundaries(exe, f))|
    ensures var keys := Boundaries(exe, f);
            var order := Ascending(keys);
            var cut := Cut(exe, f, order, |order|);
            && cut.Keys == keys
            && SameShape(cut[order[i]], Link(cut, order, |order|)[order[i]])
            && Link(cut, order, |order|)[order[i]].succ == Successors(keys, cut[order[i]].exit, cut[order[i]].end)
  {
    GraphKeys(exe, f);
    var keys := Boundaries(exe, f);
    var order := Ascending(keys);
    var cut := Cut(exe, f, order, |order|);
    assert cut.Keys == keys;
    CutAt(exe, f, order, |order|, i);
    LinkAt(cut, order, |order|, i);
    var succ := Successors(keys, cut[order[i]].exit, cut[order[i]].end);
    assert [] + succ == succ;
  }

  /** The shape of the i-th block: its extent, its exit and its successors. */
  ghost predicate BlockShape(exe: Exe, f: Func, g: Graph, i: nat)
    requires i < |g.order| && g.order[i] in g.blocks
  {
    var b := g.blocks[g.order[i]];
    && b.start == g.order[i]
    && b.end == Back(NextStart(f, g.order, i))
    && b.exit == ExitInstr(exe, b.start, b.end)
    && b.isEntry == (b.start == f.start)
    && b.succ == Successors(g.blocks.Keys, b.exit, b.end)
  }

  /** A control-flow word has blocks start at its target and past its slot, if in the function. */
  predicate FlowMarked(exe: Exe, f: Func, g: Graph, a: Word) {
    FlowAt(exe, a) ==>
      var t := Analyze(a, exe.WordAt(a)).target;
      && (a + 8 < f.end ==> a + 8 in g.blocks)
      && (t != 0 && f.start <= t < f.end ==> t in g.blocks)
  }

  ghost predicate OrderShape(f: Func, g: Graph) {
    && |g.order| > 0 && g.order[0] == f.start && Strict(g.order)
    && (forall i | 0 <= i < |g.order| :: g.order[i] in g.blocks)
    && (forall x {:trigger Within(f, x)} | x in g.blocks :: Within(f, x))
    && (forall x {:trigger Listed(g.order, x)} | x in g.blocks :: Listed(g.order, x))
  }

  ghost predicate Listed(order: seq<Word>, x: Word) {
    exists k: nat :: k < |order| && order[k] == x
  }

  /** What later proofs use of a function's graph. */
  ghost predicate Laid(exe: Exe, f: Func, g: Graph) {
    && Placed(exe, f)
    && g.start == f.start && g.end == f.end
    && OrderShape(f, g)
    && (forall a: Word {:trigger FlowMarked(exe, f, g, a)} | Within(f, a) :: FlowMarked(exe, f, g, a))
    && (forall i: nat {:trigger BlockShape(exe, f, g, i)} | i < |g.order| :: BlockShape(exe, f, g, i))
    && Converse(g.blocks)
  }

  lemma OrderFacts(exe: Exe, f: Func)
    requires Placed(exe, f)
    ensures OrderShape(f, GraphOf(exe, f))
  {
    GraphKeys(exe, f);
    var keys := Boundaries(exe, f);
    var order := Ascending(keys);
    StartIsBoundary(exe, f);
    forall x | x in keys ensures Within(f, x) && Listed(order, x) {
      BoundaryWithin(exe, f, x);
      AscendingHasAll(keys, x);
    }
    assert Listed(order, f.start);
    var k: nat :| k < |order| && order[k] == f.start;
    assert Within(f, order[0]);
    assert k > 0 ==> Below(order, 0, k);
  }

  lemma CutHasNoEdges(exe: Exe, f: Func, order: seq<Word>, n: nat)
    requires n <= |order|
    ensures forall a | a in Cut(exe, f, order, n) ::
              Cut(exe, f, order, n)[a].succ == [] && Cut(exe, f, order, n)[a].pred == []
  {
  }

  lemma GraphConverse(exe: Exe, f: Func)
    requires Placed(exe, f)
    ensures Converse(GraphOf(exe, f).blocks)
  {
    GraphKeys(exe, f);
    var order := Ascending(Boundaries(exe, f));
    var cut := Cut(exe, f, order, |order|);
    var keys := Ascending(cut.Keys);
    CutHasNoEdges(exe, f, order, |order|);
    assert Converse(cut) by {
      forall a, b | a in cut && b in cut ensures ConverseAt(cut, a, b) {
      }
    }
    LinkConverse(cut, keys, |keys|);
    var linked := Link(cut, keys, |keys|);
    MarkConverse(linked, AllBackEdges(linked, keys, |keys|));
  }

  lemma MarkConverse(linked: Blocks, loops: seq<Edge>)
    requires Converse(linked)
    ensures Converse(Mark(linked, loops))
  {
    var marked := Mark(linked, loops);
    forall a, b | a in marked && b in marked ensures ConverseAt(marked, a, b) {
      assert ConverseAt(linked, a, b);
      MarkIs(linked, loops, a);
      MarkIs(linked, loops, b);
    }
  }

  /** The graph that the analysis computes has all these properties. */
  lemma GraphIsLaid(exe: Exe, f: Func)
    requires Placed(exe, f)
    ensures Laid(exe, f, GraphOf(exe, f))
  {
    var g := GraphOf(exe, f);
    GraphKeys(exe, f);
    OrderFacts(exe, f);
    GraphConverse(exe, f);
    forall i: nat | i < |g.order| ensures BlockShape(exe, f, g, i) {
      GraphBlock(exe, f, i);
    }
    forall a: Word | Within(f, a) ensures FlowMarked(exe, f, g, a) {
      if FlowAt(exe, a) {
        FlowMakesBoundaries(exe, f, a);
      }
    }
  }

  // ---------------------------------------------------------------- tiling

  /** The i-th block covers address a. */
  predicate Covers(f: Func, order: seq<Word>, i: nat, a: int)
    requires i < |order|
  {
    order[i] <= a < NextStart(f, order, i)
  }

  lemma {:induction false} FindCover(f: Func, order: seq<Word>, n: nat, a: int) returns (i: nat)
    requires 0 < n <= |order| && order[0] <= a && a < (if n < |order| then order[n] else f.end)
    ensures i < n && Covers(f, order, i, a)
  {
    if n == 1 || order[n - 1] <= a {
      i := n - 1;
    } else {
      i := FindCover(f, order, n - 1, a);
    }
  }

  lemma StrictAt(order: seq<Word>, i: nat, j: nat)
    requires Strict(order) && i < j < |order|
    ensures order[i] < order[j]
  {
    assert Below(order, i, j);
  }

  lemma OneCover(f: Func, order: seq<Word>, i: nat, j: nat, a: int)
    requires Strict(order) && i < |order| && j < |order| && Covers(f, order, i, a) && Covers(f, order, j, a)
    ensures i == j
  {
    if i + 1 < j { StrictAt(order, i + 1, j); }
    if j + 1 < i { StrictAt(order, j + 1, i); }
  }

  /** Blocks tile the function: each word of it is covered by one block and by no other. */
  lemma BlocksTile(exe: Exe, f: Func, g: Graph, a: Word)
    requires Laid(exe, f, g) && Within(f, a)
    ensures exists i: nat :: i < |g.order| && Covers(f, g.order, i, a)
    ensures forall i: nat, j: nat {:trigger Covers(f, g.order, i, a), Covers(f, g.order, j, a)} |
              i < |g.order| && j < |g.order| && Covers(f, g.order, i, a) && Covers(f, g.order, j, a) :: i == j
  {
    var i := FindCover(f, g.order, |g.order|, a);
    forall i: nat, j: nat | i < |g.order| && j < |g.order| && Covers(f, g.order, i, a) && Covers(f, g.order, j, a)
      ensures i == j
    {
      OneCover(f, g.order, i, j, a);
    }
  }

  /** No block starts strictly inside another. */
  lemma NoStartInside(f: Func, g: Graph, i: nat, x: Word)
    requires OrderShape(f, g) && i < |g.order| && x in g.blocks
    ensures !(g.order[i] < x < NextStart(f, g.order, i))
  {
    assert Listed(g.order, x) && Within(f, x);
    var k: nat :| k < |g.order| && g.order[k] == x;
    if k < i { StrictAt(g.order, k, i); }
    if i + 1 < k { StrictAt(g.order, i + 1, k); }
  }

  // ---------------------------------------------------------------- no control flow is lost

  lemma NextStartAligned(f: Func, g: Graph, i: nat)
    requires OrderShape(f, g) && i < |g.order| && f.end % 4 == 0
    ensures Within(f, g.order[i])
    ensures g.order[i] < NextStart(f, g.order, i) <= f.end && NextStart(f, g.order, i) % 4 == 0
  {
    assert Within(f, g.order[i]);
    if i + 1 < |g.order| {
      assert Below(g.order, i, i + 1);
      assert Within(f, g.order[i + 1]);
    }
  }

  lemma NearEnd(a: int, n: int)
    requires a % 4 == 0 && n % 4 == 0 && a < n <= a + 8
    ensures n == a + 4 || n == a + 8
  {
  }

  /** A control-flow word sits at the last or last but one address of its block. */
  lemma FlowNearEnd(exe: Exe, f: Func, g: Graph, i: nat, a: Word)
    requires Laid(exe, f, g) && Within(f, a) && FlowAt(exe, a)
    requires i < |g.order| && Covers(f, g.order, i, a)
    ensures NextStart(f, g.order, i) == a + 4 || NextStart(f, g.order, i) == a + 8
  {
    assert FlowMarked(exe, f, g, a);
    NextStartAligned(f, g, i);
    var n := NextStart(f, g.order, i);
    assert n <= a + 8 by {
      if a + 8 < f.end {
        NoStartInside(f, g, i, a + 8);
      }
    }
    NearEnd(a, n);
  }

  lemma ExitNearEnd(exe: Exe, start: Word, next: Word, a: Word)
    requires start <= a && FlowAt(exe, a) && PlainSlot(exe, a)
    requires next == a + 4 || (next == a + 8 && exe.Readable(a + 4))
    ensures ExitInstr(exe, start, Back(next)) == Analyze(a, exe.WordAt(a))
  {
  }

  lemma FlowDecidesExit(exe: Exe, f: Func, g: Graph, i: nat, a: Word)
    requires Laid(exe, f, g) && NoFlowInSlots(exe, f) && Within(f, a) && FlowAt(exe, a)
    requires i < |g.order| && Covers(f, g.order, i, a)
    ensures g.blocks[g.order[i]].exit == Analyze(a, exe.WordAt(a))
    ensures g.blocks[g.order[i]].end == a || g.blocks[g.order[i]].end == a + 4
  {
    FlowNearEnd(exe, f, g, i, a);
    SlotReadable(exe, f, g, i, a);
    assert BlockShape(exe, f, g, i);
    assert PlainSlot(exe, a);
    ShapeDecides(exe, f, g, i, a, NextStart(f, g.order, i));
  }

  lemma SlotReadable(exe: Exe, f: Func, g: Graph, i: nat, a: Word)
    requires Placed(exe, f) && OrderShape(f, g) && i < |g.order| && Within(f, a)
    ensures NextStart(f, g.order, i) == a + 8 ==> exe.Readable(a + 4)
  {
    NextStartAligned(f, g, i);
    if NextStart(f, g.order, i) == a + 8 {
      SlotInside(exe, f, a);
    }
  }

  lemma SlotInside(exe: Exe, f: Func, a: Word)
    requires Placed(exe, f) && Within(f, a) && a + 8 <= f.end
    ensures exe.Readable(a + 4)
  {
    WordsReadable(exe, f, a + 4);
  }

  lemma ShapeDecides(exe: Exe, f: Func, g: Graph, i: nat, a: Word, next: Word)
    requires i < |g.order| && g.order[i] in g.blocks && BlockShape(exe, f, g, i)
    requires g.order[i] <= a && next == NextStart(f, g.order, i) && FlowAt(exe, a) && PlainSlot(exe, a)
    requires next == a + 4 || (next == a + 8 && exe.Readable(a + 4))
    ensures g.blocks[g.order[i]].exit == Analyze(a, exe.WordAt(a))
    ensures g.blocks[g.order[i]].end == a || g.blocks[g.order[i]].end == a + 4
  {
    ExitNearEnd(exe, g.order[i], next, a);
    assert Back(next) == next - 4;
  }

  lemma ExitAddrOf(b: BasicBlock, a: Word)
    requires b.exit.hasSlot && b.exit.kind != Sequential && b.exit.address == a
    requires b.end == a || b.end == a + 4
    ensures ExitAddr(b) == a && (SlotInBlock(b) <==> b.end == a + 4)
  {
  }

  /** A block holds at most one control-flow word; it is the block's exit, at exactly the
      address where the emitter looks for it. */
  lemma FlowIsExit(exe: Exe, f: Func, g: Graph, i: nat, a: Word)
    requires Laid(exe, f, g) && NoFlowInSlots(exe, f) && Within(f, a) && FlowAt(exe, a)
    requires i < |g.order| && Covers(f, g.order, i, a)
    ensures var b := g.blocks[g.order[i]];
            a == ExitAddr(b) && b.exit == Analyze(a, exe.WordAt(a))
  {
    FlowDecidesExit(exe, f, g, i, a);
    ExitAddrOf(g.blocks[g.order[i]], a);
  }

  lemma SequentialHoldsNoFlow(exe: Exe, f: Func, g: Graph, i: nat, a: Word)
    requires Laid(exe, f, g) && NoFlowInSlots(exe, f) && Within(f, a)
    requires i < |g.order| && Covers(f, g.order, i, a)
    requires g.blocks[g.order[i]].exit.kind == Sequential
    ensures !FlowAt(exe, a)
  {
    if FlowAt(exe, a) {
      FlowIsExit(exe, f, g, i, a);
    }
  }

  lemma NextOf(keys: set<Word>, exit: FlowInstr, last: Word, next: Word)
    requires exit.kind == Sequential && last + 4 == next
    ensures Successors(keys, exit, last) == if next in keys then [next] else []
  {
  }

  /** A block whose exit is sequential runs on into the block that the text puts next to it,
      or off the end of the function. */
  lemma SequentialSuccessor(exe: Exe, f: Func, g: Graph, i: nat)
    requires Laid(exe, f, g) && i < |g.order|
    requires g.blocks[g.order[i]].exit.kind == Sequential
    ensures g.blocks[g.order[i]].succ == if i + 1 < |g.order| then [g.order[i + 1]] else []
  {
    assert BlockShape(exe, f, g, i);
    NextStartAligned(f, g, i);
    var b := g.blocks[g.order[i]];
    NextOf(g.blocks.Keys, b.exit, b.end, NextStart(f, g.order, i));
    assert f.end in g.blocks ==> Within(f, f.end);
  }
}
