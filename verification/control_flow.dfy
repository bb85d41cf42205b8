/** Basic blocks and the control-flow graph of one function. */
module ControlFlow {
  import opened Mips
  import opened Executable

  datatype FlowKind = Sequential | Branch | Jump | JumpLink | JumpRegister | JumpLinkReg | Return

  datatype FlowInstr = FlowInstr(address: Word, instr: Word, kind: FlowKind, target: Word,
                                 hasSlot: bool, isLikely: bool)

  datatype Func = Func(start: Word, end: Word, name: string, hasPrologue: bool, hasEpilogue: bool,
                       frame: int, isData: bool)

  datatype BasicBlock = BasicBlock(start: Word, end: Word, count: int, exit: FlowInstr,
                                   succ: seq<Word>, pred: seq<Word>,
                                   isEntry: bool, isExit: bool, isLoopHeader: bool)

  type Blocks = map<Word, BasicBlock>

  datatype Edge = Edge(header: Word, source: Word)

  datatype Graph = Graph(start: Word, end: Word, blocks: map<Word, BasicBlock>,
                         order: seq<Word>, loops: seq<Edge>)

  // ---------------------------------------------------------------- single instructions

  predicate IsControlFlow(w: Word) {
    var op := Opcode(w);
    if op == 0 then Funct(w) == 8 || Funct(w) == 9
    else op == 1 || 4 <= op <= 7 || 0x14 <= op <= 0x17 || op == 2 || op == 3
  }

  function BranchTarget(pc: Word, w: Word): Word {
    Wrap(pc + 4 + 4 * Imm(w))
  }

  function JumpTarget(pc: Word, w: Word): Word {
    Wrap(pc + 4) / 0x1000_0000 * 0x1000_0000 + 4 * (w % 0x400_0000)
  }

  /** The two classifiers agree: a word is control flow exactly when it analyses to a kind. */
  function Analyze(a: Word, w: Word): (cf: FlowInstr)
    ensures cf.kind != Sequential <==> IsControlFlow(w)
    ensures cf.hasSlot <==> IsControlFlow(w)
    ensures cf.isLikely ==> cf.kind == Branch
  {
    var op := Opcode(w);
    if op == 0 && Funct(w) == 8 then
      FlowInstr(a, w, if Rs(w) == RA then Return else JumpRegister, 0, true, false)
    else if op == 0 && Funct(w) == 9 then
      FlowInstr(a, w, JumpLinkReg, 0, true, false)
    else if op == 1 || 4 <= op <= 7 then
      FlowInstr(a, w, Branch, BranchTarget(a, w), true, false)
    else if 0x14 <= op <= 0x17 then
      FlowInstr(a, w, Branch, BranchTarget(a, w), true, true)
    else if op == 2 then
      FlowInstr(a, w, Jump, JumpTarget(a, w), true, false)
    else if op == 3 then
      FlowInstr(a, w, JumpLink, JumpTarget(a, w), true, false)
    else
      FlowInstr(a, w, Sequential, 0, false, false)
  }

  // ---------------------------------------------------------------- ordered sets of addresses

  lemma LeastOf(s: set<Word>) returns (m: Word)
    requires s != {}
    ensures m in s && forall x | x in s :: m <= x
    decreases s
  {
    m :| m in s;
    var below := set x | x in s && x < m;
    if below == {} {
      assert forall x | x in s :: x < m ==> x in below;
    } else {
      assert m !in below;
      var y := m;
      m := LeastOf(below);
      forall x | x in s ensures m <= x {
        if x < y { assert x in below; }
      }
    }
  }

  lemma LeastExists(s: set<Word>)
    requires s != {}
    ensures exists m :: m in s && forall x | x in s :: m <= x
  {
    var m := LeastOf(s);
  }

  function Least(s: set<Word>): (m: Word)
    requires s != {}
    ensures m in s && forall x | x in s :: m <= x
  {
    LeastExists(s);
    var m :| m in s && forall x | x in s :: m <= x;
    m
  }

  /** A set of addresses listed in ascending order. */
  function Ascending(s: set<Word>): (q: seq<Word>)
    ensures forall i | 0 <= i < |q| :: q[i] in s
    decreases s
  {
    if s == {} then []
    else
      var m := Least(s);
      [m] + Ascending(s - {m})
  }

  predicate Below(order: seq<Word>, i: nat, j: nat)
    requires i < |order| && j < |order|
  {
    order[i] < order[j]
  }

  predicate Strict(order: seq<Word>) {
    forall i: nat, j: nat {:trigger Below(order, i, j)} | i < j < |order| :: Below(order, i, j)
  }

  lemma {:induction false} AscendingIsStrict(s: set<Word>)
    ensures Strict(Ascending(s))
    decreases s
  {
    if s != {} {
      var rest := Ascending(s - {Least(s)});
      AscendingIsStrict(s - {Least(s)});
      forall i: nat, j: nat | i < j < |Ascending(s)| ensures Below(Ascending(s), i, j) {
        assert i > 0 ==> Below(rest, i - 1, j - 1);
      }
    }
  }

  lemma {:induction false} AscendingHasAll(s: set<Word>, x: Word)
    requires x in s
    ensures x in Ascending(s)
    decreases s
  {
    if x != Least(s) {
      AscendingHasAll(s - {Least(s)}, x);
    }
  }

  // ---------------------------------------------------------------- block boundaries

  /** The boundaries that one control-flow word contributes. */
  function Marks(f: Func, cf: FlowInstr): set<Word> {
    if cf.kind == Sequential then {}
    else
      (if cf.target != 0 && f.start <= cf.target < f.end then {cf.target} else {}) +
      (if Wrap(cf.address + 8) < f.end then {Wrap(cf.address + 8)} else {})
  }

  /** The boundary set after scanning from address a on, given the set collected before. */
  function Scan(exe: Exe, f: Func, found: set<Word>, a: Word): set<Word>
    requires exe.Valid()
    decreases if a < exe.End() then exe.End() - a else 0
  {
    if a >= f.end || !exe.Readable(a) then found
    else Scan(exe, f, found + Marks(f, Analyze(a, exe.WordAt(a))), a + 4)
  }

  function Boundaries(exe: Exe, f: Func): set<Word>
    requires exe.Valid()
  {
    Scan(exe, f, {f.start}, f.start)
  }

  method AddMarks(f: Func, found: set<Word>, a: Word, word: Word) returns (boundaries: set<Word>)
    ensures boundaries == found + Marks(f, Analyze(a, word))
  {
    boundaries := found;
    if IsControlFlow(word) {
      var cf := Analyze(a, word);
      if cf.target != 0 && f.start <= cf.target < f.end {
        boundaries := boundaries + {cf.target};
      }
      if cf.kind == Branch || cf.kind == JumpLink || cf.kind == JumpLinkReg {
        var fallThrough := Wrap(a + 8);
        if fallThrough < f.end {
          boundaries := boundaries + {fallThrough};
        }
      }
      if cf.kind == Jump || cf.kind == JumpRegister || cf.kind == Return {
        var afterDelay := Wrap(a + 8);
        if afterDelay < f.end {
          boundaries := boundaries + {afterDelay};
        }
      }
    }
  }

  method FindBlockBoundaries(exe: Exe, f: Func) returns (boundaries: set<Word>)
    requires exe.Valid()
    ensures boundaries == Boundaries(exe, f)
  {
    boundaries := {f.start};
    var a: int := f.start;
    while a < f.end
      invariant 0 <= a < 0x1_0000_0000
      invariant Scan(exe, f, boundaries, a) == Boundaries(exe, f)
      decreases if a < exe.End() then exe.End() - a else 0
    {
      var word := exe.ReadWord(a);
      if word.None? {
        break;
      }
      boundaries := AddMarks(f, boundaries, a, word.value);
      a := a + 4;
    }
  }

  // ---------------------------------------------------------------- blocks

  /** The address of the word before a, with 32-bit wrap-around. */
  function Back(a: Word): Word {
    if a < 4 then a + (0x1_0000_0000 - 4) else a - 4
  }

  /** The instruction that decides how a block ends: its last word, or the word before
      it when the last word is that word's delay slot. */
  function ExitInstr(exe: Exe, start: Word, last: Word): FlowInstr {
    match exe.ReadWord(last)
    case None => FlowInstr(0, 0, Sequential, 0, false, false)
    case Some(w) =>
      var cf := Analyze(last, w);
      if cf.kind == Sequential && last > start && exe.Readable(Back(last)) then
        var before := Analyze(Back(last), exe.WordAt(Back(last)));
        if before.kind != Sequential && before.hasSlot then before else cf
      else cf
  }

  /** A block that ends in the given word has a word for each four bytes. */
  lemma LengthInWords(start: Word, last: Word)
    requires start <= last && start % 4 == last % 4
    ensures 4 * BlockLength(start, last) == last + 4 - start
  {
  }

  function BlockLength(start: Word, last: Word): int {
    var bytes: int := Wrap(last - start);
    bytes / 4 + 1
  }

  function MakeBlock(exe: Exe, f: Func, start: Word, last: Word): BasicBlock {
    var exit := ExitInstr(exe, start, last);
    BasicBlock(start, last, BlockLength(start, last), exit, [], [],
               start == f.start, exit.kind == Return, false)
  }

  /** The last address of the block that starts at the i-th boundary. */
  function LastOf(f: Func, order: seq<Word>, i: nat): Word
    requires i < |order|
  {
    if i + 1 < |order| then Back(order[i + 1]) else Back(f.end)
  }

  method FindExit(exe: Exe, start: Word, last: Word) returns (exit: FlowInstr, isExit: bool)
    ensures exit == ExitInstr(exe, start, last)
    ensures isExit <==> exit.kind == Return
  {
    exit := FlowInstr(0, 0, Sequential, 0, false, false);
    isExit := false;
    var word := exe.ReadWord(last);
    if word.Some? {
      exit := Analyze(last, word.value);
      if exit.kind == Sequential && last > start {
        var before := exe.ReadWord(Back(last));
        if before.Some? {
          var cf := Analyze(Back(last), before.value);
          if cf.kind != Sequential && cf.hasSlot {
            exit := cf;
          }
        }
      }
      isExit := exit.kind == Return;
    }
  }

  /** The blocks cut at the first n boundaries, with no edges yet. */
  function Cut(exe: Exe, f: Func, order: seq<Word>, n: nat): Blocks
    requires n <= |order|
  {
    if n == 0 then map[]
    else Cut(exe, f, order, n - 1)[order[n - 1] := MakeBlock(exe, f, order[n - 1], LastOf(f, order, n - 1))]
  }

  method BuildBasicBlocks(exe: Exe, f: Func, boundaries: set<Word>) returns (blocks: Blocks)
    ensures var order := Ascending(boundaries);
            blocks == Cut(exe, f, order, |order|)
  {
    blocks := map[];
    var order := Ascending(boundaries);
    for i := 0 to |order|
      invariant blocks == Cut(exe, f, order, i)
    {
      var start := order[i];
      var last := LastOf(f, order, i);
      var exit, isExit := FindExit(exe, start, last);
      blocks := blocks[start := BasicBlock(start, last, BlockLength(start, last), exit, [], [],
                                           start == f.start, isExit, false)];
    }
  }

  /** Each boundary starts one block, and it is the one MakeBlock describes. */
  lemma {:induction false} CutAt(exe: Exe, f: Func, order: seq<Word>, n: nat, i: nat)
    requires i < n <= |order| && Strict(order)
    ensures order[i] in Cut(exe, f, order, n)
    ensures Cut(exe, f, order, n)[order[i]] == MakeBlock(exe, f, order[i], LastOf(f, order, i))
  {
    if i < n - 1 {
      assert Below(order, i, n - 1);
      CutAt(exe, f, order, n - 1, i);
    }
  }

  lemma {:induction false} CutKeys(exe: Exe, f: Func, order: seq<Word>, n: nat, a: Word)
    requires n <= |order| && a in Cut(exe, f, order, n)
    ensures a in order
  {
    if n > 0 && a != order[n - 1] {
      CutKeys(exe, f, order, n - 1, a);
    }
  }

  // ---------------------------------------------------------------- edges

  function After(keys: set<Word>, exit: FlowInstr): seq<Word> {
    if Wrap(exit.address + 8) in keys then [Wrap(exit.address + 8)] else []
  }

  function Taken(keys: set<Word>, exit: FlowInstr): seq<Word> {
    if exit.target != 0 && exit.target in keys then [exit.target] else []
  }

  /** Where control can go from a block, among the addresses that start a block. */
  function Successors(keys: set<Word>, exit: FlowInstr, last: Word): seq<Word> {
    match exit.kind
    case Branch => Taken(keys, exit) + After(keys, exit)
    case Jump => Taken(keys, exit)
    case JumpLink => After(keys, exit)
    case JumpLinkReg => After(keys, exit)
    case JumpRegister => []
    case Return => []
    case Sequential => if Wrap(last + 4) in keys then [Wrap(last + 4)] else []
  }

  function AddEdge(blocks: Blocks, s: Word, t: Word): (r: Blocks)
    requires s in blocks && t in blocks
    ensures r.Keys == blocks.Keys
  {
    var one := blocks[s := blocks[s].(succ := blocks[s].succ + [t])];
    one[t := one[t].(pred := one[t].pred + [s])]
  }

  function AddEdges(blocks: Blocks, s: Word, ts: seq<Word>): (r: Blocks)
    requires s in blocks && forall t | t in ts :: t in blocks
    ensures r.Keys == blocks.Keys
  {
    if ts == [] then blocks else AddEdges(AddEdge(blocks, s, ts[0]), s, ts[1..])
  }

  function Count(q: seq<Word>, x: Word): nat {
    if q == [] then 0 else Count(q[..|q| - 1], x) + if q[|q| - 1] == x then 1 else 0
  }

  lemma CountAppend(q: seq<Word>, y: Word, x: Word)
    ensures Count(q + [y], x) == Count(q, x) + if y == x then 1 else 0
  {
    assert (q + [y])[..|q|] == q;
  }

  /** Successor and predecessor lists record the same edges, each as often as the other. */
  ghost predicate Converse(blocks: Blocks) {
    forall a, b {:trigger ConverseAt(blocks, a, b)} | a in blocks && b in blocks :: ConverseAt(blocks, a, b)
  }

  ghost predicate ConverseAt(blocks: Blocks, a: Word, b: Word)
    requires a in blocks && b in blocks
  {
    Count(blocks[a].succ, b) == Count(blocks[b].pred, a)
  }

  /** Only the edge lists may tell the two versions of a block apart. */
  ghost predicate SameShape(b: BasicBlock, c: BasicBlock) {
    && b.start == c.start && b.end == c.end && b.count == c.count
    && b.exit == c.exit && b.isEntry == c.isEntry && b.isExit == c.isExit
    && b.isLoopHeader == c.isLoopHeader
  }

  lemma AddEdgeConverse(blocks: Blocks, s: Word, t: Word)
    requires s in blocks && t in blocks && Converse(blocks)
    ensures Converse(AddEdge(blocks, s, t))
  {
    var r := AddEdge(blocks, s, t);
    forall a, b | a in r && b in r ensures ConverseAt(r, a, b) {
      assert ConverseAt(blocks, a, b);
      CountAppend(blocks[s].succ, t, b);
      CountAppend(blocks[t].pred, s, a);
      assert r[a].succ == if a == s then blocks[s].succ + [t] else blocks[a].succ;
      assert r[b].pred == if b == t then blocks[t].pred + [s] else blocks[b].pred;
    }
  }

  lemma {:induction false} AddEdgesConverse(blocks: Blocks, s: Word, ts: seq<Word>)
    requires s in blocks && (forall t | t in ts :: t in blocks) && Converse(blocks)
    ensures Converse(AddEdges(blocks, s, ts))
    decreases |ts|
  {
    if ts != [] {
      AddEdgeConverse(blocks, s, ts[0]);
      AddEdgesConverse(AddEdge(blocks, s, ts[0]), s, ts[1..]);
    }
  }

  /** Adding edges out of s extends the successor list of s and no other. */
  lemma {:induction false} AddEdgesAt(blocks: Blocks, s: Word, ts: seq<Word>, a: Word)
    requires s in blocks && (forall t | t in ts :: t in blocks) && a in blocks
    ensures SameShape(blocks[a], AddEdges(blocks, s, ts)[a])
    ensures AddEdges(blocks, s, ts)[a].succ == if a == s then blocks[a].succ + ts else blocks[a].succ
    decreases |ts|
  {
    if ts != [] {
      var r := AddEdge(blocks, s, ts[0]);
      AddEdgesAt(r, s, ts[1..], a);
      assert blocks[s].succ + [ts[0]] + ts[1..] == blocks[s].succ + ts;
    }
  }

  lemma AddEdgesSnoc(blocks: Blocks, s: Word, ts: seq<Word>, t: Word)
    requires s in blocks && t in blocks && forall t | t in ts :: t in blocks
    ensures AddEdges(blocks, s, ts + [t]) == AddEdge(AddEdges(blocks, s, ts), s, t)
    decreases |ts|
  {
    if ts == [] {
      assert [] + [t] == [t];
    } else {
      assert (ts + [t])[1..] == ts[1..] + [t];
      AddEdgesSnoc(AddEdge(blocks, s, ts[0]), s, ts[1..], t);
    }
  }

  lemma AddEdgesOne(blocks: Blocks, s: Word, t: Word)
    requires s in blocks && t in blocks
    ensures AddEdges(blocks, s, [t]) == AddEdge(blocks, s, t)
  {
    AddEdgesSnoc(blocks, s, [], t);
    assert [] + [t] == [t];
  }

  function LinkOne(blocks: Blocks, a: Word): (r: Blocks)
    requires a in blocks
    ensures r.Keys == blocks.Keys
  {
    AddEdges(blocks, a, Successors(blocks.Keys, blocks[a].exit, blocks[a].end))
  }

  method LinkBlock(blocks: Blocks, a: Word) returns (r: Blocks)
    requires a in blocks
    ensures r == LinkOne(blocks, a)
  {
    r := blocks;
    var cf := blocks[a].exit;
    var fallThrough := Wrap(cf.address + 8);
    if cf.kind == Branch {
      if cf.target != 0 && cf.target in r {
        AddEdgesOne(blocks, a, cf.target);
        r := AddEdge(r, a, cf.target);
      }
      assert r == AddEdges(blocks, a, Taken(blocks.Keys, cf));
      assert Successors(blocks.Keys, cf, blocks[a].end) ==
             if fallThrough in r then Taken(blocks.Keys, cf) + [fallThrough] else Taken(blocks.Keys, cf);
      if fallThrough in r {
        AddEdgesSnoc(blocks, a, Taken(blocks.Keys, cf), fallThrough);
        r := AddEdge(r, a, fallThrough);
      }
    } else if cf.kind == Jump {
      if cf.target != 0 && cf.target in r {
        AddEdgesOne(blocks, a, cf.target);
        r := AddEdge(r, a, cf.target);
      }
    } else if cf.kind == JumpLink || cf.kind == JumpLinkReg {
      if fallThrough in r {
        AddEdgesOne(blocks, a, fallThrough);
        r := AddEdge(r, a, fallThrough);
      }
    } else if cf.kind == JumpRegister || cf.kind == Return {
    } else {
      var nextBlock := Wrap(blocks[a].end + 4);
      if nextBlock in r {
        AddEdgesOne(blocks, a, nextBlock);
        r := AddEdge(r, a, nextBlock);
      }
    }
  }

  /** The blocks after linking the first n of them, in address order. */
  function Link(blocks: Blocks, order: seq<Word>, n: nat): (r: Blocks)
    requires n <= |order| && forall i | 0 <= i < |order| :: order[i] in blocks
    ensures r.Keys == blocks.Keys
  {
    if n == 0 then blocks
    else LinkOne(Link(blocks, order, n - 1), order[n - 1])
  }

  method LinkBasicBlocks(blocks: Blocks) returns (linked: Blocks)
    ensures var order := Ascending(blocks.Keys);
            linked == Link(blocks, order, |order|)
  {
    linked := blocks;
    var order := Ascending(blocks.Keys);
    for i := 0 to |order|
      invariant linked == Link(blocks, order, i)
    {
      linked := LinkBlock(linked, order[i]);
    }
  }

  lemma LinkOneAt(blocks: Blocks, a: Word, x: Word)
    requires a in blocks && x in blocks
    ensures SameShape(blocks[x], LinkOne(blocks, a)[x])
    ensures LinkOne(blocks, a)[x].succ ==
            if x == a then blocks[a].succ + Successors(blocks.Keys, blocks[a].exit, blocks[a].end) else blocks[x].succ
  {
    AddEdgesAt(blocks, a, Successors(blocks.Keys, blocks[a].exit, blocks[a].end), x);
  }

  /** Linking gives each block its Successors and changes nothing else but edge lists. */
  lemma {:induction false} LinkAt(blocks: Blocks, order: seq<Word>, n: nat, i: nat)
    requires n <= |order| && i < |order| && Strict(order) && forall i | 0 <= i < |order| :: order[i] in blocks
    ensures SameShape(blocks[order[i]], Link(blocks, order, n)[order[i]])
    ensures Link(blocks, order, n)[order[i]].succ ==
            if i < n then blocks[order[i]].succ + Successors(blocks.Keys, blocks[order[i]].exit, blocks[order[i]].end)
            else blocks[order[i]].succ
  {
    if n > 0 {
      LinkAt(blocks, order, n - 1, i);
      assert i < n - 1 ==> Below(order, i, n - 1);
      assert n - 1 < i ==> Below(order, n - 1, i);
      LinkOneAt(Link(blocks, order, n - 1), order[n - 1], order[i]);
    }
  }

  lemma {:induction false} LinkConverse(blocks: Blocks, order: seq<Word>, n: nat)
    requires n <= |order| && (forall i | 0 <= i < |order| :: order[i] in blocks) && Converse(blocks)
    ensures Converse(Link(blocks, order, n))
  {
    if n > 0 {
      LinkConverse(blocks, order, n - 1);
      var r := Link(blocks, order, n - 1);
      var b := r[order[n - 1]];
      AddEdgesConverse(r, order[n - 1], Successors(r.Keys, b.exit, b.end));
    }
  }

  // ---------------------------------------------------------------- loops

  /** The back edges out of one block, in successor order. */
  function BackEdges(a: Word, succ: seq<Word>): seq<Edge> {
    if succ == [] then []
    else
      var t := succ[|succ| - 1];
      BackEdges(a, succ[..|succ| - 1]) + if t <= a then [Edge(t, a)] else []
  }

  /** The back edges out of the first n blocks, in address order. */
  function AllBackEdges(blocks: Blocks, order: seq<Word>, n: nat): seq<Edge>
    requires n <= |order| && forall i | 0 <= i < |order| :: order[i] in blocks
  {
    if n == 0 then []
    else AllBackEdges(blocks, order, n - 1) + BackEdges(order[n - 1], blocks[order[n - 1]].succ)
  }

  lemma {:induction false} BackEdgesAre(a: Word, succ: seq<Word>, e: Edge)
    ensures e in BackEdges(a, succ) <==> e.source == a && e.header in succ && e.header <= a
    decreases succ
  {
    if succ != [] {
      BackEdgesAre(a, succ[..|succ| - 1], e);
      assert succ == succ[..|succ| - 1] + [succ[|succ| - 1]];
    }
  }

  /** The recorded edges are exactly those that do not go to a higher address. */
  lemma {:induction false} AllBackEdgesAre(blocks: Blocks, order: seq<Word>, n: nat, e: Edge)
    requires n <= |order| && forall i | 0 <= i < |order| :: order[i] in blocks
    ensures e in AllBackEdges(blocks, order, n) ==>
            e.source in blocks && e.header in blocks[e.source].succ && e.header <= e.source
    ensures e.header <= e.source &&
            (exists i :: 0 <= i < n && order[i] == e.source && e.header in blocks[order[i]].succ) ==>
            e in AllBackEdges(blocks, order, n)
  {
    if n > 0 {
      AllBackEdgesAre(blocks, order, n - 1, e);
      BackEdgesAre(order[n - 1], blocks[order[n - 1]].succ, e);
    }
  }

  ghost predicate Heads(loops: seq<Edge>, a: Word) {
    exists e :: e in loops && e.header == a
  }

  /** The blocks with the loop flag raised on the header of every recorded edge. */
  function Mark(blocks: Blocks, loops: seq<Edge>): (r: Blocks)
    ensures r.Keys == blocks.Keys
  {
    if loops == [] then blocks
    else
      var r := Mark(blocks, loops[..|loops| - 1]);
      var h := loops[|loops| - 1].header;
      if h in r then r[h := r[h].(isLoopHeader := true)] else r
  }

  /** Marking changes loop flags only, and raises exactly those of the headers. */
  lemma {:induction false} MarkIs(blocks: Blocks, loops: seq<Edge>, a: Word)
    requires a in blocks
    ensures Mark(blocks, loops)[a] == blocks[a].(isLoopHeader := blocks[a].isLoopHeader || Heads(loops, a))
    decreases loops
  {
    if loops != [] {
      var e := loops[|loops| - 1];
      var most := loops[..|loops| - 1];
      MarkIs(blocks, most, a);
      assert loops == most + [e];
      if Heads(most, a) {
        var d :| d in most && d.header == a;
        assert d in loops;
      }
      if e.header == a { assert e in loops; }
    }
  }

  lemma MarkOne(blocks: Blocks, loops: seq<Edge>, e: Edge)
    ensures var r := Mark(blocks, loops);
            Mark(blocks, loops + [e]) ==
            if e.header in r then r[e.header := r[e.header].(isLoopHeader := true)] else r
  {
    assert (loops + [e])[..|loops|] == loops;
  }

  method MarkLoops(blocks: Blocks, now: Blocks, loops: seq<Edge>, a: Word, succ: seq<Word>)
    returns (found: seq<Edge>, marked: Blocks)
    requires now == Mark(blocks, loops)
    ensures found == loops + BackEdges(a, succ)
    ensures marked == Mark(blocks, found)
  {
    found, marked := loops, now;
    for k := 0 to |succ|
      invariant found == loops + BackEdges(a, succ[..k])
      invariant marked == Mark(blocks, found)
    {
      assert succ[..k + 1][..k] == succ[..k];
      if succ[k] <= a {
        var e := Edge(succ[k], a);
        MarkOne(blocks, found, e);
        found := found + [e];
        if succ[k] in marked {
          marked := marked[succ[k] := marked[succ[k]].(isLoopHeader := true)];
        }
      }
    }
    assert succ[..|succ|] == succ;
  }

  method DetectLoops(blocks: Blocks) returns (loops: seq<Edge>, marked: Blocks)
    ensures var order := Ascending(blocks.Keys);
            loops == AllBackEdges(blocks, order, |order|)
    ensures marked == Mark(blocks, loops)
  {
    loops, marked := [], blocks;
    var order := Ascending(blocks.Keys);
    for i := 0 to |order|
      invariant loops == AllBackEdges(blocks, order, i)
      invariant marked == Mark(blocks, loops)
    {
      MarkIs(blocks, loops, order[i]);
      loops, marked := MarkLoops(blocks, marked, loops, order[i], marked[order[i]].succ);
    }
  }

  // ---------------------------------------------------------------- the whole graph

  /** What the analysis returns for a function. */
  function GraphOf(exe: Exe, f: Func): Graph
    requires exe.Valid()
  {
    var order := Ascending(Boundaries(exe, f));
    var cut := Cut(exe, f, order, |order|);
    var keys := Ascending(cut.Keys);
    var linked := Link(cut, keys, |keys|);
    var loops := AllBackEdges(linked, keys, |keys|);
    var marked := Mark(linked, loops);
    Graph(f.start, f.end, marked, Ascending(marked.Keys), loops)
  }

  method AnalyzeFunction(exe: Exe, f: Func) returns (g: Graph)
    requires exe.Valid()
    ensures g == GraphOf(exe, f)
  {
    var boundaries := FindBlockBoundaries(exe, f);
    var blocks := BuildBasicBlocks(exe, f, boundaries);
    var linked := LinkBasicBlocks(blocks);
    var loops, marked := DetectLoops(linked);
    g := Graph(f.start, f.end, marked, Ascending(marked.Keys), loops);
  }
}
