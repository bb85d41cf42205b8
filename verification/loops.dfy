/** Recorded loops: the back edges of the graph cut every cycle. */
module Loops {
  import opened Mips
  import opened Executable
  import opened ControlFlow

  lemma {:induction false} MarkIsAll(blocks: Blocks, loops: seq<Edge>, a: Word)
    ensures (a in Mark(blocks, loops)) == (a in blocks)
    ensures a in blocks ==>
              Mark(blocks, loops)[a] == blocks[a].(isLoopHeader := blocks[a].isLoopHeader || Heads(loops, a))
  {
    if a in blocks {
      MarkIs(blocks, loops, a);
    }
  }

  /** The recorded edges are exactly the edges of the graph that do not go to a higher address. */
  lemma RecordedAre(exe: Exe, f: Func, e: Edge)
    requires exe.Valid()
    ensures var g := GraphOf(exe, f);
            e in g.loops <==> e.source in g.blocks && e.header in g.blocks[e.source].succ && e.header <= e.source
  {
    var order := Ascending(Boundaries(exe, f));
    var cut := Cut(exe, f, order, |order|);
    var keys := Ascending(cut.Keys);
    var linked := Link(cut, keys, |keys|);
    var loops := AllBackEdges(linked, keys, |keys|);
    AllBackEdgesAre(linked, keys, |keys|, e);
    MarkIsAll(linked, loops, e.source);
    if e.source in linked {
      AscendingHasAll(cut.Keys, e.source);
    }
  }

  /** The target of a recorded edge carries the loop flag. */
  lemma HeadersMarked(exe: Exe, f: Func, e: Edge)
    requires exe.Valid()
    requires var g := GraphOf(exe, f); e in g.loops && e.header in g.blocks
    ensures GraphOf(exe, f).blocks[e.header].isLoopHeader
  {
    var order := Ascending(Boundaries(exe, f));
    var cut := Cut(exe, f, order, |order|);
    var keys := Ascending(cut.Keys);
    var linked := Link(cut, keys, |keys|);
    MarkIsAll(linked, AllBackEdges(linked, keys, |keys|), e.header);
  }

  lemma CutNotHeaders(exe: Exe, f: Func, order: seq<Word>, n: nat, a: Word)
    requires n <= |order| && a in Cut(exe, f, order, n)
    ensures !Cut(exe, f, order, n)[a].isLoopHeader
  {
  }

  lemma LinkedUnmarked(exe: Exe, f: Func, order: seq<Word>, n: nat, keys: seq<Word>, a: Word)
    requires n <= |order| && Strict(keys) && a in keys
    requires forall i | 0 <= i < |keys| :: keys[i] in Cut(exe, f, order, n)
    ensures !Link(Cut(exe, f, order, n), keys, |keys|)[a].isLoopHeader
  {
    var cut := Cut(exe, f, order, n);
    var i :| 0 <= i < |keys| && keys[i] == a;
    LinkAt(cut, keys, |keys|, i);
    CutNotHeaders(exe, f, order, n, a);
  }

  /** A block carries the loop flag only when a recorded edge goes to it. */
  lemma OnlyHeadersMarked(exe: Exe, f: Func, a: Word)
    requires exe.Valid()
    requires var g := GraphOf(exe, f); a in g.blocks && g.blocks[a].isLoopHeader
    ensures Heads(GraphOf(exe, f).loops, a)
  {
    var order := Ascending(Boundaries(exe, f));
    var cut := Cut(exe, f, order, |order|);
    var keys := Ascending(cut.Keys);
    var linked := Link(cut, keys, |keys|);
    MarkIsAll(linked, AllBackEdges(linked, keys, |keys|), a);
    AscendingIsStrict(cut.Keys);
    AscendingHasAll(cut.Keys, a);
    LinkedUnmarked(exe, f, order, |order|, keys, a);
  }

  // ---------------------------------------------------------------- walks

  predicate IsEdge(g: Graph, a: Word, b: Word) {
    a in g.blocks && b in g.blocks && b in g.blocks[a].succ
  }

  /** A walk along edges of the graph. */
  ghost predicate Walk(g: Graph, p: seq<Word>) {
    forall i: nat {:trigger Hop(p, i)} | i + 1 < |p| :: Hop(p, i) && IsEdge(g, p[i], p[i + 1])
  }

  predicate Hop(p: seq<Word>, i: nat) {
    i + 1 < |p|
  }

  /** The hop from p[i] is along a recorded edge to a marked header. */
  predicate Recorded(g: Graph, p: seq<Word>, i: nat)
    requires Hop(p, i)
  {
    && Edge(p[i + 1], p[i]) in g.loops
    && p[i + 1] in g.blocks && g.blocks[p[i + 1]].isLoopHeader
  }

  /** A walk with no recorded edge climbs. */
  lemma {:induction false} UnrecordedClimbs(exe: Exe, f: Func, p: seq<Word>, n: nat)
    requires exe.Valid() && Walk(GraphOf(exe, f), p) && 0 < n < |p|
    requires forall i: nat | i < n :: Edge(p[i + 1], p[i]) !in GraphOf(exe, f).loops
    ensures p[0] < p[n]
  {
    assert Hop(p, n - 1);
    RecordedAre(exe, f, Edge(p[n], p[n - 1]));
    if n > 1 {
      UnrecordedClimbs(exe, f, p, n - 1);
    }
  }

  /** Every cycle goes through a recorded edge, and the target of that edge is marked. */
  lemma CyclesAreCut(exe: Exe, f: Func, p: seq<Word>)
    requires exe.Valid() && Walk(GraphOf(exe, f), p)
    requires |p| > 1 && p[0] == p[|p| - 1]
    ensures exists i: nat :: Hop(p, i) && Recorded(GraphOf(exe, f), p, i)
  {
    var g := GraphOf(exe, f);
    if forall i: nat | i < |p| - 1 :: Edge(p[i + 1], p[i]) !in g.loops {
      UnrecordedClimbs(exe, f, p, |p| - 1);
    } else {
      var i: nat :| i < |p| - 1 && Edge(p[i + 1], p[i]) in g.loops;
      assert Hop(p, i);
      HeadersMarked(exe, f, Edge(p[i + 1], p[i]));
      assert Recorded(g, p, i);
    }
  }

  /** Without the recorded edges no walk returns to a block it has left. */
  lemma RestIsAcyclic(exe: Exe, f: Func, p: seq<Word>, i: nat, j: nat)
    requires exe.Valid() && Walk(GraphOf(exe, f), p) && i < j < |p|
    requires forall k: nat | k < |p| - 1 :: Edge(p[k + 1], p[k]) !in GraphOf(exe, f).loops
    ensures p[i] < p[j]
  {
    var q := p[i..j + 1];
    var g := GraphOf(exe, f);
    forall k: nat | k + 1 < |q| ensures Hop(q, k) && IsEdge(g, q[k], q[k + 1]) {
      assert Hop(p, i + k);
    }
    forall k: nat | k < j - i ensures Edge(q[k + 1], q[k]) !in g.loops {
      assert q[k] == p[i + k] && q[k + 1] == p[i + k + 1];
    }
    UnrecordedClimbs(exe, f, q, j - i);
  }
}
