/** Executables of a few words and functions that run straight through them, for examples. */
module SmallExes {
  import opened Options
  import opened Mips
  import opened Executable
  import opened Bits
  import opened ControlFlow
  import opened Layout

  const LOAD: Word := 0x8001_0000

  /** jr $v0 */
  const JR: Word := 0x0040_0008

  function ByteOf(w: Word, k: nat): Byte {
    if k == 0 then w % 0x100
    else if k == 1 then w / 0x100 % 0x100
    else if k == 2 then w / 0x1_0000 % 0x100
    else w / 0x100_0000 % 0x100
  }

  function Code(words: seq<Word>): seq<Byte> {
    seq(4 * |words|, i requires 0 <= i < 4 * |words| => ByteOf(words[i / 4], i % 4))
  }

  /** An executable made of words. */
  function Made(words: seq<Word>): Exe {
    Exe(LOAD, 4 * |words|, Code(words))
  }

  predicate HasWord(exe: Exe, words: seq<Word>, i: nat) {
    i < |words| && LOAD + 4 * i < 0x1_0000_0000 && exe.ReadWord(LOAD + 4 * i) == Some(words[i])
  }

  ghost predicate MadeOf(exe: Exe, words: seq<Word>) {
    && exe.Valid() && exe.load == LOAD && exe.End() == LOAD + 4 * |words|
    && (forall i: nat {:trigger HasWord(exe, words, i)} | i < |words| :: HasWord(exe, words, i))
  }

  lemma Bytes(w: Word)
    ensures w == ByteOf(w, 0) + 0x100 * (ByteOf(w, 1) as int) + 0x1_0000 * (ByteOf(w, 2) as int)
                 + 0x100_0000 * (ByteOf(w, 3) as int)
  {
    Shifted(w);
    Digit(w);
    Digit(w / 0x100);
    Digit(w / 0x1_0000);
    assert w / 0x100_0000 < 0x100;
  }

  lemma Quarter(i: nat, k: nat)
    requires k < 4
    ensures (4 * i + k) / 4 == i && (4 * i + k) % 4 == k
  {
  }

  lemma WordIs(exe: Exe, words: seq<Word>, i: nat)
    requires exe.load == LOAD && exe.fileSize == 4 * |words| <= 0x1000 && exe.code == Code(words) && i < |words|
    ensures exe.ReadWord(LOAD + 4 * i) == Some(words[i])
  {
    Bytes(words[i]);
    Quarter(i, 0);
    Quarter(i, 1);
    Quarter(i, 2);
    Quarter(i, 3);
    assert exe.code[4 * i] == ByteOf(words[i], 0) && exe.code[4 * i + 1] == ByteOf(words[i], 1);
    assert exe.code[4 * i + 2] == ByteOf(words[i], 2) && exe.code[4 * i + 3] == ByteOf(words[i], 3);
  }

  lemma IsMadeOf(words: seq<Word>)
    requires 0 < |words| <= 0x400
    ensures MadeOf(Made(words), words)
  {
    forall i: nat | i < |words| ensures HasWord(Made(words), words, i) {
      WordIs(Made(words), words, i);
    }
  }

  // ---------------------------------------------------------------- straight functions

  /** Only the word before the last one may be control flow, a jr $v0. */
  predicate StraightAt(w: Word, i: nat, n: nat) {
    !IsControlFlow(w) || (w == JR && i + 2 == n)
  }

  /** f consists of the first n of the words, which run straight through. */
  ghost predicate Straight(f: Func, words: seq<Word>, n: nat) {
    && 0 < n <= |words| && f.start == LOAD && f.end == LOAD + 4 * n
    && (forall i: nat {:trigger words[i]} | i < n :: StraightAt(words[i], i, n))
  }

  lemma JumpMarks(f: Func, a: Word)
    requires f.end <= a + 8 < 0x1_0000_0000
    ensures Marks(f, Analyze(a, JR)) == {}
  {
  }

  lemma PlainMarks(f: Func, a: Word, w: Word)
    requires !IsControlFlow(w)
    ensures Marks(f, Analyze(a, w)) == {}
  {
  }

  lemma {:induction false} ScanStraight(exe: Exe, f: Func, words: seq<Word>, n: nat, i: nat, found: set<Word>)
    requires MadeOf(exe, words) && Straight(f, words, n) && i <= n
    ensures Scan(exe, f, found, LOAD + 4 * i) == found
    decreases n - i
  {
    var a := LOAD + 4 * i;
    if i < n {
      assert HasWord(exe, words, i);
      if IsControlFlow(words[i]) {
        JumpMarks(f, a);
      } else {
        PlainMarks(f, a, words[i]);
      }
      assert found + {} == found;
      ScanStraight(exe, f, words, n, i + 1, found);
    }
  }

  lemma SingleOrder(x: Word)
    ensures Ascending({x}) == [x]
  {
    assert Least({x}) == x;
    assert {x} - {x} == {};
    assert Ascending({}) == [];
  }

  /** A graph of one block, which is all of f. */
  ghost predicate OneBlock(exe: Exe, f: Func, g: Graph) {
    && g.order == [LOAD] && g.blocks.Keys == {LOAD} && g.start == LOAD && g.end == f.end && f.end >= LOAD + 4
    && g.blocks[LOAD].start == LOAD && g.blocks[LOAD].end == f.end - 4
    && g.blocks[LOAD].exit == ExitInstr(exe, LOAD, f.end - 4) && g.blocks[LOAD].isEntry
  }

  lemma StraightPlaced(exe: Exe, f: Func, words: seq<Word>, n: nat)
    requires MadeOf(exe, words) && Straight(f, words, n)
    ensures Placed(exe, f)
  {
  }

  lemma OneKey(exe: Exe, f: Func, words: seq<Word>, n: nat)
    requires MadeOf(exe, words) && Straight(f, words, n)
    ensures GraphOf(exe, f).blocks.Keys == {LOAD} && GraphOf(exe, f).order == [LOAD]
  {
    GraphKeys(exe, f);
    ScanStraight(exe, f, words, n, 0, {LOAD});
    SingleOrder(LOAD);
  }

  lemma ShapeOfOne(exe: Exe, f: Func, g: Graph)
    requires Laid(exe, f, g) && f.start == LOAD && g.order == [LOAD] && g.blocks.Keys == {LOAD}
    ensures OneBlock(exe, f, g)
  {
    assert BlockShape(exe, f, g, 0);
  }

  lemma HasOneBlock(exe: Exe, f: Func, words: seq<Word>, n: nat)
    requires MadeOf(exe, words) && Straight(f, words, n)
    ensures Laid(exe, f, GraphOf(exe, f)) && OneBlock(exe, f, GraphOf(exe, f))
  {
    StraightPlaced(exe, f, words, n);
    GraphIsLaid(exe, f);
    OneKey(exe, f, words, n);
    ShapeOfOne(exe, f, GraphOf(exe, f));
  }

  /** How the block of a straight function ends. */
  lemma StraightExit(exe: Exe, f: Func, words: seq<Word>, n: nat)
    requires MadeOf(exe, words) && Straight(f, words, n)
    ensures n >= 2 && words[n - 2] == JR ==> ExitInstr(exe, LOAD, f.end - 4) == Analyze(f.end - 8, JR)
    ensures n < 2 || words[n - 2] != JR ==> ExitInstr(exe, LOAD, f.end - 4).kind == Sequential
  {
    assert HasWord(exe, words, n - 1) && !IsControlFlow(words[n - 1]);
    if n >= 2 {
      assert HasWord(exe, words, n - 2);
    }
  }
}
