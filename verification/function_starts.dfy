/** What the discovery of functions goes by, in the words of the executable. */
module FunctionStarts {
  import opened Options
  import opened Mips
  import opened Executable
  import opened R3000
  import opened Instructions
  import opened FunctionAnalysis

  /** A frame of n bytes is opened by the word of addiu $sp, $sp, -n, and by no other. */
  lemma PrologueIs(w: Word)
    ensures Prologue(w) == if 0x27BD_8000 <= w < 0x27BE_0000 then Some(0x27BE_0000 - w) else None
  {
    if Opcode(w) == 9 && Rs(w) == 29 && Rt(w) == 29 {
      assert w / 0x1_0000 == 0x27BD;
    }
  }

  /** Branches on the condition of coprocessor 1 or 2. */
  predicate CoprocessorBranch(w: Word) {
    0x4500_0000 <= w < 0x4520_0000 || 0x4900_0000 <= w < 0x4920_0000
  }

  /** A word with a delay slot after it. */
  lemma SlotFollows(w: Word)
    ensures IsBranchOrJump(w) <==> Decode(w).Flow? || CoprocessorBranch(w)
  {
    ReadAlike(0, w);
  }

  /** The word at a opens a frame and is in no slot. */
  predicate Opens(exe: Exe, a: Word) {
    && exe.Readable(a) && 0x27BD_8000 <= exe.WordAt(a) < 0x27BE_0000
    && !(exe.load + 4 <= a && exe.Readable(a - 4) &&
         (Decode(exe.WordAt(a - 4)).Flow? || CoprocessorBranch(exe.WordAt(a - 4))))
  }

  predicate Returns(exe: Exe, a: Word) {
    exe.Readable(a) && exe.WordAt(a) == Encode(Jr(31))
  }

  lemma ReturnWord()
    ensures Encode(Jr(31)) == 0x03E0_0008
  {
  }

  lemma OpensIs(exe: Exe, a: Word)
    requires Aligned(exe) && InCode(exe, a) && exe.Readable(a)
    ensures RealPrologue(exe, a, exe.WordAt(a)) <==> Opens(exe, a)
  {
    PrologueIs(exe.WordAt(a));
    exe.AddressBounds();
    if exe.load + 4 <= a {
      OneBack(exe, a);
      SlotFollows(exe.WordAt(a - 4));
    }
  }

  /** None of the words from a up to, but not including, the one at b stops the search. */
  ghost predicate Passed(exe: Exe, a: int, b: int) {
    forall x: Word {:trigger Opens(exe, x)} | a <= x < b && x % 4 == 0 :: !Opens(exe, x) && !Returns(exe, x)
  }

  lemma SearchSees(exe: Exe, ret: Word, at: Word)
    requires Aligned(exe) && InCode(exe, at) && exe.load < at && ret - 16384 < at <= ret
    ensures SearchBack(exe, ret, at) == if Opens(exe, at - 4) then at - 4
                                        else if Returns(exe, at - 4) then at + 4
                                        else SearchBack(exe, ret, at - 4)
  {
    SearchStep(exe, ret, at);
    OneBack(exe, at);
    OpensIs(exe, at - 4);
    ReturnWord();
  }

  lemma {:induction false} SearchPasses(exe: Exe, ret: Word, a: Word, at: Word)
    requires Aligned(exe) && InCode(exe, at) && InCode(exe, a) && ret - 16384 <= a <= at <= ret
    requires Passed(exe, a, at)
    ensures SearchBack(exe, ret, at) == SearchBack(exe, ret, a)
    decreases at
  {
    if a < at {
      OneBack(exe, at);
      NextWord(a, at);
      SearchSees(exe, ret, at);
      assert !Opens(exe, at - 4);
      assert Passed(exe, a, at - 4);
      SearchPasses(exe, ret, a, at - 4);
    }
  }

  /** The start found for a return is the nearest word before it that opens a frame outside a slot,
      or the second word after the nearest return, whichever comes first going back; and failing
      both, the first word of the code or the one 4096 words before. */
  lemma StartIs(exe: Exe, ret: Word, a: Word)
    requires Aligned(exe) && InCode(exe, ret) && InCode(exe, a) && ret - 16384 <= a < ret && Passed(exe, a + 4, ret)
    ensures Opens(exe, a) ==> SearchBack(exe, ret, ret) == a
    ensures !Opens(exe, a) && Returns(exe, a) ==> SearchBack(exe, ret, ret) == a + 8
    ensures !Opens(exe, a) && !Returns(exe, a) && (a == exe.load || a == ret - 16384) ==> SearchBack(exe, ret, ret) == a
  {
    CodeReadable(exe, ret);
    assert InCode(exe, a + 4);
    SearchPasses(exe, ret, a + 4, ret);
    SearchSees(exe, ret, a + 4);
    if a == exe.load || a == ret - 16384 {
      SearchEnds(exe, ret, a);
    }
  }

  /** A call word is read as the call it encodes: its target in KSEG0, if it lies in the executable,
      is the start of a function. */
  lemma EncodedCalls(exe: Exe, forced: seq<Word>, c: Word, index: nat)
    requires Aligned(exe) && InCode(exe, c) && exe.Readable(c) && index < 0x400_0000
    requires exe.WordAt(c) == Encode(Jal(index)) && exe.load <= 0x8000_0000 + 4 * index < exe.End()
    ensures exists f :: f in FunctionsOf(exe, forced) && f.start == 0x8000_0000 + 4 * index
  {
    CallWord(index, Encode(Jal(index)));
    CalleesAreFunctions(exe, forced, c);
  }

  lemma CallWord(index: nat, w: Word)
    requires index < 0x400_0000 && w == Encode(Jal(index))
    ensures Opcode(w) == 3 && CallTarget(w) == 0x8000_0000 + 4 * index
  {
  }

  /** The frame recorded for a function is the one that its first word opens. */
  lemma FrameIs(exe: Exe, forced: seq<Word>, i: nat)
    requires exe.Valid() && i < |FunctionsOf(exe, forced)| && exe.Readable(FunctionsOf(exe, forced)[i].start)
    ensures var f := FunctionsOf(exe, forced)[i];
            var w := exe.WordAt(f.start);
            && (f.hasPrologue <==> 0x27BD_8000 <= w < 0x27BE_0000)
            && f.frame == if f.hasPrologue then 0x27BE_0000 - w else 0
  {
    PrologueIs(exe.WordAt(FunctionsOf(exe, forced)[i].start));
  }

  // ---------------------------------------------------------------- data

  /** The words from a on are taken for data if and only if there are enough of them and too many
      are calls out of main memory or have no opcode of the R3000A: in a hundred, 6, 31 or 61 calls,
      or 8 or 51 other words, depending on the size. */
  lemma DataExactly(exe: Exe, start: Word, end: Word)
    requires start <= end
    ensures LooksLikeData(exe, start, end) <==> MuchTooOdd(end - start, TallyFrom(exe, start, end))
  {
    var size, t := end - start, TallyFrom(exe, start, end);
    assert Wrap(end - start) == size;
    if size >= 100 {
      OddExactly(size, t);
    } else {
      assert !MuchTooOdd(size, t);
    }
  }

  predicate MuchTooOdd(size: nat, t: Tally) {
    var words, calls, others := size / 4, 100 * t.calls, 100 * t.undefined;
    || (size >= 10000 && calls >= 6 * words)
    || (size >= 1000 && (calls >= 31 * words || others >= 8 * words))
    || (size >= 400 && others >= 51 * words)
    || (size >= 100 && calls >= 61 * words)
  }

  lemma OddExactly(size: Word, t: Tally)
    requires size >= 100
    ensures TooOdd(size, t) <==> MuchTooOdd(size, t)
  {
    var words := size / 4;
    var calls := Hundredths(t.calls, words);
    var others := Hundredths(t.undefined, words);
    assert calls == t.calls * 100 / words && others == t.undefined * 100 / words;
  }

  /** How many in a hundred, and when they are more than each of the thresholds. */
  lemma Hundredths(n: nat, words: nat) returns (h: nat)
    requires words > 0
    ensures h == n * 100 / words
    ensures (h > 5 <==> 100 * n >= 6 * words) && (h > 7 <==> 100 * n >= 8 * words)
    ensures (h > 30 <==> 100 * n >= 31 * words) && (h > 50 <==> 100 * n >= 51 * words)
    ensures h > 60 <==> 100 * n >= 61 * words
  {
    h := 100 * n / words;
    Above(100 * n, words, h, 5);
    Above(100 * n, words, h, 7);
    Above(100 * n, words, h, 30);
    Above(100 * n, words, h, 50);
    Above(100 * n, words, h, 60);
  }

  lemma Above(m: nat, words: nat, h: nat, k: nat)
    requires words > 0 && h == m / words
    ensures h > k <==> m >= (k + 1) * words
  {
    assert h * words <= m < h * words + words;
    if h > k {
      Times(h - k - 1, words);
      assert h * words == (k + 1) * words + (h - k - 1) * words;
    } else {
      Times(k - h, words);
      assert (k + 1) * words == h * words + words + (k - h) * words;
    }
  }

  lemma Times(a: nat, b: nat)
    ensures a * b >= 0
  {
  }

  /** What is counted of one word. */
  lemma OdditiesAre(w: Word)
    ensures Oddities(w).calls == 1 <==> Decode(w).Flow? && Decode(w).control.Jal? &&
                                        0x8000_0000 + 4 * Decode(w).control.index > 0x801F_FFFF
    ensures Oddities(w).undefined == 0 <==>
            w / 0x400_0000 in {0, 1, 2, 3, 4, 5, 6, 7, 8, 9, 10, 11, 12, 13, 14, 15, 16, 0x12, 0x20, 0x21, 0x22, 0x23,
                               0x24, 0x25, 0x26, 0x28, 0x29, 0x2A, 0x2B, 0x2E, 0x30, 0x32, 0x38, 0x3A}
  {
    FieldsAgree(w);
  }
}
