/** Discovery of functions: where they start, and how they tile the executable. */
module FunctionAnalysis {
  import opened Options
  import opened Mips
  import opened Executable
  import opened ControlFlow
  import opened CodeGenerator
  import opened Names
  import opened Layout

  // ---------------------------------------------------------------- single instructions

  predicate IsJrRa(w: Word) {
    w == 0x03E0_0008
  }

  /** addiu $sp, $sp, -n gives Some(n). */
  function Prologue(w: Word): Option<int> {
    if Opcode(w) == 9 && Rs(w) == 29 && Rt(w) == 29 && Imm(w) < 0 then Some(-Imm(w)) else None
  }

  /** Control flow, and the branches of the coprocessors that ControlFlow does not know. */
  predicate IsBranchOrJump(w: Word) {
    (IsControlFlow(w) && !(0x14 <= Opcode(w) <= 0x17)) || ((Opcode(w) == 0x11 || Opcode(w) == 0x12) && Rs(w) == 8)
  }

  // ---------------------------------------------------------------- scanning back for a start

  /** A prologue that is not the slot of a branch. */
  predicate RealPrologue(exe: Exe, a: Word, w: Word) {
    Prologue(w).Some? &&
    !(a >= Wrap(exe.load + 4) && exe.Readable(Back(a)) && IsBranchOrJump(exe.WordAt(Back(a))))
  }

  /** The search from address at on, which is given up 4096 words before the return. */
  function SearchBack(exe: Exe, ret: Word, at: Word): Word
    requires exe.Valid() && at <= ret
    decreases at
  {
    if ret - at >= 16384 then ret - 16384
    else
      var a := Back(at);
      if a < exe.load then exe.load
      else if !exe.Readable(a) then ret
      else if RealPrologue(exe, a, exe.WordAt(a)) then a
      else if IsJrRa(exe.WordAt(a)) then Wrap(a + 8)
      else SearchBack(exe, ret, a)
  }

  /** The words of the executable are whole and aligned. */
  predicate Aligned(exe: Exe) {
    exe.Valid() && exe.load % 4 == 0 && exe.fileSize % 4 == 0
  }

  predicate InCode(exe: Exe, a: int) {
    exe.load <= a < exe.load + exe.fileSize && a % 4 == 0
  }

  lemma CodeReadable(exe: Exe, a: Word)
    requires Aligned(exe) && InCode(exe, a)
    ensures exe.Readable(a) && a + 4 <= exe.End() && exe.End() == exe.load + exe.fileSize && exe.End() % 4 == 0
  {
    exe.AddressBounds();
  }

  lemma OneBack(exe: Exe, at: Word)
    requires Aligned(exe) && InCode(exe, at) && exe.load < at
    ensures Back(at) == at - 4 && InCode(exe, at - 4) && exe.Readable(at - 4) && Wrap(at + 4) == at + 4
  {
    CodeReadable(exe, at - 4);
  }

  lemma SearchStep(exe: Exe, ret: Word, at: Word)
    requires Aligned(exe) && InCode(exe, at) && exe.load < at && ret - 16384 < at <= ret
    ensures Back(at) == at - 4 && exe.Readable(at - 4)
    ensures var w := exe.WordAt(at - 4);
            SearchBack(exe, ret, at) == if RealPrologue(exe, at - 4, w) then at - 4
                                        else if IsJrRa(w) then at + 4
                                        else SearchBack(exe, ret, at - 4)
  {
    OneBack(exe, at);
  }

  lemma SearchOptions(exe: Exe, ret: Word, at: Word)
    requires Aligned(exe) && InCode(exe, at) && exe.load < at && ret - 16384 < at <= ret && ret % 4 == 0
    ensures InCode(exe, at - 4) && ret - 16384 <= at - 4
    ensures var s := SearchBack(exe, ret, at); s == at - 4 || s == at + 4 || s == SearchBack(exe, ret, at - 4)
  {
    OneBack(exe, at);
    NextWord(ret - 16384, at);
    SearchStep(exe, ret, at);
  }

  lemma SearchEnds(exe: Exe, ret: Word, at: Word)
    requires Aligned(exe) && InCode(exe, at) && ret - 16384 <= at <= ret && ret % 4 == 0
    requires at == exe.load || at == ret - 16384
    ensures SearchBack(exe, ret, at) == at
  {
  }

  predicate InReach(exe: Exe, at: int, s: Word) {
    exe.load <= s <= at + 4 && s % 4 == 0
  }

  lemma ReachGrows(exe: Exe, at: int, s: Word)
    requires InCode(exe, at - 4) && (s == at - 4 || s == at + 4 || InReach(exe, at - 4, s))
    ensures InReach(exe, at, s)
  {
  }

  lemma {:induction false} SearchBackRange(exe: Exe, ret: Word, at: Word)
    requires Aligned(exe) && InCode(exe, at) && ret - 16384 <= at <= ret && ret % 4 == 0
    ensures InReach(exe, at, SearchBack(exe, ret, at))
    ensures at == exe.load ==> SearchBack(exe, ret, at) == at
    decreases at
  {
    if exe.load < at && at > ret - 16384 {
      SearchOptions(exe, ret, at);
      SearchBackRange(exe, ret, at - 4);
      ReachGrows(exe, at, SearchBack(exe, ret, at));
    } else {
      SearchEnds(exe, ret, at);
    }
  }

  /** The start found for a return is never past the word that follows it, and it is that word
      only when the word before the return is a return too. */
  lemma FoundStart(exe: Exe, ret: Word)
    requires Aligned(exe) && InCode(exe, ret)
    ensures var s := SearchBack(exe, ret, ret);
            && exe.load <= s <= ret + 4 && s % 4 == 0
            && (s == ret + 4 <==> exe.load <= ret - 4 && IsJrRa(exe.WordAt(ret - 4)))
    ensures exe.load <= ret - 4 ==> exe.Readable(ret - 4)
  {
    CodeReadable(exe, ret);
    SearchBackRange(exe, ret, ret);
    if exe.load < ret {
      OneBack(exe, ret);
      SearchStep(exe, ret, ret);
      SearchBackRange(exe, ret, ret - 4);
    }
  }

  // ---------------------------------------------------------------- the passes

  /** Pass 1: the addresses of the returns from a on, after those found before. */
  function ScanReturns(exe: Exe, found: seq<Word>, a: Word): seq<Word>
    requires exe.Valid()
    decreases if a < exe.End() then exe.End() - a else 0
  {
    if a >= exe.End() || !exe.Readable(a) then found
    else ScanReturns(exe, if IsJrRa(exe.WordAt(a)) then found + [a] else found, a + 4)
  }

  /** Pass 2: the starts found for the first n returns. */
  function ReturnStarts(exe: Exe, rets: seq<Word>, n: nat): set<Word>
    requires exe.Valid() && n <= |rets|
  {
    if n == 0 then {} else ReturnStarts(exe, rets, n - 1) + {SearchBack(exe, rets[n - 1], rets[n - 1])}
  }

  function CallTarget(w: Word): int {
    w % 0x400_0000 * 4 + 0x8000_0000
  }

  /** A jal whose target, taken in KSEG0, is in the executable. */
  predicate CallsInside(exe: Exe, w: Word) {
    Opcode(w) == 3 && exe.load <= CallTarget(w) < exe.End()
  }

  /** Pass 2.5: the targets of calls from a on, added to those found before. */
  function ScanCalls(exe: Exe, found: set<Word>, a: Word): set<Word>
    requires exe.Valid()
    decreases if a < exe.End() then exe.End() - a else 0
  {
    if a >= exe.End() || !exe.Readable(a) then found
    else
      var w := exe.WordAt(a);
      ScanCalls(exe, if CallsInside(exe, w) then found + {CallTarget(w)} else found, a + 4)
  }

  function Members(s: seq<Word>): set<Word> {
    set x | x in s
  }

  /** The start addresses after all passes. */
  function StartSet(exe: Exe, forced: seq<Word>): set<Word>
    requires exe.Valid()
  {
    var rets := ScanReturns(exe, [], exe.load);
    ScanCalls(exe, ReturnStarts(exe, rets, |rets|), exe.load) + Members(forced)
  }

  /** Whether a return occurs between a and end, in steps of one word from a. */
  predicate HasReturn(exe: Exe, a: int, end: int)
    decreases end - a
  {
    0 <= a < end < 0x1_0000_0000 && a <= Back(end) &&
    ((exe.Readable(a) && IsJrRa(exe.WordAt(a))) || HasReturn(exe, a + 4, end))
  }

  // ---------------------------------------------------------------- data among the functions

  /** The primary opcodes of the R3000A with its two coprocessors. */
  predicate ValidOpcode(op: nat) {
    op <= 0x10 || op == 0x12 || 0x20 <= op <= 0x26 || 0x28 <= op <= 0x2B || op in {0x2E, 0x30, 0x32, 0x38, 0x3A}
  }

  /** Calls that leave main memory, and words whose opcode is undefined. */
  datatype Tally = Tally(calls: nat, undefined: nat)

  function Oddities(w: Word): Tally {
    Tally(if Opcode(w) == 3 && CallTarget(w) > 0x801F_FFFF then 1 else 0, if ValidOpcode(Opcode(w)) then 0 else 1)
  }

  /** The oddities of the words from a to end, as far as they can be read. */
  function TallyFrom(exe: Exe, a: int, end: Word): Tally
    decreases end - a
  {
    if a < 0 || a >= end || !exe.Readable(a) then Tally(0, 0)
    else
      var rest := TallyFrom(exe, a + 4, end);
      Tally(Oddities(exe.WordAt(a)).calls + rest.calls, Oddities(exe.WordAt(a)).undefined + rest.undefined)
  }

  /** The thresholds, in hundredths of the number of words, by size in bytes. */
  predicate TooOdd(size: Word, t: Tally) {
    var words := size / 4;
    var calls := if words > 0 then t.calls * 100 / words else 0;
    var undefined := if words > 0 then t.undefined * 100 / words else 0;
    || (size >= 10000 && calls > 5)
    || (size >= 1000 && calls > 30)
    || (size >= 100 && calls > 60)
    || (size >= 1000 && undefined > 7)
    || (size >= 400 && undefined > 50)
  }

  predicate LooksLikeData(exe: Exe, start: Word, end: Word) {
    Wrap(end - start) >= 100 && TooOdd(Wrap(end - start), TallyFrom(exe, start, end))
  }

  /** Pass 3: the entry of the function table for one start. */
  function FunctionAt(exe: Exe, forced: seq<Word>, start: Word, end: Word): Func {
    var prologue := if exe.Readable(start) then Prologue(exe.WordAt(start)) else None;
    Func(start, end, NameOf(start), prologue.Some?, HasReturn(exe, start, end),
         if prologue.Some? then prologue.value else 0,
         start !in forced && LooksLikeData(exe, start, end))
  }

  function TableOf(exe: Exe, forced: seq<Word>, starts: seq<Word>): seq<Func> {
    seq(|starts|, i requires 0 <= i < |starts| =>
      FunctionAt(exe, forced, starts[i], if i + 1 < |starts| then starts[i + 1] else exe.End()))
  }

  /** What the analysis returns. */
  function FunctionsOf(exe: Exe, forced: seq<Word>): seq<Func>
    requires exe.Valid()
  {
    TableOf(exe, forced, Ascending(StartSet(exe, forced)))
  }

  class FunctionAnalyzer {
    const exe: Exe
    var forced: seq<Word>

    constructor (exe: Exe)
      ensures this.exe == exe && forced == []
    {
      this.exe := exe;
      forced := [];
    }

    method AddForcedEntry(a: Word)
      modifies this
      ensures forced == if exe.load <= a < exe.End() then old(forced) + [a] else old(forced)
    {
      if exe.load <= a && a < exe.End() {
        forced := forced + [a];
      }
    }

    method FindFunctionStart(ret: Word) returns (start: Word)
      requires exe.Valid()
      ensures start == SearchBack(exe, ret, ret)
    {
      var at: Word := ret;
      for i := 0 to 4096
        invariant ret - at == 4 * i
        invariant SearchBack(exe, ret, ret) == SearchBack(exe, ret, at)
      {
        at := Back(at);
        if at < exe.load {
          return exe.load;
        }
        var word := exe.ReadWord(at);
        if word.None? {
          return ret;
        }
        if Prologue(word.value).Some? {
          var slot := false;
          if at >= Wrap(exe.load + 4) {
            var before := exe.ReadWord(Back(at));
            slot := before.Some? && IsBranchOrJump(before.value);
          }
          if !slot {
            return at;
          }
        } else if IsJrRa(word.value) {
          return Wrap(at + 8);
        }
      }
      return ret - 16384;
    }

    method FindReturns() returns (rets: seq<Word>)
      requires exe.Valid()
      ensures rets == ScanReturns(exe, [], exe.load)
    {
      rets := [];
      var a: int := exe.load;
      while a < exe.End()
        invariant 0 <= a < 0x1_0000_0000
        invariant ScanReturns(exe, rets, a) == ScanReturns(exe, [], exe.load)
      {
        var word := exe.ReadWord(a);
        if word.None? {
          break;
        }
        if IsJrRa(word.value) {
          rets := rets + [a];
        }
        a := a + 4;
      }
    }

    method FindReturnStarts(rets: seq<Word>) returns (starts: set<Word>)
      requires exe.Valid()
      ensures starts == ReturnStarts(exe, rets, |rets|)
    {
      starts := {};
      for i := 0 to |rets|
        invariant starts == ReturnStarts(exe, rets, i)
      {
        var start := FindFunctionStart(rets[i]);
        starts := starts + {start};
      }
    }

    method AddCallTargets(found: set<Word>) returns (starts: set<Word>)
      requires exe.Valid()
      ensures starts == ScanCalls(exe, found, exe.load)
    {
      starts := found;
      var a: int := exe.load;
      while a < exe.End()
        invariant 0 <= a < 0x1_0000_0000
        invariant ScanCalls(exe, starts, a) == ScanCalls(exe, found, exe.load)
      {
        var word := exe.ReadWord(a);
        if word.None? {
          break;
        }
        if Opcode(word.value) == 3 {
          var target := CallTarget(word.value);
          if exe.load <= target && target < exe.End() {
            starts := starts + {target};
          }
        }
        a := a + 4;
      }
    }

    method FindEpilogue(start: Word, end: Word) returns (found: bool)
      ensures found == HasReturn(exe, start, end)
    {
      found := false;
      var a: int := start;
      while a <= Back(end) && a < end
        invariant 0 <= a
        invariant HasReturn(exe, start, end) == HasReturn(exe, a, end)
      {
        if exe.Readable(a) && IsJrRa(exe.WordAt(a)) {
          return true;
        }
        a := a + 4;
      }
    }

    method IsLikelyDataSection(start: Word, end: Word) returns (isData: bool)
      ensures isData == LooksLikeData(exe, start, end)
    {
      var size := Wrap(end - start);
      if size < 100 {
        return false;
      }
      var calls, undefined := 0, 0;
      var a: int := start;
      while a < end
        invariant 0 <= a
        invariant TallyFrom(exe, start, end) ==
                  Tally(calls + TallyFrom(exe, a, end).calls, undefined + TallyFrom(exe, a, end).undefined)
      {
        var word := exe.ReadWord(a);
        if word.None? {
          break;
        }
        if Opcode(word.value) == 3 && CallTarget(word.value) > 0x801F_FFFF {
          calls := calls + 1;
        }
        if !ValidOpcode(Opcode(word.value)) {
          undefined := undefined + 1;
        }
        a := a + 4;
      }
      isData := TooOdd(size, Tally(calls, undefined));
    }

    method Analyze() returns (functions: seq<Func>)
      requires exe.Valid()
      ensures functions == FunctionsOf(exe, forced)
    {
      var rets := FindReturns();
      var found := FindReturnStarts(rets);
      found := AddCallTargets(found);
      for i := 0 to |forced|
        invariant found == ScanCalls(exe, ReturnStarts(exe, rets, |rets|), exe.load) + Members(forced[..i])
      {
        found := found + {forced[i]};
        assert Members(forced[..i + 1]) == Members(forced[..i]) + {forced[i]};
      }
      assert forced[..|forced|] == forced;
      functions := BuildTable(Ascending(found));
    }

    method BuildTable(starts: seq<Word>) returns (functions: seq<Func>)
      requires exe.Valid()
      ensures functions == TableOf(exe, forced, starts)
    {
      functions := [];
      for i := 0 to |starts|
        invariant |functions| == i
        invariant forall k | 0 <= k < i :: functions[k] == TableOf(exe, forced, starts)[k]
      {
        var start := starts[i];
        var end := if i + 1 < |starts| then starts[i + 1] else exe.End();
        var hasPrologue, frame := false, 0;
        var first := exe.ReadWord(start);
        if first.Some? {
          var prologue := Prologue(first.value);
          if prologue.Some? {
            hasPrologue, frame := true, prologue.value;
          }
        }
        var hasEpilogue := FindEpilogue(start, end);
        var isData := false;
        if start !in forced {
          isData := IsLikelyDataSection(start, end);
        }
        functions := functions + [Func(start, end, NameOf(start), hasPrologue, hasEpilogue, frame, isData)];
      }
    }
  }

  // ---------------------------------------------------------------- what the scans find

  lemma {:induction false} ReturnsInCode(exe: Exe, found: seq<Word>, a: Word, r: Word)
    requires Aligned(exe) && exe.load <= a && a % 4 == 0
    requires r in ScanReturns(exe, found, a)
    ensures r in found || (InCode(exe, r) && exe.Readable(r) && IsJrRa(exe.WordAt(r)))
    decreases if a < exe.End() then exe.End() - a else 0
  {
    exe.AddressBounds();
    if a < exe.End() && exe.Readable(a) {
      ReturnsInCode(exe, if IsJrRa(exe.WordAt(a)) then found + [a] else found, a + 4, r);
    }
  }

  lemma {:induction false} ReturnsKept(exe: Exe, found: seq<Word>, a: Word, r: Word)
    requires exe.Valid() && r in found
    ensures r in ScanReturns(exe, found, a)
    decreases if a < exe.End() then exe.End() - a else 0
  {
    if a < exe.End() && exe.Readable(a) {
      ReturnsKept(exe, if IsJrRa(exe.WordAt(a)) then found + [a] else found, a + 4, r);
    }
  }

  lemma {:induction false} ReturnFound(exe: Exe, found: seq<Word>, a: Word, r: Word)
    requires Aligned(exe) && InCode(exe, a) && InCode(exe, r) && a <= r
    requires exe.Readable(r) && IsJrRa(exe.WordAt(r))
    ensures r in ScanReturns(exe, found, a)
    decreases r - a
  {
    CodeReadable(exe, a);
    var more := if IsJrRa(exe.WordAt(a)) then found + [a] else found;
    if a == r {
      ReturnsKept(exe, more, a + 4, r);
    } else {
      NextWord(a, r);
      ReturnFound(exe, more, a + 4, r);
    }
  }

  lemma NextWord(a: int, r: int)
    requires a % 4 == 0 && r % 4 == 0 && a < r
    ensures a + 4 <= r && (a + 4) % 4 == 0
  {
  }

  lemma {:induction false} ReturnStartsAre(exe: Exe, rets: seq<Word>, n: nat, s: Word)
    requires exe.Valid() && n <= |rets|
    ensures s in ReturnStarts(exe, rets, n) <==> exists i :: 0 <= i < n && SearchBack(exe, rets[i], rets[i]) == s
  {
    if n > 0 {
      ReturnStartsAre(exe, rets, n - 1, s);
    }
  }

  lemma {:induction false} CallsAre(exe: Exe, found: set<Word>, a: Word, s: Word)
    requires exe.Valid() && s in ScanCalls(exe, found, a)
    ensures s in found || (exe.load <= s < exe.End() && s % 4 == 0)
    decreases if a < exe.End() then exe.End() - a else 0
  {
    if a < exe.End() && exe.Readable(a) {
      var w := exe.WordAt(a);
      CallsAre(exe, if CallsInside(exe, w) then found + {CallTarget(w)} else found, a + 4, s);
    }
  }

  lemma {:induction false} CallsKept(exe: Exe, found: set<Word>, a: Word)
    requires exe.Valid()
    ensures found <= ScanCalls(exe, found, a)
    decreases if a < exe.End() then exe.End() - a else 0
  {
    if a < exe.End() && exe.Readable(a) {
      var w := exe.WordAt(a);
      CallsKept(exe, if CallsInside(exe, w) then found + {CallTarget(w)} else found, a + 4);
    }
  }

  /** Every call into the executable makes a function of its target. */
  lemma {:induction false} CallFound(exe: Exe, found: set<Word>, a: Word, c: Word)
    requires Aligned(exe) && InCode(exe, a) && InCode(exe, c) && a <= c
    requires exe.Readable(c) && CallsInside(exe, exe.WordAt(c))
    ensures CallTarget(exe.WordAt(c)) in ScanCalls(exe, found, a)
    decreases c - a
  {
    CodeReadable(exe, a);
    var w := exe.WordAt(a);
    var more := if CallsInside(exe, w) then found + {CallTarget(w)} else found;
    if a == c {
      CallsKept(exe, more, a + 4);
    } else {
      NextWord(a, c);
      CallFound(exe, more, a + 4, c);
    }
  }

  /** The executable ends in two jr $ra words. */
  predicate EndsInTwoReturns(exe: Exe)
    requires Aligned(exe)
  {
    && exe.fileSize >= 8
    && exe.Readable(exe.End() - 8) && IsJrRa(exe.WordAt(exe.End() - 8))
    && exe.Readable(exe.End() - 4) && IsJrRa(exe.WordAt(exe.End() - 4))
  }

  predicate ForcedOk(exe: Exe, forced: seq<Word>) {
    forall a | a in forced :: InCode(exe, a)
  }

  /** Starts are addresses of words of the executable, or its end. */
  lemma StartRange(exe: Exe, forced: seq<Word>, s: Word)
    requires Aligned(exe) && ForcedOk(exe, forced) && s in StartSet(exe, forced)
    ensures exe.load <= s <= exe.End() && s % 4 == 0
    ensures s == exe.End() ==> EndsInTwoReturns(exe)
  {
    exe.AddressBounds();
    var rets := ScanReturns(exe, [], exe.load);
    var found := ReturnStarts(exe, rets, |rets|);
    if s in Members(forced) {
    } else {
      CallsAre(exe, found, exe.load, s);
      if s in found {
        ReturnStartsAre(exe, rets, |rets|, s);
        var i :| 0 <= i < |rets| && SearchBack(exe, rets[i], rets[i]) == s;
        ReturnsInCode(exe, [], exe.load, rets[i]);
        CodeReadable(exe, rets[i]);
        FoundStart(exe, rets[i]);
      }
    }
  }

  /** The end of the executable counts as a start exactly when two returns end it. */
  lemma EndIsStart(exe: Exe, forced: seq<Word>)
    requires Aligned(exe) && ForcedOk(exe, forced)
    ensures exe.End() in StartSet(exe, forced) <==> EndsInTwoReturns(exe)
  {
    if exe.End() in StartSet(exe, forced) {
      StartRange(exe, forced, exe.End());
    }
    if EndsInTwoReturns(exe) {
      exe.AddressBounds();
      var rets := ScanReturns(exe, [], exe.load);
      var last: Word := exe.End() - 4;
      ReturnFound(exe, [], exe.load, last);
      var i :| 0 <= i < |rets| && rets[i] == last;
      FoundStart(exe, last);
      ReturnStartsAre(exe, rets, |rets|, exe.End());
      CallsKept(exe, ReturnStarts(exe, rets, |rets|), exe.load);
    }
  }

  // ---------------------------------------------------------------- the functions tile

  /** Each function ends where the next begins, and the last at the end of the executable. */
  ghost predicate Chained(exe: Exe, functions: seq<Func>) {
    && (forall i: nat {:trigger Meets(functions, i)} | i + 1 < |functions| :: Meets(functions, i))
    && (functions != [] ==> functions[|functions| - 1].end == exe.End())
  }

  predicate Meets(functions: seq<Func>, i: nat) {
    i + 1 < |functions| ==> functions[i].end == functions[i + 1].start
  }

  /** Functions tile the code from the first start to the end; each is a non-empty run of whole
      words, unless the executable ends in two returns. */
  lemma FunctionsTile(exe: Exe, forced: seq<Word>)
    requires Aligned(exe) && ForcedOk(exe, forced)
    ensures var functions := FunctionsOf(exe, forced);
            && Chained(exe, functions)
            && ((forall f | f in functions :: Placed(exe, f)) <==> !EndsInTwoReturns(exe))
  {
    var starts := Ascending(StartSet(exe, forced));
    var functions := FunctionsOf(exe, forced);
    EndIsStart(exe, forced);
    AllChained(exe, forced);
    if EndsInTwoReturns(exe) {
      AscendingHasAll(StartSet(exe, forced), exe.End());
      var k :| 0 <= k < |starts| && starts[k] == exe.End();
      EndNotPlaced(exe, forced, k);
    } else {
      forall f | f in functions ensures Placed(exe, f) {
        var k: nat :| k < |functions| && functions[k] == f;
        IsPlaced(exe, forced, k);
      }
    }
  }

  lemma AllChained(exe: Exe, forced: seq<Word>)
    requires exe.Valid()
    ensures Chained(exe, FunctionsOf(exe, forced))
  {
  }

  lemma EndNotPlaced(exe: Exe, forced: seq<Word>, k: nat)
    requires Aligned(exe) && k < |Ascending(StartSet(exe, forced))|
    requires Ascending(StartSet(exe, forced))[k] == exe.End()
    ensures var functions := FunctionsOf(exe, forced);
            functions[k] in functions && !Placed(exe, functions[k])
  {
  }

  /** Two jr $ra and nothing else. */
  function TwoReturns(): Exe {
    Exe(0x8001_0000, 8, [0x08, 0x00, 0xE0, 0x03, 0x08, 0x00, 0xE0, 0x03])
  }

  /** For these eight bytes the analysis returns a function that starts and ends at the end. */
  lemma TwoReturnsFail()
    ensures Aligned(TwoReturns()) && EndsInTwoReturns(TwoReturns())
    ensures exists f :: f in FunctionsOf(TwoReturns(), []) && f.start == f.end == TwoReturns().End()
  {
    var exe := TwoReturns();
    assert exe.ReadWord(0x8001_0000) == Some(0x03E0_0008) && exe.ReadWord(0x8001_0004) == Some(0x03E0_0008);
    EndIsStart(exe, []);
    var starts := Ascending(StartSet(exe, []));
    AscendingHasAll(StartSet(exe, []), exe.End());
    var k :| 0 <= k < |starts| && starts[k] == exe.End();
    AscendingIsStrict(StartSet(exe, []));
    if k + 1 < |starts| {
      assert Below(starts, k, k + 1);
      StartRange(exe, [], starts[k + 1]);
    }
    assert FunctionsOf(exe, [])[k] in FunctionsOf(exe, []);
  }

  lemma IsPlaced(exe: Exe, forced: seq<Word>, k: nat)
    requires Aligned(exe) && ForcedOk(exe, forced) && !EndsInTwoReturns(exe)
    requires k < |Ascending(StartSet(exe, forced))|
    ensures Placed(exe, FunctionsOf(exe, forced)[k])
  {
    var starts := Ascending(StartSet(exe, forced));
    StartBelowEnd(exe, forced, starts[k]);
    if k + 1 < |starts| {
      AscendingIsStrict(StartSet(exe, forced));
      assert Below(starts, k, k + 1);
      StartBelowEnd(exe, forced, starts[k + 1]);
    }
  }

  lemma StartBelowEnd(exe: Exe, forced: seq<Word>, s: Word)
    requires Aligned(exe) && ForcedOk(exe, forced) && !EndsInTwoReturns(exe) && s in StartSet(exe, forced)
    ensures exe.load <= s < exe.End() && s % 4 == 0 && exe.End() % 4 == 0
  {
    StartRange(exe, forced, s);
    EndAligned(exe);
  }

  lemma EndAligned(exe: Exe)
    requires Aligned(exe)
    ensures exe.End() == exe.load + exe.fileSize && exe.End() % 4 == 0
  {
  }

  predicate Holds(functions: seq<Func>, i: nat, a: int) {
    i < |functions| && functions[i].start <= a < functions[i].end
  }

  lemma {:induction false} FindHolder(exe: Exe, functions: seq<Func>, n: nat, a: int) returns (i: nat)
    requires Chained(exe, functions) && 0 < n <= |functions|
    requires functions[0].start <= a < functions[n - 1].end
    ensures Holds(functions, i, a)
  {
    if a >= functions[n - 1].start {
      i := n - 1;
    } else {
      assert Meets(functions, n - 2);
      i := FindHolder(exe, functions, n - 1, a);
    }
  }

  /** Every address from the first start on is in one function and in no other. */
  lemma HeldOnce(exe: Exe, forced: seq<Word>, a: int)
    requires Aligned(exe) && ForcedOk(exe, forced)
    requires var functions := FunctionsOf(exe, forced);
             functions != [] && functions[0].start <= a < exe.End()
    ensures var functions := FunctionsOf(exe, forced);
            exists i: nat :: Holds(functions, i, a) && forall j: nat | Holds(functions, j, a) :: i == j
  {
    var functions := FunctionsOf(exe, forced);
    FunctionsTile(exe, forced);
    var i := FindHolder(exe, functions, |functions|, a);
    forall j: nat | Holds(functions, j, a) ensures i == j {
      HoldersAgree(exe, forced, i, j, a);
      HoldersAgree(exe, forced, j, i, a);
    }
  }

  lemma StartsAscend(exe: Exe, forced: seq<Word>, i: nat, j: nat)
    requires exe.Valid() && i < j < |FunctionsOf(exe, forced)|
    ensures FunctionsOf(exe, forced)[i].start < FunctionsOf(exe, forced)[j].start
  {
    AscendingIsStrict(StartSet(exe, forced));
    StrictAt(Ascending(StartSet(exe, forced)), i, j);
  }

  lemma HoldersAgree(exe: Exe, forced: seq<Word>, i: nat, j: nat, a: int)
    requires exe.Valid()
    requires var functions := FunctionsOf(exe, forced); Holds(functions, i, a) && Holds(functions, j, a)
    ensures i >= j
  {
    if i < j {
      EndIsNext(exe, forced, i);
      if i + 1 < j {
        StartsAscend(exe, forced, i + 1, j);
      }
    }
  }

  /** The target of every call into the executable is the start of a function. */
  lemma CalleesAreFunctions(exe: Exe, forced: seq<Word>, c: Word)
    requires Aligned(exe) && InCode(exe, c) && exe.Readable(c) && CallsInside(exe, exe.WordAt(c))
    ensures exists f :: f in FunctionsOf(exe, forced) && f.start == CallTarget(exe.WordAt(c))
  {
    var t := CallTarget(exe.WordAt(c));
    var rets := ScanReturns(exe, [], exe.load);
    CallFound(exe, ReturnStarts(exe, rets, |rets|), exe.load, c);
    AscendingHasAll(StartSet(exe, forced), t);
    var k :| 0 <= k < |Ascending(StartSet(exe, forced))| && Ascending(StartSet(exe, forced))[k] == t;
    var f := FunctionsOf(exe, forced)[k];
    assert f in FunctionsOf(exe, forced) && f.start == t;
  }

  lemma AllNamed(exe: Exe, forced: seq<Word>)
    requires exe.Valid()
    ensures forall f | f in FunctionsOf(exe, forced) :: f.name == NameOf(f.start)
  {
  }

  lemma EndIsNext(exe: Exe, forced: seq<Word>, i: nat)
    requires exe.Valid() && i + 1 < |FunctionsOf(exe, forced)|
    ensures FunctionsOf(exe, forced)[i].end == FunctionsOf(exe, forced)[i + 1].start
  {
  }

  /** The function after f is the one that the fall-through of f calls. */
  lemma FollowedBy(exe: Exe, forced: seq<Word>, i: nat)
    requires exe.Valid()
    requires i + 1 < |FunctionsOf(exe, forced)|
    ensures var functions := FunctionsOf(exe, forced);
            Following(NameTable(functions, |functions|), functions[i]) == Some(functions[i].end)
  {
    AllNamed(exe, forced);
    EndIsNext(exe, forced, i);
    NextNamed(FunctionsOf(exe, forced), i);
  }

  lemma NextNamed(functions: seq<Func>, i: nat)
    requires i + 1 < |functions| && functions[i].end == functions[i + 1].start
    requires forall f | f in functions :: f.name == NameOf(f.start)
    ensures Following(NameTable(functions, |functions|), functions[i]) == Some(functions[i].end)
  {
    Named(functions, |functions|, i + 1);
  }

  lemma {:induction false} Named(functions: seq<Func>, n: nat, i: nat)
    requires i < n <= |functions| && forall f | f in functions :: f.name == NameOf(f.start)
    ensures functions[i].start in NameTable(functions, n)
    ensures NameTable(functions, n)[functions[i].start] == NameOf(functions[i].start) != ""
  {
    if i < n - 1 {
      Named(functions, n - 1, i);
    } else {
      assert functions[i] in functions;
    }
  }
}
