/** Recognising the jump table of an indirect jump from the words before it. */
module JumpTables {
  import opened Options
  import opened Mips
  import opened Executable

  /** What the backward scan has seen so far: the load of the target, the addition that makes the
      load's address with its two operands, a constant added to either operand, the upper half of
      the table's address, and the bound on the index. Once the upper half is found, the first
      constant is the one of the operand that holds the table. */
  datatype Scan = Scan(load: Option<Reg>, offset: int,
                       added: bool, left: Reg, right: Reg,
                       leftConst: Option<int>, rightConst: Option<int>,
                       upper: Option<Word>, count: Word)

  function NothingSeen(): Scan {
    Scan(None, 0, false, 0, 0, None, None, None, 0)
  }

  function UpperHalf(w: Word): Word {
    w % 0x1_0000 * 0x1_0000
  }

  function SeeConst(s: Scan, w: Word): Scan {
    if s.leftConst.None? && Rs(w) == s.left == Rt(w) then s.(leftConst := Some(Imm(w)))
    else if s.rightConst.None? && Rs(w) == s.right == Rt(w) then s.(rightConst := Some(Imm(w)))
    else s
  }

  function SeeUpper(s: Scan, w: Word): Scan {
    if Rt(w) == s.left then s.(upper := Some(UpperHalf(w)))
    else if Rt(w) == s.right then s.(upper := Some(UpperHalf(w)), leftConst := s.rightConst)
    else s
  }

  /** The immediate that a word loads into register r, if it loads one. */
  function Loaded(w: Word, r: Reg): Option<Word> {
    if Opcode(w) == 0xD && Rs(w) == 0 && Rt(w) == r then Some(w % 0x1_0000)
    else if Opcode(w) == 9 && Rs(w) == 0 && Rt(w) == r then Some(Wrap(Imm(w)))
    else None
  }

  /** The bound that a comparison takes from register r: the last immediate loaded into it before
      the given distance; 0 if none is found within 50 words. */
  function BoundIn(exe: Exe, start: Word, at: Word, r: Reg, back: nat): Word
    decreases 51 - back, at
  {
    if back > 50 || 4 * back > at then 0
    else
      var a := at - 4 * back;
      if a < start || !exe.Readable(a) then 0
      else if Loaded(exe.WordAt(a), r).Some? then Loaded(exe.WordAt(a), r).value
      else BoundIn(exe, start, at, r, back + 1)
  }

  datatype Seen = More(scan: Scan) | Enough

  /** One word of the scan for a jump through register r. The scan of the translator also follows
      a comparison of two registers to the bound it was loaded with; the pre-scan does not. */
  function See(r: Reg, wide: bool, s: Scan, w: Word, bound: Word): Seen {
    if Opcode(w) == 0x23 && Rt(w) == r && s.load.None? then More(s.(load := Some(Rs(w)), offset := Imm(w)))
    else if Opcode(w) == 0 && Funct(w) == 0x21 && s.load == Some(Rd(w)) && !s.added then
      More(s.(added := true, left := Rs(w), right := Rt(w)))
    else if Opcode(w) == 9 && s.added then More(SeeConst(s, w))
    else if Opcode(w) == 0xF && s.added && s.upper.None? then More(SeeUpper(s, w))
    else if Opcode(w) == 0xB && s.count == 0 then More(s.(count := w % 0x1_0000))
    else if wide && IsCompare(w) && s.count == 0 then More(s.(count := bound))
    else if s.upper.Some? && s.count != 0 then Enough
    else More(s)
  }

  predicate IsCompare(w: Word) {
    Opcode(w) == 0 && Funct(w) == 0x2B
  }

  function ScanBack(exe: Exe, start: Word, at: Word, r: Reg, wide: bool, back: nat, s: Scan): Scan
    decreases 41 - back, at
  {
    var a := Wrap(at - 4 * back);
    if back > 40 || a < start || !exe.Readable(a) then s
    else
      match See(r, wide, s, exe.WordAt(a), BoundIn(exe, start, at, Rs(exe.WordAt(a)), back + 1))
      case Enough => s
      case More(s') => ScanBack(exe, start, at, r, wide, back + 1, s')
  }

  /** A table: its address and its number of entries. */
  datatype Table = Table(base: Word, count: nat)

  function TableSeen(s: Scan, limit: nat): Option<Table> {
    if s.upper.None? || s.count == 0 || s.count >= limit then None
    else
      var base := Wrap(s.upper.value + (if s.leftConst.Some? then s.leftConst.value else 0) + s.offset);
      if base == 0 then None else Some(Table(base, s.count))
  }

  /** The translator's scan and the narrower pre-scan, which also takes only shorter tables. */
  function Limit(wide: bool): nat {
    if wide then 1024 else 512
  }

  function FindTable(exe: Exe, start: Word, at: Word, r: Reg, wide: bool): Option<Table> {
    TableSeen(ScanBack(exe, start, at, r, wide, 1, NothingSeen()), Limit(wide))
  }

  /** The readable ones of the first n entries. */
  function Entries(exe: Exe, base: Word, n: nat): seq<Word> {
    if n == 0 then []
    else
      var e := exe.ReadWord(Wrap(base + 4 * (n - 1)));
      Entries(exe, base, n - 1) + if e.Some? then [e.value] else []
  }

  /** The entries of the table found for a jump through register r at the given address. */
  function TableEntries(exe: Exe, start: Word, at: Word, r: Reg, wide: bool): seq<Word> {
    match FindTable(exe, start, at, r, wide)
    case None => []
    case Some(t) => Entries(exe, t.base, t.count)
  }

  /** The tables of a function, by the address of the jump and its register. */
  type Tables = (Word, Reg) -> seq<Word>

  function TablesOf(exe: Exe, start: Word, wide: bool): Tables {
    (at: Word, r: Reg) => TableEntries(exe, start, at, r, wide)
  }

  // ---------------------------------------------------------------- the scan as it is run

  method TraceBound(exe: Exe, start: Word, at: Word, r: Reg, back: nat) returns (count: Word)
    ensures count == BoundIn(exe, start, at, r, back)
  {
    count := 0;
    var back2 := back;
    while back2 <= 50
      invariant back2 >= back && BoundIn(exe, start, at, r, back) == BoundIn(exe, start, at, r, back2)
      decreases 51 - back2
    {
      if 4 * back2 > at {
        return;
      }
      var a := at - 4 * back2;
      if a < start {
        return;
      }
      var word := exe.ReadWord(a);
      if word.None? {
        return;
      }
      var bound := Loaded(word.value, r);
      if bound.Some? {
        return bound.value;
      }
      back2 := back2 + 1;
    }
  }

  method ScanForTable(exe: Exe, start: Word, at: Word, r: Reg, wide: bool) returns (table: Option<Table>)
    ensures table == FindTable(exe, start, at, r, wide)
  {
    var s := NothingSeen();
    var back: nat := 1;
    while back <= 40
      invariant ScanBack(exe, start, at, r, wide, 1, NothingSeen()) == ScanBack(exe, start, at, r, wide, back, s)
      decreases 41 - back
    {
      var a := Wrap(at - 4 * back);
      if a < start {
        break;
      }
      var word := exe.ReadWord(a);
      if word.None? {
        break;
      }
      var bound := 0;
      if wide && IsCompare(word.value) && s.count == 0 {
        bound := TraceBound(exe, start, at, Rs(word.value), back + 1);
      }
      assert See(r, wide, s, word.value, bound) ==
             See(r, wide, s, word.value, BoundIn(exe, start, at, Rs(word.value), back + 1));
      match See(r, wide, s, word.value, bound) {
        case Enough => break;
        case More(s') => s := s';
      }
      back := back + 1;
    }
    table := TableSeen(s, Limit(wide));
  }

  method ReadEntries(exe: Exe, base: Word, count: nat) returns (entries: seq<Word>)
    ensures entries == Entries(exe, base, count)
  {
    entries := [];
    for i := 0 to count
      invariant entries == Entries(exe, base, i)
    {
      var e := exe.ReadWord(Wrap(base + 4 * i));
      if e.Some? {
        entries := entries + [e.value];
      }
    }
  }

  // ---------------------------------------------------------------- what the scan reads

  /** The entries are exactly the readable words of the table. */
  lemma {:induction false} EntryIsRead(exe: Exe, base: Word, n: nat, e: Word)
    ensures e in Entries(exe, base, n) <==> exists i: nat :: i < n && exe.ReadWord(Wrap(base + 4 * i)) == Some(e)
  {
    if n > 0 {
      EntryIsRead(exe, base, n - 1, e);
      if i: nat :| i < n && exe.ReadWord(Wrap(base + 4 * i)) == Some(e) {
        assert i < n - 1 || i == n - 1;
      }
    }
  }

  /** The word the given number of words before the jump, if the scan gets there. */
  predicate InReach(exe: Exe, start: Word, at: Word, back: nat) {
    4 * back <= at && start <= at - 4 * back && exe.Readable(at - 4 * back)
  }

  function Before(exe: Exe, at: Word, back: nat): Word
    requires 4 * back <= at && exe.Readable(at - 4 * back)
  {
    exe.WordAt(at - 4 * back)
  }

  // ---------------------------------------------------------------- the two scans agree

  /** A comparison of two registers whose bound the translator finds. */
  predicate Traced(exe: Exe, start: Word, at: Word, back: nat)
    requires 4 * back <= at && exe.Readable(at - 4 * back)
  {
    IsCompare(Before(exe, at, back)) && BoundIn(exe, start, at, Rs(Before(exe, at, back)), back + 1) != 0
  }

  ghost predicate NothingTraced(exe: Exe, start: Word, at: Word) {
    forall back: nat {:trigger InReach(exe, start, at, back)} |
      1 <= back <= 40 && InReach(exe, start, at, back) :: !Traced(exe, start, at, back)
  }

  lemma ReachWraps(exe: Exe, start: Word, at: Word, back: nat)
    requires exe.Valid() && exe.load <= start && at < 0x8020_0000 && back <= 40
    ensures var a := Wrap(at - 4 * back);
            (a < start || !exe.Readable(a)) == !InReach(exe, start, at, back)
    ensures InReach(exe, start, at, back) ==> Wrap(at - 4 * back) == at - 4 * back
  {
    exe.AddressBounds();
  }

  lemma {:induction false} ScansAgree(exe: Exe, start: Word, at: Word, r: Reg, back: nat, s: Scan)
    requires exe.Valid() && exe.load <= start && at < 0x8020_0000 && back >= 1
    requires NothingTraced(exe, start, at)
    ensures ScanBack(exe, start, at, r, true, back, s) == ScanBack(exe, start, at, r, false, back, s)
    decreases 41 - back, at
  {
    if back <= 40 {
      ReachWraps(exe, start, at, back);
      if InReach(exe, start, at, back) {
        var w := Before(exe, at, back);
        var bound := BoundIn(exe, start, at, Rs(w), back + 1);
        SeesAlike(r, s, w, bound);
        if See(r, true, s, w, bound).More? {
          ScansAgree(exe, start, at, r, back + 1, See(r, true, s, w, bound).scan);
        }
      }
    }
  }

  lemma SeesAlike(r: Reg, s: Scan, w: Word, bound: Word)
    requires IsCompare(w) ==> bound == 0
    ensures See(r, true, s, w, bound) == See(r, false, s, w, bound)
  {
  }

  /** Where no comparison of registers in reach has a bound to be traced to, the pre-scan finds the
      translator's table, if and only if it has fewer than 512 entries. */
  lemma TablesAgree(exe: Exe, start: Word, at: Word, r: Reg)
    requires exe.Valid() && exe.load <= start && at < 0x8020_0000 && NothingTraced(exe, start, at)
    ensures var table := FindTable(exe, start, at, r, true);
            FindTable(exe, start, at, r, false) == if table.Some? && table.value.count < 512 then table else None
  {
    ScansAgree(exe, start, at, r, 1, NothingSeen());
  }

  // ---------------------------------------------------------------- no table without a bound

  /** A word that gives a bound on the index: sltiu, or a comparison that the translator traces. */
  predicate GivesBound(exe: Exe, start: Word, at: Word, wide: bool, back: nat)
    requires 4 * back <= at && exe.Readable(at - 4 * back)
  {
    Opcode(Before(exe, at, back)) == 0xB || (wide && Traced(exe, start, at, back))
  }

  ghost predicate Unbounded(exe: Exe, start: Word, at: Word, wide: bool) {
    forall back: nat {:trigger InReach(exe, start, at, back)} |
      1 <= back <= 40 && InReach(exe, start, at, back) :: !GivesBound(exe, start, at, wide, back)
  }

  lemma {:induction false} CountStays(exe: Exe, start: Word, at: Word, r: Reg, wide: bool, back: nat, s: Scan)
    requires exe.Valid() && exe.load <= start && at < 0x8020_0000 && back >= 1
    requires Unbounded(exe, start, at, wide) && s.count == 0
    ensures ScanBack(exe, start, at, r, wide, back, s).count == 0
    decreases 41 - back, at
  {
    if back <= 40 {
      ReachWraps(exe, start, at, back);
      if InReach(exe, start, at, back) {
        var w := Before(exe, at, back);
        var seen := See(r, wide, s, w, BoundIn(exe, start, at, Rs(w), back + 1));
        if seen.More? {
          CountStays(exe, start, at, r, wide, back + 1, seen.scan);
        }
      }
    }
  }

  /** A scan that meets no bound on the index finds no table. */
  lemma NoTable(exe: Exe, start: Word, at: Word, r: Reg, wide: bool)
    requires exe.Valid() && exe.load <= start && at < 0x8020_0000 && Unbounded(exe, start, at, wide)
    ensures FindTable(exe, start, at, r, wide) == None
  {
    CountStays(exe, start, at, r, wide, 1, NothingSeen());
  }

  // ---------------------------------------------------------------- the compilers' sequence is recognised

  /** A word that the scan passes over. */
  predicate Neutral(wide: bool, w: Word) {
    && Opcode(w) != 0x23 && Opcode(w) != 9 && Opcode(w) != 0xF && Opcode(w) != 0xB
    && (Opcode(w) == 0 ==> Funct(w) != 0x21) && !(wide && IsCompare(w))
  }

  ghost predicate NeutralTo(exe: Exe, start: Word, at: Word, wide: bool, back: nat, to: nat) {
    forall k: nat {:trigger InReach(exe, start, at, k)} |
      back <= k < to :: InReach(exe, start, at, k) && Neutral(wide, Before(exe, at, k))
  }

  lemma {:induction false} ScanSkips(exe: Exe, start: Word, at: Word, r: Reg, wide: bool, back: nat, to: nat, s: Scan)
    requires exe.Valid() && exe.load <= start && at < 0x8020_0000 && back <= to <= 41
    requires NeutralTo(exe, start, at, wide, back, to) && (s.upper.None? || s.count == 0)
    ensures ScanBack(exe, start, at, r, wide, back, s) == ScanBack(exe, start, at, r, wide, to, s)
    decreases 41 - back
  {
    if back < to {
      ReachWraps(exe, start, at, back);
      assert InReach(exe, start, at, back);
      SeesNothing(r, wide, s, Before(exe, at, back), BoundIn(exe, start, at, Rs(Before(exe, at, back)), back + 1));
      ScanSkips(exe, start, at, r, wide, back + 1, to, s);
    }
  }

  lemma SeesNothing(r: Reg, wide: bool, s: Scan, w: Word, bound: Word)
    requires Neutral(wide, w) && (s.upper.None? || s.count == 0)
    ensures See(r, wide, s, w, bound) == More(s)
  {
  }

  /** A scan ends with what it has seen where it can go no further back. */
  lemma ScanEnds(exe: Exe, start: Word, at: Word, r: Reg, wide: bool, back: nat, s: Scan)
    requires exe.Valid() && exe.load <= start && at < 0x8020_0000
    requires back > 40 || !InReach(exe, start, at, back)
    ensures ScanBack(exe, start, at, r, wide, back, s) == s
  {
    if back <= 40 {
      ReachWraps(exe, start, at, back);
    }
  }

  /** A scan that has seen s before word back has seen s' before word to. */
  ghost predicate Goes(exe: Exe, start: Word, at: Word, r: Reg, wide: bool, back: nat, s: Scan, to: nat, s': Scan) {
    forall b: nat, x {:trigger ScanBack(exe, start, at, r, wide, b, x)} | b == back && x == s ::
      ScanBack(exe, start, at, r, wide, b, x) == ScanBack(exe, start, at, r, wide, to, s')
  }

  lemma GoesOn(exe: Exe, start: Word, at: Word, r: Reg, wide: bool, i: nat, s: Scan, j: nat, s': Scan,
               k: nat, s'': Scan)
    requires Goes(exe, start, at, r, wide, i, s, j, s') && Goes(exe, start, at, r, wide, j, s', k, s'')
    ensures Goes(exe, start, at, r, wide, i, s, k, s'')
  {
  }

  /** Neutral words up to a word that adds to what has been seen. */
  lemma ScanTo(exe: Exe, start: Word, at: Word, r: Reg, wide: bool, back: nat, to: nat, s: Scan, w: Word, s': Scan)
    requires exe.Valid() && exe.load <= start && at < 0x8020_0000 && back <= to <= 40
    requires NeutralTo(exe, start, at, wide, back, to) && (s.upper.None? || s.count == 0)
    requires InReach(exe, start, at, to) && Before(exe, at, to) == w
    requires See(r, wide, s, w, BoundIn(exe, start, at, Rs(w), to + 1)) == More(s')
    ensures Goes(exe, start, at, r, wide, back, s, to + 1, s')
  {
    ScanSkips(exe, start, at, r, wide, back, to, s);
    ReachWraps(exe, start, at, to);
  }

  predicate LoadsFrom(w: Word, r: Reg, base: Reg, offset: int) {
    Opcode(w) == 0x23 && Rt(w) == r && Rs(w) == base && Imm(w) == offset
  }

  /** Adds the table's register and another one, in either order. */
  predicate AddsTable(w: Word, sum: Reg, table: Reg) {
    && Opcode(w) == 0 && Funct(w) == 0x21 && Rd(w) == sum
    && (Rs(w) == table || Rt(w) == table) && Rs(w) != Rt(w)
  }

  predicate AddsConst(w: Word, r: Reg, low: int) {
    Opcode(w) == 9 && Rs(w) == r == Rt(w) && Imm(w) == low
  }

  predicate LoadsUpper(w: Word, r: Reg, high: Word) {
    Opcode(w) == 0xF && Rt(w) == r && UpperHalf(w) == high
  }

  /** Compares the index with n: by sltiu, or, for the translator, by sltu with a register whose
      load it can trace. */
  predicate ComparesIndex(wide: bool, w: Word, bound: Word, n: Word) {
    if Opcode(w) == 0xB then w % 0x1_0000 == n else wide && IsCompare(w) && bound == n
  }

  /** Where the words of a dispatch lie, counted back from the jump, and what they hold: the
      registers, the upper half of the table's address, the constant in the load, the number of
      entries. */
  datatype Dispatch = Dispatch(load: nat, add: nat, upper: nat, bound: nat,
                               sum: Reg, table: Reg, high: Word, offset: int, n: Word)

  /** The words at distance back is w, with neutral words from a distance up to it. */
  ghost predicate FoundAt(exe: Exe, start: Word, at: Word, wide: bool, from: nat, back: nat, w: Word) {
    && from <= back <= 40 && NeutralTo(exe, start, at, wide, from, back)
    && InReach(exe, start, at, back) && Before(exe, at, back) == w
  }

  lemma ScanFinds(exe: Exe, start: Word, at: Word, r: Reg, wide: bool, from: nat, back: nat, s: Scan, w: Word, s': Scan)
    requires exe.Valid() && exe.load <= start && at < 0x8020_0000
    requires FoundAt(exe, start, at, wide, from, back, w) && (s.upper.None? || s.count == 0)
    requires See(r, wide, s, w, BoundIn(exe, start, at, Rs(w), back + 1)) == More(s')
    ensures Goes(exe, start, at, r, wide, from, s, back + 1, s')
  {
    ScanTo(exe, start, at, r, wide, from, back, s, w, s');
  }

  /** The words of a dispatch: load, addition, upper half and comparison, and the constant added
      to the upper half, if there is one. */
  datatype Words = Words(load: Word, add: Word, upper: Word, bound: Word)

  /** The load and the addition, nearest to the jump. */
  ghost predicate LoadsAndAdds(exe: Exe, start: Word, at: Word, r: Reg, wide: bool, d: Dispatch, ws: Words) {
    && d.load >= 1 && FoundAt(exe, start, at, wide, 1, d.load, ws.load) && LoadsFrom(ws.load, r, d.sum, d.offset)
    && FoundAt(exe, start, at, wide, d.load + 1, d.add, ws.add) && AddsTable(ws.add, d.sum, d.table)
  }

  /** The upper half and the comparison, from a distance on. */
  ghost predicate LoadsAndCompares(exe: Exe, start: Word, at: Word, wide: bool, from: nat, d: Dispatch, ws: Words) {
    && FoundAt(exe, start, at, wide, from, d.upper, ws.upper) && LoadsUpper(ws.upper, d.table, d.high)
    && FoundAt(exe, start, at, wide, d.upper + 1, d.bound, ws.bound)
    && ComparesIndex(wide, ws.bound, BoundIn(exe, start, at, Rs(ws.bound), d.bound + 1), d.n)
  }

  /** What is known after the load and the addition, with the constants added to the operands. */
  function AfterAdd(d: Dispatch, add: Word, leftConst: Option<int>, rightConst: Option<int>): Scan {
    Scan(Some(d.sum), d.offset, true, Rs(add), Rt(add), leftConst, rightConst, None, 0)
  }

  lemma ScanLoads(exe: Exe, start: Word, at: Word, r: Reg, wide: bool, d: Dispatch, ws: Words)
    requires exe.Valid() && exe.load <= start && at < 0x8020_0000
    requires LoadsAndAdds(exe, start, at, r, wide, d, ws)
    ensures Goes(exe, start, at, r, wide, 1, NothingSeen(), d.add + 1, AfterAdd(d, ws.add, None, None))
  {
    var s1 := NothingSeen().(load := Some(d.sum), offset := d.offset);
    var s2 := AfterAdd(d, ws.add, None, None);
    SeeLoad(r, wide, ws.load, d, BoundIn(exe, start, at, Rs(ws.load), d.load + 1));
    ScanFinds(exe, start, at, r, wide, 1, d.load, NothingSeen(), ws.load, s1);
    SeeAdd(r, wide, ws.add, d, BoundIn(exe, start, at, Rs(ws.add), d.add + 1));
    ScanFinds(exe, start, at, r, wide, d.load + 1, d.add, s1, ws.add, s2);
    GoesOn(exe, start, at, r, wide, 1, NothingSeen(), d.load + 1, s1, d.add + 1, s2);
  }

  lemma SeeLoad(r: Reg, wide: bool, w: Word, d: Dispatch, bound: Word)
    requires LoadsFrom(w, r, d.sum, d.offset)
    ensures See(r, wide, NothingSeen(), w, bound) == More(NothingSeen().(load := Some(d.sum), offset := d.offset))
  {
  }

  lemma SeeAdd(r: Reg, wide: bool, w: Word, d: Dispatch, bound: Word)
    requires AddsTable(w, d.sum, d.table)
    ensures See(r, wide, NothingSeen().(load := Some(d.sum), offset := d.offset), w, bound) ==
            More(AfterAdd(d, w, None, None))
  {
  }

  /** The constant of the operand that holds the table, once its upper half is found. */
  function TableConst(s: Scan, table: Reg): Option<int> {
    if table == s.left then s.leftConst else s.rightConst
  }

  /** Everything but the count, which may be there already. */
  function WithUpper(s: Scan, d: Dispatch): Scan {
    s.(upper := Some(d.high), leftConst := TableConst(s, d.table))
  }

  lemma SeeHigh(r: Reg, wide: bool, w: Word, s: Scan, d: Dispatch, bound: Word)
    requires LoadsUpper(w, d.table, d.high) && s.load.Some? && s.added && s.upper.None?
    requires d.table == s.left || d.table == s.right
    ensures See(r, wide, s, w, bound) == More(WithUpper(s, d))
  {
  }

  lemma SeeBound(r: Reg, wide: bool, w: Word, s: Scan, d: Dispatch, bound: Word)
    requires ComparesIndex(wide, w, bound, d.n) && s.load.Some? && s.added && s.count == 0
    ensures See(r, wide, s, w, bound) == More(s.(count := d.n))
  {
  }

  lemma ScanCompares(exe: Exe, start: Word, at: Word, r: Reg, wide: bool, from: nat, d: Dispatch, ws: Words,
                     s: Scan, all: Scan)
    requires exe.Valid() && exe.load <= start && at < 0x8020_0000
    requires LoadsAndCompares(exe, start, at, wide, from, d, ws)
    requires s.load.Some? && s.added && s.upper.None? && s.count == 0 && (d.table == s.left || d.table == s.right)
    requires all == WithUpper(s, d).(count := d.n)
    ensures Goes(exe, start, at, r, wide, from, s, d.bound + 1, all)
  {
    var s' := WithUpper(s, d);
    SeeHigh(r, wide, ws.upper, s, d, BoundIn(exe, start, at, Rs(ws.upper), d.upper + 1));
    ScanFinds(exe, start, at, r, wide, from, d.upper, s, ws.upper, s');
    SeeBound(r, wide, ws.bound, s', d, BoundIn(exe, start, at, Rs(ws.bound), d.bound + 1));
    ScanFinds(exe, start, at, r, wide, d.upper + 1, d.bound, s', ws.bound, all);
    GoesOn(exe, start, at, r, wide, from, s, d.upper + 1, s', d.bound + 1, all);
  }

  // ---------------------------------------------------------------- once all parts are known

  /** Once all parts are known, the scan still passes over additions of constants and stops at the
      first other word. The nearest of them that adds to the register r is taken for the low half
      of the table's address, if there was none. */
  function Adopted(exe: Exe, start: Word, at: Word, r: Reg, back: nat): Option<int>
    decreases 41 - back, at
  {
    var a := Wrap(at - 4 * back);
    if back > 40 || a < start || !exe.Readable(a) || Opcode(exe.WordAt(a)) != 9 then None
    else if Rs(exe.WordAt(a)) == r == Rt(exe.WordAt(a)) then Some(Imm(exe.WordAt(a)))
    else Adopted(exe, start, at, r, back + 1)
  }

  predicate Complete(s: Scan) {
    s.load.Some? && s.added && s.left != s.right && s.upper.Some? && s.count != 0
  }

  function LowHalf(exe: Exe, start: Word, at: Word, s: Scan, back: nat): Option<int> {
    if s.leftConst.Some? then s.leftConst else Adopted(exe, start, at, s.left, back)
  }

  lemma SeeComplete(r: Reg, wide: bool, s: Scan, w: Word, bound: Word)
    requires Complete(s)
    ensures See(r, wide, s, w, bound) == if Opcode(w) == 9 then More(SeeConst(s, w)) else Enough
  {
  }

  lemma {:induction false} ScanSettled(exe: Exe, start: Word, at: Word, r: Reg, wide: bool, back: nat, s: Scan,
                                       limit: nat)
    requires Complete(s)
    ensures TableSeen(ScanBack(exe, start, at, r, wide, back, s), limit) ==
            TableSeen(s.(leftConst := LowHalf(exe, start, at, s, back)), limit)
    decreases 41 - back, at
  {
    var a := Wrap(at - 4 * back);
    if back <= 40 && a >= start && exe.Readable(a) {
      var w := exe.WordAt(a);
      SeeComplete(r, wide, s, w, BoundIn(exe, start, at, Rs(w), back + 1));
      if Opcode(w) == 9 {
        ScanSettled(exe, start, at, r, wide, back + 1, SeeConst(s, w), limit);
      }
    }
  }

  lemma TableOf(exe: Exe, start: Word, at: Word, r: Reg, wide: bool, back: nat, s: Scan)
    requires Goes(exe, start, at, r, wide, 1, NothingSeen(), back, s) && Complete(s)
    ensures FindTable(exe, start, at, r, wide) ==
            TableSeen(s.(leftConst := LowHalf(exe, start, at, s, back)), Limit(wide))
  {
    ScanSettled(exe, start, at, r, wide, back, s, Limit(wide));
  }

  // ---------------------------------------------------------------- the two patterns

  /** lui, addiu, addu, lw: the constant is added to the upper half before the index. */
  ghost predicate IsLong(exe: Exe, start: Word, at: Word, r: Reg, wide: bool, d: Dispatch, ws: Words, low: nat, w: Word,
                         c: int)
  {
    && LoadsAndAdds(exe, start, at, r, wide, d, ws)
    && FoundAt(exe, start, at, wide, d.add + 1, low, w) && AddsConst(w, d.table, c)
    && LoadsAndCompares(exe, start, at, wide, low + 1, d, ws)
  }

  /** lui, addu, lw: the low half is the offset of the load. */
  ghost predicate IsShort(exe: Exe, start: Word, at: Word, r: Reg, wide: bool, d: Dispatch, ws: Words) {
    LoadsAndAdds(exe, start, at, r, wide, d, ws) && LoadsAndCompares(exe, start, at, wide, d.add + 1, d, ws)
  }

  lemma SeeLow(r: Reg, wide: bool, w: Word, d: Dispatch, add: Word, c: int, bound: Word)
    requires AddsTable(add, d.sum, d.table) && AddsConst(w, d.table, c)
    ensures See(r, wide, AfterAdd(d, add, None, None), w, bound) ==
            More(if d.table == Rs(add) then AfterAdd(d, add, Some(c), None) else AfterAdd(d, add, None, Some(c)))
  {
  }

  /** The long sequence, with any words between that do not look like a part of it, is recognised,
      whatever comes before it: the table lies at the sum of its three constants and has as many
      entries as the index is compared with, by sltiu for both scans and by sltu for the
      translator's. */
  lemma DispatchFound(exe: Exe, start: Word, at: Word, r: Reg, wide: bool, d: Dispatch, ws: Words, low: nat, w: Word,
                      c: int)
    requires exe.Valid() && exe.load <= start && at < 0x8020_0000
    requires IsLong(exe, start, at, r, wide, d, ws, low, w, c) && d.n != 0
    ensures FindTable(exe, start, at, r, wide) ==
            if d.n < (if wide then 1024 else 512) && Wrap(d.high + c + d.offset) != 0
            then Some(Table(Wrap(d.high + c + d.offset), d.n))
            else None
  {
    var s := LongScan(exe, start, at, r, wide, d, ws, low, w, c);
    TableOf(exe, start, at, r, wide, d.bound + 1, s);
    CompleteTable(s, d, Some(c), Limit(wide));
  }

  lemma LongScan(exe: Exe, start: Word, at: Word, r: Reg, wide: bool, d: Dispatch, ws: Words, low: nat, w: Word, c: int)
    returns (s: Scan)
    requires exe.Valid() && exe.load <= start && at < 0x8020_0000
    requires IsLong(exe, start, at, r, wide, d, ws, low, w, c) && d.n != 0
    ensures Goes(exe, start, at, r, wide, 1, NothingSeen(), d.bound + 1, s)
    ensures Complete(s) && s.upper == Some(d.high) && s.count == d.n && s.offset == d.offset && s.leftConst == Some(c)
  {
    var s3 := if d.table == Rs(ws.add) then AfterAdd(d, ws.add, Some(c), None) else AfterAdd(d, ws.add, None, Some(c));
    s := WithUpper(s3, d).(count := d.n);
    LowFound(exe, start, at, r, wide, d, ws, low, w, c, s3);
    ScanCompares(exe, start, at, r, wide, low + 1, d, ws, s3, s);
    GoesOn(exe, start, at, r, wide, 1, NothingSeen(), low + 1, s3, d.bound + 1, s);
  }

  lemma LowFound(exe: Exe, start: Word, at: Word, r: Reg, wide: bool, d: Dispatch, ws: Words, low: nat, w: Word, c: int,
                 s: Scan)
    requires exe.Valid() && exe.load <= start && at < 0x8020_0000
    requires LoadsAndAdds(exe, start, at, r, wide, d, ws)
    requires FoundAt(exe, start, at, wide, d.add + 1, low, w) && AddsConst(w, d.table, c)
    requires s ==
             if d.table == Rs(ws.add) then AfterAdd(d, ws.add, Some(c), None) else AfterAdd(d, ws.add, None, Some(c))
    ensures Goes(exe, start, at, r, wide, 1, NothingSeen(), low + 1, s)
  {
    var s2 := AfterAdd(d, ws.add, None, None);
    ScanLoads(exe, start, at, r, wide, d, ws);
    SeeLow(r, wide, w, d, ws.add, c, BoundIn(exe, start, at, Rs(w), low + 1));
    ScanFinds(exe, start, at, r, wide, d.add + 1, low, s2, w, s);
    GoesOn(exe, start, at, r, wide, 1, NothingSeen(), d.add + 1, s2, low + 1, s);
  }

  lemma CompleteTable(s: Scan, d: Dispatch, low: Option<int>, limit: nat)
    requires s.upper == Some(d.high) && s.count == d.n != 0 && s.offset == d.offset
    ensures var base := Wrap(d.high + (if low.Some? then low.value else 0) + d.offset);
            TableSeen(s.(leftConst := low), limit) ==
            if d.n < limit && base != 0 then Some(Table(base, d.n)) else None
  {
  }

  /** The short sequence is recognised too, but an addition of a constant to the first operand of
      the addu, in the run of such additions just before the comparison, is taken for the low half
      of the table's address. */
  lemma ShortDispatchFound(exe: Exe, start: Word, at: Word, r: Reg, wide: bool, d: Dispatch, ws: Words)
    requires exe.Valid() && exe.load <= start && at < 0x8020_0000
    requires IsShort(exe, start, at, r, wide, d, ws) && d.n != 0
    ensures var taken := Adopted(exe, start, at, Rs(ws.add), d.bound + 1);
            var base := Wrap(d.high + (if taken.Some? then taken.value else 0) + d.offset);
            FindTable(exe, start, at, r, wide) ==
            if d.n < (if wide then 1024 else 512) && base != 0 then Some(Table(base, d.n)) else None
  {
    var s := ShortScan(exe, start, at, r, wide, d, ws);
    var taken := Adopted(exe, start, at, Rs(ws.add), d.bound + 1);
    TakenTable(exe, start, at, r, wide, d.bound + 1, s, taken);
    CompleteTable(s, d, taken, Limit(wide));
  }

  lemma TakenTable(exe: Exe, start: Word, at: Word, r: Reg, wide: bool, back: nat, s: Scan, taken: Option<int>)
    requires Goes(exe, start, at, r, wide, 1, NothingSeen(), back, s) && Complete(s) && s.leftConst.None?
    requires taken == Adopted(exe, start, at, s.left, back)
    ensures FindTable(exe, start, at, r, wide) == TableSeen(s.(leftConst := taken), Limit(wide))
  {
    TableOf(exe, start, at, r, wide, back, s);
  }

  lemma ShortScan(exe: Exe, start: Word, at: Word, r: Reg, wide: bool, d: Dispatch, ws: Words) returns (s: Scan)
    requires exe.Valid() && exe.load <= start && at < 0x8020_0000
    requires IsShort(exe, start, at, r, wide, d, ws) && d.n != 0
    ensures Goes(exe, start, at, r, wide, 1, NothingSeen(), d.bound + 1, s)
    ensures Complete(s) && s.upper == Some(d.high) && s.count == d.n && s.offset == d.offset
    ensures s.leftConst.None? && s.left == Rs(ws.add)
  {
    var s2 := AfterAdd(d, ws.add, None, None);
    s := WithUpper(s2, d).(count := d.n);
    ScanLoads(exe, start, at, r, wide, d, ws);
    ScanCompares(exe, start, at, r, wide, d.add + 1, d, ws, s2, s);
    GoesOn(exe, start, at, r, wide, 1, NothingSeen(), d.add + 1, s2, d.bound + 1, s);
  }

  lemma WrapApart(high: Word, c: int, offset: int)
    requires -0x8000 <= c < 0x8000
    ensures Wrap(high + c + offset) == Wrap(high + offset) <==> c == 0
  {
  }

  /** So its own table is found if and only if no such addition, or one of 0, is taken. */
  lemma ShortDispatchExactly(exe: Exe, start: Word, at: Word, r: Reg, wide: bool, d: Dispatch, ws: Words)
    requires exe.Valid() && exe.load <= start && at < 0x8020_0000
    requires IsShort(exe, start, at, r, wide, d, ws) && Wrap(d.high + d.offset) != 0
    requires 0 < d.n < if wide then 1024 else 512
    ensures var taken := Adopted(exe, start, at, Rs(ws.add), d.bound + 1);
            FindTable(exe, start, at, r, wide) == Some(Table(Wrap(d.high + d.offset), d.n)) <==>
            taken.None? || taken.value == 0
  {
    var taken := Adopted(exe, start, at, Rs(ws.add), d.bound + 1);
    ShortDispatchFound(exe, start, at, r, wide, d, ws);
    if taken.Some? {
      AdoptedIsImm(exe, start, at, Rs(ws.add), d.bound + 1);
      WrapApart(d.high, taken.value, d.offset);
    }
  }

  lemma {:induction false} AdoptedIsImm(exe: Exe, start: Word, at: Word, r: Reg, back: nat)
    ensures Adopted(exe, start, at, r, back).Some? ==> -0x8000 <= Adopted(exe, start, at, r, back).value < 0x8000
    decreases 41 - back, at
  {
    var a := Wrap(at - 4 * back);
    if back <= 40 && a >= start && exe.Readable(a) && Opcode(exe.WordAt(a)) == 9 {
      AdoptedIsImm(exe, start, at, r, back + 1);
    }
  }
}
