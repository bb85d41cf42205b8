/** The control flow of the R3000A: its instructions, the layout of their words, and what each of
    them does. Nothing here is taken from the recompiler. */
module R3000 {
  import opened Mips

  /** Branches with a signed offset in words, jumps with an index, jumps through a register. */
  datatype Control =
    | Bltz(rs: Reg, offset: int)
    | Bgez(rs: Reg, offset: int)
    | Bltzal(rs: Reg, offset: int)
    | Bgezal(rs: Reg, offset: int)
    | Beq(rs: Reg, rt: Reg, offset: int)
    | Bne(rs: Reg, rt: Reg, offset: int)
    | Blez(rs: Reg, offset: int)
    | Bgtz(rs: Reg, offset: int)
    | J(index: nat)
    | Jal(index: nat)
    | Jr(rs: Reg)
    | Jalr(rd: Reg, rs: Reg)

  /** What a word is: an instruction without control flow, one with, or a branch of later models. */
  datatype Instr = Ordinary | Flow(control: Control) | Later

  // ---------------------------------------------------------------- the words

  predicate OffsetOk(k: int) {
    -0x8000 <= k < 0x8000
  }

  predicate Legal(c: Control) {
    match c
    case J(index) => index < 0x400_0000
    case Jal(index) => index < 0x400_0000
    case Jr(_) => true
    case Jalr(_, _) => true
    case _ => OffsetOk(c.offset)
  }

  /** An immediate word: six bits of opcode, two registers, 16 bits of offset. */
  function Immediate(op: nat, rs: Reg, rt: Reg, k: int): Word
    requires op < 64 && OffsetOk(k)
  {
    0x400_0000 * op + 0x20_0000 * rs + 0x1_0000 * rt + if k < 0 then 0x1_0000 + k else k
  }

  /** A register word: opcode 0, three registers, no shift, six bits of function. */
  function Register(rs: Reg, rt: Reg, rd: Reg, funct: nat): Word
    requires funct < 64
  {
    0x20_0000 * rs + 0x1_0000 * rt + 0x800 * rd + funct
  }

  function Encode(c: Control): Word
    requires Legal(c)
  {
    match c
    case Bltz(rs, k) => Immediate(1, rs, 0, k)
    case Bgez(rs, k) => Immediate(1, rs, 1, k)
    case Bltzal(rs, k) => Immediate(1, rs, 16, k)
    case Bgezal(rs, k) => Immediate(1, rs, 17, k)
    case Beq(rs, rt, k) => Immediate(4, rs, rt, k)
    case Bne(rs, rt, k) => Immediate(5, rs, rt, k)
    case Blez(rs, k) => Immediate(6, rs, 0, k)
    case Bgtz(rs, k) => Immediate(7, rs, 0, k)
    case J(index) => 0x800_0000 + index
    case Jal(index) => 0xC00_0000 + index
    case Jr(rs) => Register(rs, 0, 0, 8)
    case Jalr(rd, rs) => Register(rs, 0, rd, 9)
  }

  // ---------------------------------------------------------------- reading a word

  function Offset(w: Word): int {
    if w % 0x1_0000 >= 0x8000 then w % 0x1_0000 - 0x1_0000 else w % 0x1_0000
  }

  /** Bits 25 to 21, 20 to 16 and 15 to 11. */
  function First(w: Word): Reg {
    w % 0x400_0000 / 0x20_0000
  }

  function Second(w: Word): Reg {
    w % 0x20_0000 / 0x1_0000
  }

  function Third(w: Word): Reg {
    w % 0x1_0000 / 0x800
  }

  /** Of opcode 1, bit 16 chooses the test, and 1000 in the bits above it the link. */
  function DecodeTest(w: Word): Control {
    var s, t, k := First(w), Second(w), Offset(w);
    if t == 16 then Bltzal(s, k)
    else if t == 17 then Bgezal(s, k)
    else if t % 2 == 0 then Bltz(s, k)
    else Bgez(s, k)
  }

  function Decode(w: Word): Instr {
    var s, t, k := First(w), Second(w), Offset(w);
    match w / 0x400_0000
    case 0 =>
      if w % 64 == 8 then Flow(Jr(s)) else if w % 64 == 9 then Flow(Jalr(Third(w), s)) else Ordinary
    case 1 => Flow(DecodeTest(w))
    case 2 => Flow(J(w % 0x400_0000))
    case 3 => Flow(Jal(w % 0x400_0000))
    case 4 => Flow(Beq(s, t, k))
    case 5 => Flow(Bne(s, t, k))
    case 6 => Flow(Blez(s, k))
    case 7 => Flow(Bgtz(s, k))
    case 0x14 => Later
    case 0x15 => Later
    case 0x16 => Later
    case 0x17 => Later
    case _ => Ordinary
  }

  lemma Split26(w: nat, high: nat, low: nat)
    requires low < 0x400_0000 && w == 0x400_0000 * high + low
    ensures w / 0x400_0000 == high && w % 0x400_0000 == low
  {
  }

  lemma Split21(w: nat, high: nat, low: nat)
    requires low < 0x20_0000 && w == 0x20_0000 * high + low
    ensures w / 0x20_0000 == high && w % 0x20_0000 == low
  {
  }

  lemma Split16(w: nat, high: nat, low: nat)
    requires low < 0x1_0000 && w == 0x1_0000 * high + low
    ensures w / 0x1_0000 == high && w % 0x1_0000 == low
  {
  }

  lemma Split11(w: nat, high: nat, low: nat)
    requires low < 0x800 && w == 0x800 * high + low
    ensures w / 0x800 == high && w % 0x800 == low
  {
  }

  lemma Split6(w: nat, high: nat, low: nat)
    requires low < 64 && w == 64 * high + low
    ensures w / 64 == high && w % 64 == low
  {
  }

  /** The upper half of a word: opcode and two registers. */
  lemma UpperFields(w: Word, op: nat, rs: Reg, rt: Reg, low: nat)
    requires op < 64 && low < 0x1_0000 && w == 0x400_0000 * op + 0x20_0000 * rs + 0x1_0000 * rt + low
    ensures w / 0x400_0000 == op && First(w) == rs && Second(w) == rt && w % 0x1_0000 == low
  {
    Split26(w, op, 0x20_0000 * rs + 0x1_0000 * rt + low);
    Split21(w % 0x400_0000, rs, 0x1_0000 * rt + low);
    Split21(w, 0x20 * op + rs, 0x1_0000 * rt + low);
    Split16(w % 0x20_0000, rt, low);
    Split16(w, 0x400 * op + 0x20 * rs + rt, low);
  }

  lemma ImmediateFields(w: Word, op: nat, rs: Reg, rt: Reg, k: int)
    requires op < 64 && OffsetOk(k) && w == Immediate(op, rs, rt, k)
    ensures w / 0x400_0000 == op && First(w) == rs && Second(w) == rt && Offset(w) == k
  {
    UpperFields(w, op, rs, rt, if k < 0 then 0x1_0000 + k else k);
  }

  lemma RegisterFields(w: Word, rs: Reg, rt: Reg, rd: Reg, funct: nat)
    requires funct < 64 && w == Register(rs, rt, rd, funct)
    ensures w / 0x400_0000 == 0 && First(w) == rs && Second(w) == rt && Third(w) == rd && w % 64 == funct
  {
    UpperFields(w, 0, rs, rt, 0x800 * rd + funct);
    Split11(w % 0x1_0000, rd, funct);
    Split6(w, 0x8000 * rs + 0x400 * rt + 0x20 * rd, funct);
  }

  /** Every control-flow instruction is read from its word. */
  lemma DecodeEncode(c: Control)
    requires Legal(c)
    ensures Decode(Encode(c)) == Flow(c)
  {
    match c
    case Bltz(rs, k) => ImmediateFields(Encode(c), 1, rs, 0, k);
    case Bgez(rs, k) => ImmediateFields(Encode(c), 1, rs, 1, k);
    case Bltzal(rs, k) => ImmediateFields(Encode(c), 1, rs, 16, k);
    case Bgezal(rs, k) => ImmediateFields(Encode(c), 1, rs, 17, k);
    case Beq(rs, rt, k) => ImmediateFields(Encode(c), 4, rs, rt, k);
    case Bne(rs, rt, k) => ImmediateFields(Encode(c), 5, rs, rt, k);
    case Blez(rs, k) => ImmediateFields(Encode(c), 6, rs, 0, k);
    case Bgtz(rs, k) => ImmediateFields(Encode(c), 7, rs, 0, k);
    case J(_) =>
    case Jal(_) =>
    case Jr(rs) => RegisterFields(Encode(c), rs, 0, 0, 8);
    case Jalr(rd, rs) => RegisterFields(Encode(c), rs, 0, rd, 9);
  }

  // ---------------------------------------------------------------- targets and tests

  /** Offsets count from the slot, in words. */
  function BranchTo(a: Word, k: int): Word {
    (a + 4 + 4 * k) % 0x1_0000_0000
  }

  /** The word after the slot. */
  function Past(a: Word): Word {
    (a + 8) % 0x1_0000_0000
  }

  /** An index names a word in the 256 megabytes that hold the slot. */
  function JumpIn(a: Word, index: nat): Word {
    (a + 4) % 0x1_0000_0000 / 0x1000_0000 * 0x1000_0000 + 4 * index % 0x1000_0000
  }
}
