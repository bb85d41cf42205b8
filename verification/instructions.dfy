/** The recompiler reads control-flow words as the R3000A does. */
module Instructions {
  import opened Options
  import opened Mips
  import opened R3000
  import opened ControlFlow
  import CodeGenerator
  import JumpTables

  lemma FieldsAgree(w: Word)
    ensures Opcode(w) == w / 0x400_0000 && Rs(w) == First(w) && Rt(w) == Second(w) && Rd(w) == Third(w)
    ensures Funct(w) == w % 64 && Imm(w) == Offset(w)
  {
    HighField(w);
    MiddleField(w);
    LowField(w);
  }

  lemma HighField(w: Word)
    ensures w / 0x20_0000 % 32 == w % 0x400_0000 / 0x20_0000
  {
    Split26(w, w / 0x400_0000, w % 0x400_0000);
    Split21(w, 32 * (w / 0x400_0000) + w % 0x400_0000 / 0x20_0000, w % 0x400_0000 % 0x20_0000);
  }

  lemma MiddleField(w: Word)
    ensures w / 0x1_0000 % 32 == w % 0x20_0000 / 0x1_0000
  {
    Split16(w, 32 * (w / 0x20_0000) + w % 0x20_0000 / 0x1_0000, w % 0x20_0000 % 0x1_0000);
  }

  lemma LowField(w: Word)
    ensures w / 0x800 % 32 == w % 0x1_0000 / 0x800
  {
    Split11(w, 32 * (w / 0x1_0000) + w % 0x1_0000 / 0x800, w % 0x1_0000 % 0x800);
  }

  /** What the recompiler should take an instruction for: a kind and a target. */
  predicate Read(a: Word, c: Control, cf: FlowInstr) {
    match c
    case J(index) => cf.kind == Jump && cf.target == JumpIn(a, index)
    case Jal(index) => cf.kind == JumpLink && cf.target == JumpIn(a, index)
    case Jr(rs) => cf.kind == (if rs == 31 then Return else JumpRegister) && cf.target == 0
    case Jalr(_, _) => cf.kind == JumpLinkReg && cf.target == 0
    case _ => cf.kind == Branch && cf.target == BranchTo(a, c.offset)
  }

  /** Every word is read alike: it is control flow for both or for neither, the branches of later
      models are the likely ones, and kind and target are those of the instruction. */
  lemma ReadAlike(a: Word, w: Word)
    ensures Decode(w).Ordinary? <==> !IsControlFlow(w)
    ensures Decode(w).Later? <==> Analyze(a, w).isLikely
    ensures Decode(w).Flow? ==> Read(a, Decode(w).control, Analyze(a, w))
    ensures Analyze(a, w).address == a && Analyze(a, w).instr == w
  {
    OrdinaryAlike(w);
    LaterAlike(a, w);
    if Decode(w).Flow? {
      FieldsAgree(w);
      TargetsAgree(a, w);
      KindAlike(a, w, Decode(w).control, Analyze(a, w));
    }
  }

  lemma OrdinaryAlike(w: Word)
    ensures Decode(w).Ordinary? <==> !IsControlFlow(w)
  {
  }

  lemma LaterAlike(a: Word, w: Word)
    ensures Decode(w).Later? <==> Analyze(a, w).isLikely
  {
  }

  lemma KindAlike(a: Word, w: Word, c: Control, cf: FlowInstr)
    requires Decode(w) == Flow(c) && cf == Analyze(a, w)
    requires Rs(w) == First(w) && BranchTarget(a, w) == BranchTo(a, Offset(w))
    requires JumpTarget(a, w) == JumpIn(a, w % 0x400_0000)
    ensures Read(a, c, cf)
  {
  }

  lemma TargetsAgree(a: Word, w: Word)
    ensures BranchTarget(a, w) == BranchTo(a, Offset(w))
    ensures JumpTarget(a, w) == JumpIn(a, w % 0x400_0000)
  {
    FieldsAgree(w);
    BranchAgrees(a, Imm(w));
    IndexFits(w % 0x400_0000);
  }

  lemma BranchAgrees(a: Word, k: int)
    ensures Wrap(a + 4 + 4 * k) == BranchTo(a, k)
  {
  }

  lemma IndexFits(index: nat)
    requires index < 0x400_0000
    ensures 4 * index % 0x1000_0000 == 4 * index
  {
  }

  /** The target of every encoded branch lies its offset in words past the slot; that of every
      encoded jump is its index in words, in the region of the slot. */
  lemma TargetsAre(a: Word, c: Control)
    requires Legal(c)
    ensures c.J? || c.Jal? ==>
              Analyze(a, Encode(c)).target == (a + 4) % 0x1_0000_0000 / 0x1000_0000 * 0x1000_0000 + 4 * c.index
    ensures !(c.J? || c.Jal? || c.Jr? || c.Jalr?) ==>
              Analyze(a, Encode(c)).target == (a + 4 + 4 * c.offset) % 0x1_0000_0000
  {
    DecodeEncode(c);
    ReadAlike(a, Encode(c));
  }

  /** The kind of every encoded instruction, and the registers of those that read or link one. */
  lemma KindsAre(a: Word, c: Control)
    requires Legal(c)
    ensures var cf := Analyze(a, Encode(c));
            && cf.hasSlot && !cf.isLikely
            && (cf.kind == Jump <==> c.J?) && (cf.kind == JumpLink <==> c.Jal?)
            && (cf.kind == Return <==> c == Jr(31)) && (cf.kind == JumpRegister <==> c.Jr? && c.rs != 31)
            && (cf.kind == JumpLinkReg <==> c.Jalr?)
    ensures c.Jr? || c.Jalr? ==> Rs(Encode(c)) == c.rs
    ensures c.Jalr? ==> Rd(Encode(c)) == c.rd
  {
    KindIs(a, c, Encode(c));
    RegistersAre(c, Encode(c));
  }

  lemma KindIs(a: Word, c: Control, w: Word)
    requires Legal(c) && w == Encode(c)
    ensures var cf := Analyze(a, w);
            && cf.hasSlot && !cf.isLikely
            && (cf.kind == Jump <==> c.J?) && (cf.kind == JumpLink <==> c.Jal?)
            && (cf.kind == Return <==> c == Jr(31)) && (cf.kind == JumpRegister <==> c.Jr? && c.rs != 31)
            && (cf.kind == JumpLinkReg <==> c.Jalr?)
  {
    DecodeEncode(c);
    ReadAlike(a, w);
    assert Read(a, c, Analyze(a, w));
  }

  lemma RegistersAre(c: Control, w: Word)
    requires Legal(c) && w == Encode(c)
    ensures c.Jr? || c.Jalr? ==> Rs(w) == c.rs
    ensures c.Jalr? ==> Rd(w) == c.rd
  {
    FieldsAgree(w);
    match c
    case Jr(rs) => RegisterFields(w, rs, 0, 0, 8);
    case Jalr(rd, rs) => RegisterFields(w, rs, 0, rd, 9);
    case _ =>
  }

  /** The emitter takes exactly the two linking branches for such. */
  lemma LinksAre(c: Control)
    requires Legal(c)
    ensures CodeGenerator.IsAndLink(Encode(c)) <==> c.Bltzal? || c.Bgezal?
  {
    LinkFields(c, Encode(c));
  }

  lemma LinkFields(c: Control, w: Word)
    requires Legal(c) && w == Encode(c)
    ensures CodeGenerator.IsAndLink(w) <==> c.Bltzal? || c.Bgezal?
  {
    FieldsAgree(w);
    DecodeEncode(c);
  }

  // ---------------------------------------------------------------- the words of a dispatch

  /** What the scan for a jump table looks for, as instructions: lw r, offset(sum); */
  lemma LoadWord(r: Reg, sum: Reg, offset: int)
    requires OffsetOk(offset)
    ensures JumpTables.LoadsFrom(Immediate(0x23, sum, r, offset), r, sum, offset)
  {
    ImmediateFields(Immediate(0x23, sum, r, offset), 0x23, sum, r, offset);
    FieldsAgree(Immediate(0x23, sum, r, offset));
  }

  /** addu sum, index, table, with the operands in either order; */
  lemma AddWord(sum: Reg, index: Reg, table: Reg)
    requires index != table
    ensures JumpTables.AddsTable(Register(index, table, sum, 0x21), sum, table)
    ensures JumpTables.AddsTable(Register(table, index, sum, 0x21), sum, table)
  {
    RegisterFields(Register(index, table, sum, 0x21), index, table, sum, 0x21);
    FieldsAgree(Register(index, table, sum, 0x21));
    RegisterFields(Register(table, index, sum, 0x21), table, index, sum, 0x21);
    FieldsAgree(Register(table, index, sum, 0x21));
  }

  /** addiu table, table, low; */
  lemma ConstWord(table: Reg, low: int)
    requires OffsetOk(low)
    ensures JumpTables.AddsConst(Immediate(9, table, table, low), table, low)
  {
    ImmediateFields(Immediate(9, table, table, low), 9, table, table, low);
    FieldsAgree(Immediate(9, table, table, low));
  }

  /** lui table, half; */
  lemma UpperWord(table: Reg, half: int)
    requires OffsetOk(half)
    ensures JumpTables.LoadsUpper(Immediate(15, 0, table, half), table, half % 0x1_0000 * 0x1_0000)
  {
    var w := Immediate(15, 0, table, half);
    ImmediateFields(w, 15, 0, table, half);
    UpperFields(w, 15, 0, table, if half < 0 then 0x1_0000 + half else half);
    FieldsAgree(w);
  }

  /** sltiu flag, index, count; */
  lemma BoundWord(wide: bool, flag: Reg, index: Reg, count: nat, traced: Word)
    requires count < 0x8000
    ensures JumpTables.ComparesIndex(wide, Immediate(11, index, flag, count), traced, count)
  {
    ImmediateFields(Immediate(11, index, flag, count), 11, index, flag, count);
    UpperFields(Immediate(11, index, flag, count), 11, index, flag, count);
    FieldsAgree(Immediate(11, index, flag, count));
  }

  /** and sltu flag, bound, index, whose bound is loaded by ori or addiu from $zero. */
  lemma TracedWords(flag: Reg, bound: Reg, index: Reg, k: int)
    requires OffsetOk(k)
    ensures JumpTables.IsCompare(Register(bound, index, flag, 0x2B)) && Rs(Register(bound, index, flag, 0x2B)) == bound
    ensures JumpTables.Loaded(Immediate(13, 0, bound, k), bound) == Some(k % 0x1_0000)
    ensures JumpTables.Loaded(Immediate(9, 0, bound, k), bound) == Some(k % 0x1_0000_0000)
  {
    RegisterFields(Register(bound, index, flag, 0x2B), bound, index, flag, 0x2B);
    FieldsAgree(Register(bound, index, flag, 0x2B));
    LoadedIs(Immediate(13, 0, bound, k), 13, bound, k);
    LoadedIs(Immediate(9, 0, bound, k), 9, bound, k);
  }

  lemma LoadedIs(w: Word, op: nat, bound: Reg, k: int)
    requires OffsetOk(k) && op < 64 && w == Immediate(op, 0, bound, k)
    ensures Opcode(w) == op && Rs(w) == 0 && Rt(w) == bound && w % 0x1_0000 == k % 0x1_0000 && Imm(w) == k
  {
    ImmediateFields(w, op, 0, bound, k);
    UpperFields(w, op, 0, bound, if k < 0 then 0x1_0000 + k else k);
    FieldsAgree(w);
  }
}
