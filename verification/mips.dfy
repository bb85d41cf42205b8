module Options {
  datatype Option<+T> = None | Some(value: T)
}

/** 32-bit words and the fields of an R3000A instruction word. */
module Mips {
  type Word = w: int | 0 <= w < 0x1_0000_0000
  type Reg = r: int | 0 <= r < 32

  /** Unsigned 32-bit wrap-around. */
  function Wrap(x: int): Word {
    x % 0x1_0000_0000
  }

  function Opcode(w: Word): nat {
    w / 0x400_0000
  }

  function Rs(w: Word): Reg {
    w / 0x20_0000 % 32
  }

  function Rt(w: Word): Reg {
    w / 0x1_0000 % 32
  }

  function Rd(w: Word): Reg {
    w / 0x800 % 32
  }

  function Funct(w: Word): nat {
    w % 64
  }

  /** The immediate field, sign-extended. */
  function Imm(w: Word): int {
    if w % 0x1_0000 < 0x8000 then w % 0x1_0000 else w % 0x1_0000 - 0x1_0000
  }

  /** A register read as a signed 32-bit integer. */
  function Signed(w: Word): int {
    if w < 0x8000_0000 then w else w - 0x1_0000_0000
  }

  const RA: Reg := 31
  const SP: Reg := 29
}

/** A parsed PS-X executable: its load address and its code bytes. */
module Executable {
  import opened Options
  import opened Mips
  import opened Bits

  datatype Exe = Exe(load: Word, fileSize: nat, code: seq<Byte>) {
    function End(): Word {
      Wrap(load + fileSize)
    }

    /** What the header and size checks of the parser leave. */
    predicate Valid() {
      && 0x8000_0000 <= load < 0xA000_0000
      && 0 < fileSize <= 2 * 1024 * 1024
      && End() <= 0x8020_0000
      && |code| == fileSize
    }

    function ReadWord(a: Word): (r: Option<Word>) {
      if a < load || a >= End() then None
      else
        var o := a - load;
        if o + 3 >= |code| then None
        else
          var b0: int, b1: int, b2: int, b3: int := code[o], code[o + 1], code[o + 2], code[o + 3];
          Some(b0 + 0x100 * b1 + 0x1_0000 * b2 + 0x100_0000 * b3)
    }

    predicate Readable(a: Word) {
      ReadWord(a).Some?
    }

    function WordAt(a: Word): Word
      requires Readable(a)
    {
      ReadWord(a).value
    }

    /** The parser's checks keep every code address far below 2^32. */
    lemma AddressBounds()
      requires Valid()
      ensures End() == load + fileSize
      ensures forall a: Word :: Readable(a) <==> load <= a && a + 4 <= End()
    {
    }
  }
}
