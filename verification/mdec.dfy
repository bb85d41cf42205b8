/** Decoding one block of a video frame: what the encoder wrote comes back. */
module Mdec {
  import opened Bits
  import opened Seqs
  import opened BitReader
  import opened MdecTables

  // ---------------------------------------------------------------- dequantisation

  /** The 16-bit value a number is stored as. */
  function Int16(v: int): int {
    (v + 0x8000) % 0x1_0000 - 0x8000
  }

  /** The scale of a frame, the scan order and the quantisation matrix. */
  datatype Quantiser = Quantiser(scale: nat, zigzag: seq<nat>, matrix: seq<nat>) {
    ghost predicate Valid() {
      |zigzag| == 64 && |matrix| == 64 && forall i | 0 <= i < 64 :: zigzag[i] < 64
    }
  }

  /** The tables of the decoder. */
  function Standard(scale: nat): (q: Quantiser)
    ensures q.Valid()
  {
    Quantiser(scale, seq(64, i requires 0 <= i < 64 => Zigzag(i)), seq(64, j requires 0 <= j < 64 => Matrix(j)))
  }

  function Scaled(level: int, q: Quantiser, j: nat): int
    requires j < |q.matrix|
  {
    level * q.scale * q.matrix[j] / 8
  }

  /** v | 1 on a signed number. */
  function OrOne(v: int): int {
    if v % 2 == 1 then v else v + 1
  }

  /** The value of a coefficient from the code table. */
  function CodedValue(level: nat, negative: bool, q: Quantiser, j: nat): int
    requires j < |q.matrix|
  {
    Int16(if negative then -Scaled(level, q, j) else Scaled(level, q, j))
  }

  /** The value of an escaped coefficient: the magnitude is made odd. */
  function EscapedValue(level: int, q: Quantiser, j: nat): int
    requires j < |q.matrix|
  {
    Int16(if level < 0 then -OrOne(Scaled(-level, q, j) - 1) else OrOne(Scaled(level, q, j) - 1))
  }

  // ---------------------------------------------------------------- encoded blocks

  /** A coefficient after a run of zeros: by its code and sign, or escaped. */
  datatype Coef = Coded(k: nat, negative: bool) | Escaped(run: nat, level: int)

  predicate CoefOk(c: Coef) {
    match c
    case Coded(k, _) => k < 111
    case Escaped(run, level) => run < 64 && -512 <= level < 512
  }

  function Run(c: Coef): nat
    requires CoefOk(c)
  {
    match c
    case Coded(k, _) => Entry(k).run
    case Escaped(run, _) => run
  }

  /** Two's complement in n bits. */
  function SignedBits(v: int, n: nat): seq<bool>
    requires v + Pow2(n) >= 0
  {
    Msb(if v < 0 then v + Pow2(n) else v, n)
  }

  function CoefBits(c: Coef): seq<bool>
    requires CoefOk(c)
  {
    TenBits();
    match c
    case Coded(k, negative) => Msb(Entry(k).code, Entry(k).length) + [negative]
    case Escaped(run, level) => Msb(1, 6) + Msb(run, 6) + SignedBits(level, 10)
  }

  lemma TenBits()
    ensures Pow2(6) == 64 && Pow2(9) == 512 && Pow2(10) == 1024
  {
    PowFour(0);
    PowFour(4);
    PowFour(2);
    PowFour(6);
    PowFour(5);
    PowFour(1);
  }

  /** The coefficients, then the end-of-block code. */
  function CoefsBits(coefs: seq<Coef>): seq<bool>
    requires forall c | c in coefs :: CoefOk(c)
  {
    if coefs == [] then [true, false] else CoefBits(coefs[0]) + CoefsBits(coefs[1..])
  }

  /** Scan positions stay inside the block. */
  predicate Fits(coefs: seq<Coef>, i: nat) {
    coefs != [] ==> CoefOk(coefs[0]) && i + Run(coefs[0]) + 1 <= 63 && Fits(coefs[1..], i + Run(coefs[0]) + 1)
  }

  lemma {:induction false} FitsOk(coefs: seq<Coef>, i: nat)
    requires Fits(coefs, i)
    ensures forall c | c in coefs :: CoefOk(c)
    decreases |coefs|
  {
    if coefs != [] {
      FitsOk(coefs[1..], i + Run(coefs[0]) + 1);
      forall c | c in coefs ensures CoefOk(c) {
        assert c == coefs[0] || c in coefs[1..];
      }
    }
  }

  function BlockBits(dc: int, coefs: seq<Coef>): seq<bool>
    requires -512 <= dc < 512 && forall c | c in coefs :: CoefOk(c)
  {
    TenBits();
    SignedBits(dc, 10) + CoefsBits(coefs)
  }

  function ValueOf(c: Coef, q: Quantiser, j: nat): int
    requires CoefOk(c) && j < |q.matrix|
  {
    match c
    case Coded(k, negative) => CodedValue(Entry(k).level, negative, q, j)
    case Escaped(_, level) => EscapedValue(level, q, j)
  }

  /** The block with each coefficient at its place. */
  function Filled(block: seq<int>, coefs: seq<Coef>, i: nat, q: Quantiser): (r: seq<int>)
    requires |block| == 64 && Fits(coefs, i) && q.Valid()
    ensures |r| == 64
    decreases |coefs|
  {
    if coefs == [] then block
    else
      var next := i + Run(coefs[0]) + 1;
      var j := q.zigzag[next];
      Filled(block[j := ValueOf(coefs[0], q, j)], coefs[1..], next, q)
  }

  // ---------------------------------------------------------------- recognising a code

  /** Ordinary code, escape, end of block, or none of the codes. */
  datatype Kind = Code(k: nat) | Escape | End | None

  /** The first entry of the table that the window begins with. */
  function FirstMatch(table: seq<Vlc>, peek: nat, k: nat): Kind
    requires k <= |table|
    decreases |table| - k
  {
    if k == |table| then None
    else if TopBits(peek, table[k].length) == table[k].code then Code(k)
    else FirstMatch(table, peek, k + 1)
  }

  function Table(): (t: seq<Vlc>)
    ensures |t| == 111
  {
    seq(111, k requires 0 <= k < 111 => Entry(k))
  }

  function Recognise(peek: nat): Kind {
    if peek / 32768 == 2 then End
    else if peek / 2048 == 1 then Escape
    else FirstMatch(Table(), peek, 0)
  }

  method FindCode(table: seq<Vlc>, peek: nat) returns (kind: Kind)
    ensures kind == FirstMatch(table, peek, 0)
    ensures kind.Code? ==> kind.k < |table|
  {
    for k := 0 to |table|
      invariant FirstMatch(table, peek, k) == FirstMatch(table, peek, 0)
    {
      if TopBits(peek, table[k].length) == table[k].code {
        return Code(k);
      }
    }
    return None;
  }

  lemma {:induction false} FirstMatchIs(table: seq<Vlc>, peek: nat, j: nat, k: nat)
    requires j <= k < |table|
    requires TopBits(peek, table[k].length) == table[k].code
    requires forall i | j <= i < k :: TopBits(peek, table[i].length) != table[i].code
    ensures FirstMatch(table, peek, j) == Code(k)
    decreases k - j
  {
    if j < k {
      FirstMatchIs(table, peek, j + 1, k);
    }
  }

  function KindOf(k: nat): Kind
    requires k < 113
  {
    if k == 112 then End else if k == 111 then Escape else Code(k)
  }

  lemma BeginsWithEntry(peek: nat, k: nat)
    requires k < 111
    ensures BeginsWith(peek, k) <==> TopBits(peek, Entry(k).length) == Entry(k).code
  {
  }

  lemma BeginsWithOther(peek: nat)
    ensures BeginsWith(peek, 111) <==> peek / 2048 == 1
    ensures BeginsWith(peek, 112) <==> peek / 32768 == 2
  {
  }

  /** A window that begins with a code is recognised as that code. */
  lemma Recognised(peek: nat, k: nat)
    requires k < 113 && BeginsWith(peek, k)
    ensures Recognise(peek) == KindOf(k)
  {
    BeginsWithOther(peek);
    if peek / 32768 == 2 {
      PrefixCode(peek, k, 112);
    } else if peek / 2048 == 1 {
      PrefixCode(peek, k, 111);
    } else {
      FirstIs(peek, k);
    }
  }

  lemma FirstIs(peek: nat, k: nat)
    requires k < 111 && BeginsWith(peek, k)
    ensures FirstMatch(Table(), peek, 0) == Code(k)
  {
    var table := Table();
    BeginsWithEntry(peek, k);
    forall i | 0 <= i < k ensures TopBits(peek, table[i].length) != table[i].code {
      BeginsWithEntry(peek, i);
      if BeginsWith(peek, i) {
        PrefixCode(peek, k, i);
      }
    }
    FirstMatchIs(table, peek, 0, k);
  }

  // ---------------------------------------------------------------- windows and codes

  lemma ShrSmall(x: nat)
    ensures Shr(x, 0) == x && Shr(x, 1) == x / 2 && Shr(x, 2) == x / 4 && Shr(x, 3) == x / 8
  {
    assert Shr(x / 2, 1) == Shr(x / 4, 0);
    assert Shr(x / 2, 2) == Shr(x / 4, 1) == Shr(x / 8, 0);
  }

  lemma ShrNibbles(x: nat, n: nat)
    requires n <= 15
    ensures n >= 4 ==> Shr(x, n) == Shr(x / 16, n - 4)
    ensures n >= 8 ==> Shr(x, n) == Shr(x / 256, n - 8)
    ensures n >= 12 ==> Shr(x, n) == Shr(x / 4096, n - 12)
  {
    NibbleShifts(x);
    if n >= 4 { ShrFour(x, n - 4); }
    if n >= 8 { ShrFour(x / 16, n - 8); }
    if n >= 12 { ShrFour(x / 256, n - 12); }
  }

  lemma NibbleShifts(x: nat)
    ensures x / 16 / 16 == x / 256 && x / 256 / 16 == x / 4096
  {
  }

  lemma TopIsShr(peek: nat, length: nat)
    requires 2 <= length <= 16
    ensures TopBits(peek, length) == Shr(peek, 17 - length)
  {
    var n := 17 - length;
    ShrNibbles(peek, n);
    if n < 4 {
      ShrSmall(peek);
    } else if n < 8 {
      ShrSmall(peek / 16);
      Quarters(peek, 16);
    } else if n < 12 {
      ShrSmall(peek / 256);
      Quarters(peek, 256);
    } else {
      ShrSmall(peek / 4096);
      Quarters(peek, 4096);
    }
  }

  lemma Quarters(x: nat, k: nat)
    requires k == 16 || k == 256 || k == 4096
    ensures x / k / 2 == x / (2 * k) && x / k / 4 == x / (4 * k) && x / k / 8 == x / (8 * k)
  {
  }

  /** A window whose first bits are a code begins with it. */
  lemma WindowBegins(peek: nat, code: nat, length: nat)
    requires 2 <= length <= 16 && peek < Pow2(17) && code < Pow2(length)
    requires Msb(peek, 17)[..length] == Msb(code, length)
    ensures TopBits(peek, length) == code
  {
    TopIsShr(peek, length);
    MsbSplit(peek, length, 17 - length);
    ShrBound(peek, 17 - length, length);
    MsbRoundTrip(Shr(peek, 17 - length), length);
    MsbRoundTrip(code, length);
  }

  lemma Powers()
    ensures Pow2(2) == 4 && Pow2(3) == 8 && Pow2(4) == 16 && Pow2(5) == 32 && Pow2(6) == 64 && Pow2(7) == 128
    ensures Pow2(8) == 256 && Pow2(10) == 1024 && Pow2(12) == 4096 && Pow2(13) == 8192 && Pow2(14) == 16384
    ensures Pow2(15) == 32768 && Pow2(16) == 65536
  {
    PowFour(0);
    PowFour(4);
    PowFour(8);
    PowFour(12);
    PowFour(11);
  }

  lemma EntryLength(k: nat)
    requires k < 111
    ensures 2 <= Entry(k).length <= 16 && Entry(k).level > 0
  {
  }

  lemma EntryCode(k: nat)
    requires k < 111
    ensures Entry(k).code < Pow2(Entry(k).length)
  {
    Powers();
  }

  /** A window whose first bits are those of code k is recognised as code k. */
  lemma CodeRecognised(peek: nat, k: nat)
    requires k < 113 && peek < Pow2(17)
    requires CodeLength(k) <= 17 && Msb(peek, 17)[..CodeLength(k)] == Msb(CodeValue(k), CodeLength(k))
    ensures Recognise(peek) == KindOf(k)
  {
    Powers();
    if k < 111 {
      EntryLength(k);
      EntryCode(k);
    }
    WindowBegins(peek, CodeValue(k), CodeLength(k));
    Recognised(peek, k);
  }

  // ---------------------------------------------------------------- one step of the decoder

  /** What a step consumes, where the scan is after it, whether the block ends, and the block. */
  datatype Step = Step(used: nat, next: nat, stop: bool, block: seq<int>)

  function Signed(bits: seq<bool>): int {
    if bits != [] && bits[0] then MsbValue(bits) - Pow2(|bits|) else MsbValue(bits)
  }

  function EscapeStep(w: seq<bool>, i: nat, block: seq<int>, q: Quantiser): Step
    requires |w| == 34 && |block| == 64 && q.Valid()
  {
    var next := i + MsbValue(w[6..12]) + 1;
    if next > 63 then Step(22, next, true, block)
    else Step(22, next, false, block[q.zigzag[next] := EscapedValue(Signed(w[12..22]), q, q.zigzag[next])])
  }

  function CodeStep(w: seq<bool>, e: Vlc, i: nat, block: seq<int>, q: Quantiser): Step
    requires |w| == 34 && |block| == 64 && q.Valid() && e.length <= 16
  {
    var next := i + e.run + 1;
    if next > 63 then Step(e.length, next, false, block)
    else Step(e.length + 1, next, false,
              block[q.zigzag[next] := CodedValue(e.level, w[e.length], q, q.zigzag[next])])
  }

  /** The step that the next 34 bits call for. */
  function StepOf(w: seq<bool>, i: nat, block: seq<int>, q: Quantiser): Step
    requires |w| == 34 && |block| == 64 && q.Valid()
  {
    StepAs(Recognise(MsbValue(w[..17])), w, i, block, q)
  }

  /** Bits within a window. */
  lemma Part(bits: seq<bool>, at: nat, n: nat, from: nat, m: nat, limit: int)
    requires from + m <= n
    ensures Window(bits, at, n, limit)[from..from + m] == Window(bits, at + from, m, limit)
  {
  }

  /** The run of an escape, after its six bits. */
  method ReadRun(bc: Reader) returns (run: nat)
    requires bc.Valid() && (bc.cacheBits >= 6 || bc.bytePos == |bc.buf|)
    modifies bc
    ensures bc.Valid() && bc.at == old(bc.at) + 12
    ensures run == MsbValue(old(bc.Upcoming(34))[6..12])
  {
    Part(BitsOf(bc.buf), bc.at, 34, 6, 6, 8 * |bc.buf|);
    bc.Skip(6);
    run := bc.Get(6);
  }

  /** The run and the level of an escape. */
  method ReadEscape(bc: Reader) returns (run: nat, level: int)
    requires bc.Valid() && (bc.cacheBits >= 6 || bc.bytePos == |bc.buf|)
    modifies bc
    ensures bc.Valid() && bc.at == old(bc.at) + 22
    ensures var w := old(bc.Upcoming(34)); run == MsbValue(w[6..12]) && level == Signed(w[12..22])
  {
    Part(BitsOf(bc.buf), bc.at, 34, 12, 10, 8 * |bc.buf|);
    run := ReadRun(bc);
    level := bc.GetSigned(10);
  }

  method EscapeCode(bc: Reader, block: array<int>, i: nat, q: Quantiser) returns (next: nat, stop: bool)
    requires bc.Valid() && block.Length == 64 && q.Valid() && (bc.cacheBits >= 6 || bc.bytePos == |bc.buf|)
    modifies bc, block
    ensures bc.Valid()
    ensures var s := EscapeStep(old(bc.Upcoming(34)), i, old(block[..]), q);
            next == s.next && stop == s.stop && bc.at == old(bc.at) + s.used && block[..] == s.block
  {
    var run, level := ReadEscape(bc);
    next, stop := i + run + 1, false;
    if next > 63 {
      stop := true;
    } else {
      Store(block, q.zigzag[next], EscapedValue(level, q, q.zigzag[next]));
    }
  }

  method Store(block: array<int>, j: nat, v: int)
    requires j < block.Length
    modifies block
    ensures block[..] == old(block[..])[j := v]
  {
    block[j] := v;
  }

  method OrdinaryCode(bc: Reader, e: Vlc, block: array<int>, i: nat, q: Quantiser) returns (next: nat)
    requires bc.Valid() && block.Length == 64 && q.Valid() && e.length <= 16
    requires bc.cacheBits >= e.length || bc.bytePos == |bc.buf|
    modifies bc, block
    ensures bc.Valid()
    ensures var s := CodeStep(old(bc.Upcoming(34)), e, i, old(block[..]), q);
            next == s.next && !s.stop && bc.at == old(bc.at) + s.used && block[..] == s.block
  {
    ghost var w := bc.Upcoming(34);
    Part(BitsOf(bc.buf), bc.at, 34, e.length, 1, 8 * |bc.buf|);
    bc.Skip(e.length);
    next := i + e.run + 1;
    if next <= 63 {
      var sign := bc.Get(1);
      OneBit(w[e.length]);
      assert w[e.length..e.length + 1] == [w[e.length]];
      Store(block, q.zigzag[next], CodedValue(e.level, sign == 1, q, q.zigzag[next]));
    }
  }

  lemma OneBit(b: bool)
    ensures MsbValue([b]) == Bit(b)
  {
    assert [b][..0] == [];
  }

  /** The step, told the kind of code that comes next. */
  function StepAs(kind: Kind, w: seq<bool>, i: nat, block: seq<int>, q: Quantiser): Step
    requires |w| == 34 && |block| == 64 && q.Valid()
  {
    match kind
    case End => Step(2, i, true, block)
    case Escape => EscapeStep(w, i, block, q)
    case Code(k) =>
      if k < 111 then
        EntryLength(k);
        CodeStep(w, Entry(k), i, block, q)
      else Step(1, i, false, block)
    case None => Step(1, i, false, block)
  }

  method FindKind(peek: nat) returns (kind: Kind)
    ensures kind == Recognise(peek) && (kind.Code? ==> kind.k < 111)
  {
    if peek / 32768 == 2 {
      kind := End;
    } else if peek / 2048 == 1 {
      kind := Escape;
    } else {
      kind := FindCode(Table(), peek);
      NotFound(Table(), peek, 0);
    }
  }

  /** Looks at the next 17 bits. */
  method Peek(bc: Reader) returns (kind: Kind)
    requires bc.Valid()
    modifies bc`cache, bc`cacheBits, bc`bytePos
    ensures bc.Valid() && bc.Upcoming(34) == old(bc.Upcoming(34))
    ensures bc.cacheBits >= 17 || bc.bytePos == |bc.buf|
    ensures kind == Recognise(MsbValue(bc.Upcoming(34)[..17])) && (kind.Code? ==> kind.k < 111)
  {
    Part(BitsOf(bc.buf), bc.at, 34, 0, 17, 8 * |bc.buf|);
    var peek := bc.Show(17);
    assert peek == MsbValue(bc.Upcoming(34)[..17]);
    kind := FindKind(peek);
  }

  /** One round of the decoder, on any bits. */
  method DecodeStep(bc: Reader, block: array<int>, i: nat, q: Quantiser) returns (next: nat, stop: bool)
    requires bc.Valid() && block.Length == 64 && q.Valid()
    modifies bc, block
    ensures bc.Valid()
    ensures var s := StepOf(old(bc.Upcoming(34)), i, old(block[..]), q);
            next == s.next && stop == s.stop && bc.at == old(bc.at) + s.used && block[..] == s.block
  {
    var kind := Peek(bc);
    next, stop := ActOn(bc, kind, block, i, q);
  }

  method ActOn(bc: Reader, kind: Kind, block: array<int>, i: nat, q: Quantiser) returns (next: nat, stop: bool)
    requires bc.Valid() && block.Length == 64 && q.Valid() && (kind.Code? ==> kind.k < 111)
    requires bc.cacheBits >= 17 || bc.bytePos == |bc.buf|
    modifies bc, block
    ensures bc.Valid()
    ensures var s := StepAs(kind, old(bc.Upcoming(34)), i, old(block[..]), q);
            next == s.next && stop == s.stop && bc.at == old(bc.at) + s.used && block[..] == s.block
  {
    next, stop := i, false;
    match kind
    case End =>
      bc.Skip(2);
      stop := true;
    case Escape =>
      next, stop := EscapeCode(bc, block, i, q);
    case Code(k) =>
      EntryLength(k);
      next := OrdinaryCode(bc, Entry(k), block, i, q);
    case None =>
      bc.Skip(1);
  }

  lemma {:induction false} NotFound(table: seq<Vlc>, peek: nat, k: nat)
    requires k <= |table|
    ensures FirstMatch(table, peek, k).Code? || FirstMatch(table, peek, k).None?
    decreases |table| - k
  {
    if k < |table| {
      NotFound(table, peek, k + 1);
    }
  }

  // ---------------------------------------------------------------- legal blocks

  lemma SignedRoundTrip(v: int, n: nat)
    requires 1 <= n && v + Pow2(n - 1) >= 0 && v < Pow2(n - 1)
    ensures v + Pow2(n) >= 0
    ensures Signed(SignedBits(v, n)) == v
  {
    var u: nat := if v < 0 then v + Pow2(n) else v;
    TopBitSet(u, n);
    MsbRoundTrip(u, n);
  }

  lemma SplitAt(w: seq<bool>, x: seq<bool>, y: seq<bool>)
    requires |x| + |y| <= |w| && w[..|x| + |y|] == x + y
    ensures w[..|x|] == x && w[|x|..|x| + |y|] == y
  {
  }

  lemma EntryWindow(w: seq<bool>, k: nat, code: nat, length: nat)
    requires |w| == 34 && k < 111 && code == Entry(k).code && length == Entry(k).length
    requires length <= 16 && w[..length] == Msb(code, length)
    ensures Recognise(MsbValue(w[..17])) == Code(k)
  {
    WindowCode(w, k);
  }

  lemma StepAsCode(w: seq<bool>, k: nat, e: Vlc, i: nat, block: seq<int>, q: Quantiser)
    requires |w| == 34 && |block| == 64 && q.Valid() && k < 111 && e == Entry(k) && e.length <= 16
    ensures StepAs(Code(k), w, i, block, q) == CodeStep(w, e, i, block, q)
  {
  }

  /** The window begins with the bits of a coefficient: the step takes exactly those, and puts
      the value in its place. */
  lemma CodedStep(w: seq<bool>, k: nat, e: Vlc, negative: bool, i: nat, block: seq<int>, q: Quantiser)
    requires |w| == 34 && |block| == 64 && q.Valid() && k < 111 && e == Entry(k) && e.length <= 16
    requires w[..e.length + 1] == Msb(e.code, e.length) + [negative]
    ensures StepOf(w, i, block, q) == CodeStep(w, e, i, block, q)
    ensures w[e.length] == negative
  {
    SplitAt(w, Msb(e.code, e.length), [negative]);
    EntryWindow(w, k, e.code, e.length);
    StepAsCode(w, k, e, i, block, q);
    assert w[e.length..e.length + 1][0] == w[e.length];
  }

  /** The value of the first 17 bits. */
  lemma WindowCode(w: seq<bool>, k: nat)
    requires |w| == 34 && k < 113 && CodeLength(k) <= 17 && w[..CodeLength(k)] == Msb(CodeValue(k), CodeLength(k))
    ensures Recognise(MsbValue(w[..17])) == KindOf(k)
  {
    var peek := w[..17];
    ValueBits(peek);
    assert peek[..CodeLength(k)] == w[..CodeLength(k)];
    CodeRecognised(MsbValue(peek), k);
  }

  lemma {:induction false} ValueBits(bits: seq<bool>)
    ensures MsbValue(bits) < Pow2(|bits|) && Msb(MsbValue(bits), |bits|) == bits
    decreases |bits|
  {
    if bits != [] {
      ValueBits(bits[..|bits| - 1]);
      assert bits == bits[..|bits| - 1] + [bits[|bits| - 1]];
    }
  }

  lemma EscapedStep(w: seq<bool>, run: nat, level: int, i: nat, block: seq<int>, q: Quantiser)
    requires |w| == 34 && |block| == 64 && q.Valid() && CoefOk(Escaped(run, level))
    requires |CoefBits(Escaped(run, level))| == 22 && w[..22] == CoefBits(Escaped(run, level))
    ensures StepOf(w, i, block, q) == EscapeStep(w, i, block, q)
    ensures MsbValue(w[6..12]) == run && Signed(w[12..22]) == level
  {
    TenBits();
    var x, y, z := Msb(1, 6), Msb(run, 6), SignedBits(level, 10);
    ThreeParts(w, x, y, z);
    WindowCode(w, 111);
    MsbRoundTrip(run, 6);
    SignedRoundTrip(level, 10);
  }

  lemma ThreeParts(w: seq<bool>, x: seq<bool>, y: seq<bool>, z: seq<bool>)
    requires |w| == 34 && |x| == 6 && |y| == 6 && |z| == 10 && w[..22] == x + y + z
    ensures w[..6] == x && w[6..12] == y && w[12..22] == z
  {
    SplitAt(w, x + y, z);
    SplitAt(w, x, y);
  }

  lemma CoefLength(c: Coef)
    requires CoefOk(c)
    ensures |CoefBits(c)| <= 22 && (c.Escaped? ==> |CoefBits(c)| == 22)
  {
    if c.Coded? {
      EntryLength(c.k);
    }
  }

  lemma CoefStep(w: seq<bool>, c: Coef, i: nat, block: seq<int>, q: Quantiser)
    requires |w| == 34 && |block| == 64 && q.Valid() && CoefOk(c) && i + Run(c) + 1 <= 63
    requires |CoefBits(c)| <= 34 && w[..|CoefBits(c)|] == CoefBits(c)
    ensures var next := i + Run(c) + 1;
            var j := q.zigzag[next];
            StepOf(w, i, block, q) == Step(|CoefBits(c)|, next, false, block[j := ValueOf(c, q, j)])
  {
    CoefLength(c);
    match c
    case Coded(k, negative) =>
      EntryLength(k);
      CodedStep(w, k, Entry(k), negative, i, block, q);
    case Escaped(run, level) =>
      EscapedStep(w, run, level, i, block, q);
  }

  lemma EndStep(w: seq<bool>, i: nat, block: seq<int>, q: Quantiser)
    requires |w| == 34 && |block| == 64 && q.Valid() && w[..2] == [true, false]
    ensures StepOf(w, i, block, q) == Step(2, i, true, block)
  {
    assert Msb(2, 2) == [true, false];
    WindowCode(w, 112);
  }

  /** The bits that come next are the given ones. */
  ghost predicate Upcoming(bc: Reader, bits: seq<bool>)
    reads bc
  {
    bc.Upcoming(|bits|) == bits
  }

  lemma FirstPart(bits: seq<bool>, at: nat, x: seq<bool>, y: seq<bool>, n: nat, limit: int)
    requires Window(bits, at, |x| + |y|, limit) == x + y && |x| <= n
    ensures Window(bits, at, n, limit)[..|x|] == x
    ensures Window(bits, at + |x|, |y|, limit) == y
  {
    SmallerWindow(bits, at, |x|, |x| + |y|, limit);
    SmallerWindow(bits, at, |x|, n, limit);
  }

  /** The step for a legal rest of a block. */
  function LegalStep(coefs: seq<Coef>, i: nat, block: seq<int>, q: Quantiser): Step
    requires |block| == 64 && q.Valid() && Fits(coefs, i)
  {
    if coefs == [] then Step(2, i, true, block)
    else
      var next := i + Run(coefs[0]) + 1;
      var j := q.zigzag[next];
      Step(|CoefBits(coefs[0])|, next, false, block[j := ValueOf(coefs[0], q, j)])
  }

  predicate AsWindow(w: seq<bool>) {
    true
  }

  /** StepOf(w, i, block, q) == s, stated so that a proof can pass it on without opening StepOf. */
  ghost predicate Calls(w: seq<bool>, i: nat, block: seq<int>, q: Quantiser, s: Step)
    requires |w| == 34 && |block| == 64 && q.Valid()
  {
    forall x {:trigger AsWindow(x)} | x == w :: StepOf(x, i, block, q) == s
  }

  /** The bits of a legal rest of a block call for that step, */
  lemma LegalCalls(bits: seq<bool>, at: nat, limit: int, coefs: seq<Coef>, i: nat, block: seq<int>, q: Quantiser)
    requires |block| == 64 && q.Valid() && Fits(coefs, i) && forall c | c in coefs :: CoefOk(c)
    requires Window(bits, at, |CoefsBits(coefs)|, limit) == CoefsBits(coefs)
    ensures Calls(Window(bits, at, 34, limit), i, block, q, LegalStep(coefs, i, block, q))
  {
    var w := Window(bits, at, 34, limit);
    if coefs == [] {
      FirstPart(bits, at, [true, false], [], 34, limit);
      EndStep(w, i, block, q);
    } else {
      CoefLength(coefs[0]);
      FirstPart(bits, at, CoefBits(coefs[0]), CoefsBits(coefs[1..]), 34, limit);
      CoefStep(w, coefs[0], i, block, q);
    }
  }

  /** and it leaves the bits of the rest to come. */
  lemma LegalLeaves(bits: seq<bool>, at: nat, limit: int, coefs: seq<Coef>)
    requires coefs != [] && forall c | c in coefs :: CoefOk(c)
    requires Window(bits, at, |CoefsBits(coefs)|, limit) == CoefsBits(coefs)
    ensures |CoefsBits(coefs)| == |CoefBits(coefs[0])| + |CoefsBits(coefs[1..])|
    ensures Window(bits, at + |CoefBits(coefs[0])|, |CoefsBits(coefs[1..])|, limit) == CoefsBits(coefs[1..])
  {
    Leaves(bits, at, limit, CoefsBits(coefs), CoefBits(coefs[0]), CoefsBits(coefs[1..]));
  }

  lemma Leaves(bits: seq<bool>, at: nat, limit: int, all: seq<bool>, x: seq<bool>, y: seq<bool>)
    requires all == x + y && Window(bits, at, |all|, limit) == all
    ensures Window(bits, at + |x|, |y|, limit) == y
  {
    SmallerWindow(bits, at, |x|, |all|, limit);
  }

  lemma LegalFacts(bits: seq<bool>, at: nat, limit: int, coefs: seq<Coef>, i: nat, block: seq<int>, q: Quantiser)
    returns (s: Step)
    requires |block| == 64 && q.Valid() && Fits(coefs, i) && forall c | c in coefs :: CoefOk(c)
    requires Window(bits, at, |CoefsBits(coefs)|, limit) == CoefsBits(coefs)
    ensures Calls(Window(bits, at, 34, limit), i, block, q, s)
    ensures (s.stop <==> coefs == []) && |s.block| == 64
    ensures coefs == [] ==> s.used == |CoefsBits(coefs)| && s.block == Filled(block, coefs, i, q)
    ensures coefs != [] ==>
              && |CoefsBits(coefs)| == s.used + |CoefsBits(coefs[1..])| && Fits(coefs[1..], s.next)
              && Window(bits, at + s.used, |CoefsBits(coefs[1..])|, limit) == CoefsBits(coefs[1..])
              && Filled(s.block, coefs[1..], s.next, q) == Filled(block, coefs, i, q)
  {
    s := StepFilled(coefs, i, block, q);
    LegalCalls(bits, at, limit, coefs, i, block, q);
    if coefs != [] {
      LegalLeaves(bits, at, limit, coefs);
    }
  }

  lemma StepFilled(coefs: seq<Coef>, i: nat, block: seq<int>, q: Quantiser) returns (s: Step)
    requires |block| == 64 && q.Valid() && Fits(coefs, i) && forall c | c in coefs :: CoefOk(c)
    ensures s == LegalStep(coefs, i, block, q)
    ensures (s.stop <==> coefs == []) && |s.block| == 64
    ensures coefs == [] ==> s.used == |CoefsBits(coefs)| && s.block == Filled(block, coefs, i, q)
    ensures coefs != [] ==>
              && s.used == |CoefBits(coefs[0])| && Fits(coefs[1..], s.next)
              && Filled(s.block, coefs[1..], s.next, q) == Filled(block, coefs, i, q)
  {
    s := LegalStep(coefs, i, block, q);
    StepFills(coefs, i, block, q);
  }

  lemma StepFills(coefs: seq<Coef>, i: nat, block: seq<int>, q: Quantiser)
    requires |block| == 64 && q.Valid() && Fits(coefs, i) && forall c | c in coefs :: CoefOk(c)
    ensures var s := LegalStep(coefs, i, block, q);
            && (s.stop <==> coefs == []) && |s.block| == 64
            && (coefs == [] ==> s.used == |CoefsBits(coefs)| && s.block == Filled(block, coefs, i, q))
            && (coefs != [] ==>
                 && s.used == |CoefBits(coefs[0])| && Fits(coefs[1..], s.next)
                 && Filled(s.block, coefs[1..], s.next, q) == Filled(block, coefs, i, q))
  {
  }

  method DecodeCalled(bc: Reader, block: array<int>, i: nat, q: Quantiser, ghost s: Step)
    returns (next: nat, stop: bool)
    requires bc.Valid() && block.Length == 64 && q.Valid() && Calls(bc.Upcoming(34), i, block[..], q, s)
    modifies bc, block
    ensures bc.Valid() && next == s.next && stop == s.stop && bc.at == old(bc.at) + s.used && block[..] == s.block
  {
    assert AsWindow(bc.Upcoming(34));
    next, stop := DecodeStep(bc, block, i, q);
  }

  /** Decoding a legal block gives its DC value and every coefficient at its place, and leaves
      the reader just past the end-of-block code. */
  method DecodeBlock(bc: Reader, block: array<int>, q: Quantiser, ghost dc: int, ghost coefs: seq<Coef>)
    requires bc.Valid() && block.Length == 64 && q.Valid()
    requires -512 <= dc < 512 && Fits(coefs, 0) && (forall c | c in coefs :: CoefOk(c))
    requires Upcoming(bc, BlockBits(dc, coefs))
    modifies bc, block
    ensures bc.Valid() && bc.at == old(bc.at) + |BlockBits(dc, coefs)|
    ensures block[..] == Filled(old(block[..])[0 := Int16(2 * dc + 1024)], coefs, 0, q)
    ensures Distinct(q) && q.zigzag[0] == 0 ==> HoldsValues(block[..], dc, coefs, q)
  {
    var v := DecodeDC(bc, dc, CoefsBits(coefs));
    Store(block, 0, Int16(2 * v + 1024));
    ghost var before := block[..];
    DecodeCoefs(bc, block, q, coefs);
    HeldIfDistinct(dc, coefs, before, q, block[..]);
  }

  lemma HeldIfDistinct(dc: int, coefs: seq<Coef>, before: seq<int>, q: Quantiser, block: seq<int>)
    requires |before| == 64 && q.Valid() && Fits(coefs, 0) && -512 <= dc < 512
    requires before[0] == Int16(2 * dc + 1024) && block == Filled(before, coefs, 0, q)
    ensures Distinct(q) && q.zigzag[0] == 0 ==> HoldsValues(block, dc, coefs, q)
  {
    if Distinct(q) && q.zigzag[0] == 0 {
      AllHeld(dc, coefs, before, q, block);
    }
  }

  method DecodeDC(bc: Reader, ghost dc: int, ghost after: seq<bool>) returns (v: int)
    requires bc.Valid() && -512 <= dc < 512 && dc + Pow2(10) >= 0 && Upcoming(bc, SignedBits(dc, 10) + after)
    modifies bc
    ensures bc.Valid() && bc.at == old(bc.at) + 10 && v == dc && Upcoming(bc, after)
  {
    TenBits();
    FirstPart(BitsOf(bc.buf), bc.at, SignedBits(dc, 10), after, 10, 8 * |bc.buf|);
    SignedRoundTrip(dc, 10);
    assert bc.Upcoming(10)[..10] == bc.Upcoming(10);
    v := bc.GetSigned(10);
  }

  /** The given coefficients are still to come; then the reader will be at end, and the block
      will be as given. */
  ghost predicate ToCome(bits: seq<bool>, at: nat, limit: int, block: seq<int>, i: nat, q: Quantiser,
                         rest: seq<Coef>, end: nat, result: seq<int>)
    requires |block| == 64 && q.Valid()
  {
    && Fits(rest, i) && (forall c | c in rest :: CoefOk(c))
    && Window(bits, at, |CoefsBits(rest)|, limit) == CoefsBits(rest)
    && at + |CoefsBits(rest)| == end && Filled(block, rest, i, q) == result
  }

  predicate AsBlock(block: seq<int>) {
    true
  }

  /** The same, unopened. */
  ghost predicate Pending(bits: seq<bool>, at: nat, limit: int, block: seq<int>, i: nat, q: Quantiser,
                          rest: seq<Coef>, end: nat, result: seq<int>)
    requires |block| == 64 && q.Valid()
  {
    forall x {:trigger AsBlock(x)} | x == block :: ToCome(bits, at, limit, x, i, q, rest, end, result)
  }

  lemma PendingMeans(bits: seq<bool>, at: nat, limit: int, block: seq<int>, i: nat, q: Quantiser,
                     rest: seq<Coef>, end: nat, result: seq<int>)
    requires |block| == 64 && q.Valid()
    ensures Pending(bits, at, limit, block, i, q, rest, end, result)
            <==> ToCome(bits, at, limit, block, i, q, rest, end, result)
  {
    assert AsBlock(block);
  }

  lemma PendingStep(bits: seq<bool>, at: nat, limit: int, block: seq<int>, i: nat, q: Quantiser,
                    rest: seq<Coef>, end: nat, result: seq<int>)
    returns (s: Step)
    requires |block| == 64 && q.Valid() && Pending(bits, at, limit, block, i, q, rest, end, result)
    ensures Calls(Window(bits, at, 34, limit), i, block, q, s) && |s.block| == 64
    ensures s.stop ==> at + s.used == end && s.block == result
    ensures !s.stop ==> rest != [] && Pending(bits, at + s.used, limit, s.block, s.next, q, rest[1..], end, result)
  {
    PendingMeans(bits, at, limit, block, i, q, rest, end, result);
    s := LegalFacts(bits, at, limit, rest, i, block, q);
    if !s.stop {
      assert forall c | c in rest[1..] :: c in rest;
      assert ToCome(bits, at + s.used, limit, s.block, s.next, q, rest[1..], end, result);
      PendingMeans(bits, at + s.used, limit, s.block, s.next, q, rest[1..], end, result);
    }
  }

  method Round(bc: Reader, block: array<int>, i: nat, q: Quantiser, ghost rest: seq<Coef>, ghost end: nat,
               ghost result: seq<int>)
    returns (next: nat, stop: bool)
    requires bc.Valid() && block.Length == 64 && q.Valid()
    requires Pending(BitsOf(bc.buf), bc.at, 8 * |bc.buf|, block[..], i, q, rest, end, result)
    modifies bc, block
    ensures bc.Valid()
    ensures stop ==> bc.at == end && block[..] == result
    ensures !stop ==> rest != []
    ensures !stop ==> Pending(BitsOf(bc.buf), bc.at, 8 * |bc.buf|, block[..], next, q, rest[1..], end, result)
  {
    ghost var s := PendingStep(BitsOf(bc.buf), bc.at, 8 * |bc.buf|, block[..], i, q, rest, end, result);
    next, stop := DecodeCalled(bc, block, i, q, s);
  }

  method DecodeCoefs(bc: Reader, block: array<int>, q: Quantiser, ghost coefs: seq<Coef>)
    requires bc.Valid() && block.Length == 64 && q.Valid()
    requires Fits(coefs, 0) && (forall c | c in coefs :: CoefOk(c)) && Upcoming(bc, CoefsBits(coefs))
    modifies bc, block
    ensures bc.Valid() && bc.at == old(bc.at) + |CoefsBits(coefs)|
    ensures block[..] == Filled(old(block[..]), coefs, 0, q)
  {
    var i := 0;
    ghost var rest := coefs;
    ghost var end := bc.at + |CoefsBits(coefs)|;
    ghost var result := Filled(block[..], coefs, 0, q);
    PendingMeans(BitsOf(bc.buf), bc.at, 8 * |bc.buf|, block[..], 0, q, coefs, end, result);
    while true
      invariant bc.Valid() && Pending(BitsOf(bc.buf), bc.at, 8 * |bc.buf|, block[..], i, q, rest, end, result)
      decreases |rest|
    {
      var next, stop := Round(bc, block, i, q, rest, end, result);
      if stop {
        break;
      }
      i := next;
      rest := rest[1..];
    }
  }

  // ---------------------------------------------------------------- what the block holds

  /** The scan position of the n-th coefficient. */
  function Position(coefs: seq<Coef>, i: nat, n: nat): nat
    requires Fits(coefs, i) && n < |coefs|
    decreases n
  {
    var next := i + Run(coefs[0]) + 1;
    if n == 0 then next else Position(coefs[1..], next, n - 1)
  }

  lemma {:induction false} PositionBounds(coefs: seq<Coef>, i: nat, n: nat)
    requires Fits(coefs, i) && n < |coefs|
    ensures i < Position(coefs, i, n) <= 63
    decreases n
  {
    if n > 0 {
      PositionBounds(coefs[1..], i + Run(coefs[0]) + 1, n - 1);
    }
  }

  ghost predicate Distinct(q: Quantiser)
    requires q.Valid()
  {
    forall a, b | 0 <= a < b < 64 :: q.zigzag[a] != q.zigzag[b]
  }

  lemma StandardDistinct(scale: nat)
    ensures Distinct(Standard(scale))
  {
    var q := Standard(scale);
    forall a, b | 0 <= a < b < 64 ensures q.zigzag[a] != q.zigzag[b] {
      ZigzagInverse(a);
      ZigzagInverse(b);
    }
  }

  /** Places before the scan position are not touched. */
  lemma {:induction false} FilledKeeps(block: seq<int>, coefs: seq<Coef>, i: nat, q: Quantiser, p: nat)
    requires |block| == 64 && Fits(coefs, i) && q.Valid() && Distinct(q) && p <= i && p < 64
    ensures Filled(block, coefs, i, q)[q.zigzag[p]] == block[q.zigzag[p]]
    decreases |coefs|
  {
    if coefs != [] {
      var next := i + Run(coefs[0]) + 1;
      var j := q.zigzag[next];
      FilledKeeps(block[j := ValueOf(coefs[0], q, j)], coefs[1..], next, q, p);
    }
  }

  /** Every coefficient of the encoded block is at the place of its scan position. */
  lemma {:induction false} FilledHolds(block: seq<int>, coefs: seq<Coef>, i: nat, q: Quantiser, n: nat)
    requires |block| == 64 && Fits(coefs, i) && q.Valid() && Distinct(q) && n < |coefs|
    ensures Position(coefs, i, n) < 64 && CoefOk(coefs[n])
    ensures var j := q.zigzag[Position(coefs, i, n)];
            Filled(block, coefs, i, q)[j] == ValueOf(coefs[n], q, j)
    decreases n
  {
    PositionBounds(coefs, i, n);
    FitsOk(coefs, i);
    var next := i + Run(coefs[0]) + 1;
    var j := q.zigzag[next];
    var filled := block[j := ValueOf(coefs[0], q, j)];
    if n == 0 {
      FilledKeeps(filled, coefs[1..], next, q, next);
    } else {
      FilledHolds(filled, coefs[1..], next, q, n - 1);
    }
  }

  /** Every other place keeps what it had: zero, for a block that was cleared. */
  lemma {:induction false} FilledOnly(block: seq<int>, coefs: seq<Coef>, i: nat, q: Quantiser, p: nat)
    requires |block| == 64 && Fits(coefs, i) && q.Valid() && Distinct(q) && p < 64
    requires forall n: nat {:trigger Position(coefs, i, n)} | n < |coefs| :: Position(coefs, i, n) != p
    ensures Filled(block, coefs, i, q)[q.zigzag[p]] == block[q.zigzag[p]]
    decreases |coefs|
  {
    if coefs != [] {
      var next := i + Run(coefs[0]) + 1;
      var j := q.zigzag[next];
      assert Position(coefs, i, 0) == next;
      forall n: nat | n < |coefs[1..]| ensures Position(coefs[1..], next, n) != p {
        assert Position(coefs, i, n + 1) == Position(coefs[1..], next, n);
      }
      FilledOnly(block[j := ValueOf(coefs[0], q, j)], coefs[1..], next, q, p);
    }
  }

  // ---------------------------------------------------------------- what the values are

  /** v is x as a signed number of 16 bits. */
  predicate Stores(v: int, x: int) {
    -0x8000 <= v < 0x8000 && (v - x) % 0x1_0000 == 0
  }

  /** x is n divided by 8, rounded toward zero, with a sign. */
  predicate Eighth(x: int, n: nat, negative: bool) {
    8 * Abs(x) <= n < 8 * Abs(x) + 8 && (if negative then x <= 0 else x >= 0)
  }

  /** x is the largest odd number that is not above an eighth of n, or its negation. */
  predicate OddEighth(x: int, n: nat, negative: bool) {
    var m := if negative then -x else x;
    m % 2 == 1 && 8 * m <= n < 8 * (m + 2)
  }

  lemma Int16Stores(x: int)
    ensures Stores(Int16(x), x)
  {
  }

  lemma SmallStored(v: int, x: int)
    requires Stores(v, x) && -0x8000 <= x < 0x8000
    ensures v == x
  {
  }

  lemma EighthOf(n: nat, negative: bool)
    ensures Eighth(if negative then -(n / 8) else n / 8, n, negative)
  {
  }

  lemma OddEighthOf(n: nat, negative: bool)
    ensures var m := OrOne(n / 8 - 1); OddEighth(if negative then -m else m, n, negative)
  {
  }

  function Product(level: nat, q: Quantiser, j: nat): nat
    requires j < |q.matrix|
  {
    level * q.scale * q.matrix[j]
  }

  lemma ScaledIs(level: nat, q: Quantiser, j: nat, n: nat)
    requires j < |q.matrix| && n == Product(level, q, j)
    ensures Scaled(level, q, j) == n / 8
  {
  }

  lemma CodedIs(level: nat, negative: bool, q: Quantiser, j: nat, n: nat)
    requires j < |q.matrix| && n == Product(level, q, j)
    ensures exists x :: Stores(CodedValue(level, negative, q, j), x) && Eighth(x, n, negative)
  {
    var x := if negative then -(n / 8) else n / 8;
    ScaledIs(level, q, j, n);
    EighthOf(n, negative);
    Int16Stores(x);
    assert Stores(CodedValue(level, negative, q, j), x);
  }

  lemma EscapedIs(level: int, q: Quantiser, j: nat, n: nat)
    requires j < |q.matrix| && n == Product(Abs(level), q, j)
    ensures exists x :: Stores(EscapedValue(level, q, j), x) && OddEighth(x, n, level < 0)
  {
    var m := OrOne(n / 8 - 1);
    var x := if level < 0 then -m else m;
    ScaledIs(Abs(level), q, j, n);
    OddEighthOf(n, level < 0);
    Int16Stores(x);
    assert EscapedValue(level, q, j) == Int16(x);
  }

  /** The level of a coefficient, without its sign. */
  function Level(c: Coef): nat
    requires CoefOk(c)
  {
    match c
    case Coded(k, _) => Entry(k).level
    case Escaped(_, level) => Abs(level)
  }

  /** What a place of the block must hold for a coefficient whose level times the scale times the
      entry of the matrix is n. */
  ghost predicate Dequantised(v: int, c: Coef, n: nat) {
    match c
    case Coded(_, negative) => exists x :: Stores(v, x) && Eighth(x, n, negative)
    case Escaped(_, level) => exists x :: Stores(v, x) && OddEighth(x, n, level < 0)
  }

  /** As long as it fits 16 bits, the value is the eighth itself. */
  lemma FitsExactly(v: int, c: Coef, n: nat)
    requires Dequantised(v, c, n) && n < 0x4_0000
    ensures c.Coded? ==> 8 * Abs(v) <= n < 8 * (Abs(v) + 1) && (if c.negative then v <= 0 else v >= 0)
    ensures c.Escaped? ==>
              var m := if c.level < 0 then -v else v;
              m % 2 == 1 && 8 * m <= n < 8 * (m + 2)
  {
    if c.Coded? {
      var x :| Stores(v, x) && Eighth(x, n, c.negative);
      SmallStored(v, x);
    } else {
      var x :| Stores(v, x) && OddEighth(x, n, c.level < 0);
      SmallStored(v, x);
    }
  }

  lemma ValueIs(c: Coef, q: Quantiser, j: nat, n: nat)
    requires CoefOk(c) && j < |q.matrix| && n == Product(Level(c), q, j)
    ensures Dequantised(ValueOf(c, q, j), c, n)
  {
    match c
    case Coded(k, negative) => CodedIs(Entry(k).level, negative, q, j, n);
    case Escaped(_, level) => EscapedIs(level, q, j, n);
  }

  lemma HeldIs(v: int, c: Coef, q: Quantiser, j: nat)
    requires CoefOk(c) && j < |q.matrix| && v == ValueOf(c, q, j)
    ensures Dequantised(v, c, Product(Level(c), q, j))
  {
    ValueIs(c, q, j, Product(Level(c), q, j));
  }

  /** A decoded block (Mdec.DecodeBlock) holds, at the place of every coefficient, its level times
      the scale times the entry of the matrix, divided by 8; and in front the DC value. */
  lemma ValuesHeld(coefs: seq<Coef>, before: seq<int>, q: Quantiser, i: nat, block: seq<int>)
    requires |before| == 64 && q.Valid() && Distinct(q) && Fits(coefs, 0) && i < |coefs|
    requires block == Filled(before, coefs, 0, q)
    ensures Position(coefs, 0, i) < 64 && CoefOk(coefs[i])
    ensures var j := q.zigzag[Position(coefs, 0, i)];
            Dequantised(block[j], coefs[i], Product(Level(coefs[i]), q, j))
  {
    FilledHolds(before, coefs, 0, q, i);
    var j := q.zigzag[Position(coefs, 0, i)];
    HeldIs(block[j], coefs[i], q, j);
  }

  /** Everything that a decoded block holds. */
  ghost predicate HoldsValues(block: seq<int>, dc: int, coefs: seq<Coef>, q: Quantiser)
    requires |block| == 64 && q.Valid() && Fits(coefs, 0)
  {
    && block[0] == 2 * dc + 1024
    && (forall i: nat {:trigger ValueHeld(block, coefs, q, i)} | i < |coefs| :: ValueHeld(block, coefs, q, i))
  }

  ghost predicate ValueHeld(block: seq<int>, coefs: seq<Coef>, q: Quantiser, i: nat)
    requires |block| == 64 && q.Valid() && Fits(coefs, 0) && i < |coefs|
  {
    Position(coefs, 0, i) < 64 && CoefOk(coefs[i]) &&
    var j := q.zigzag[Position(coefs, 0, i)];
    Dequantised(block[j], coefs[i], Product(Level(coefs[i]), q, j))
  }

  lemma AllHeld(dc: int, coefs: seq<Coef>, before: seq<int>, q: Quantiser, block: seq<int>)
    requires |before| == 64 && q.Valid() && Distinct(q) && q.zigzag[0] == 0 && Fits(coefs, 0) && -512 <= dc < 512
    requires before[0] == Int16(2 * dc + 1024) && block == Filled(before, coefs, 0, q)
    ensures HoldsValues(block, dc, coefs, q)
  {
    FilledKeeps(before, coefs, 0, q, 0);
    forall i: nat | i < |coefs| ensures ValueHeld(block, coefs, q, i) {
      ValuesHeld(coefs, before, q, i, block);
    }
  }

  // ---------------------------------------------------------------- macroblocks

  datatype EncodedBlock = EncodedBlock(dc: int, coefs: seq<Coef>)

  ghost predicate Legal(b: EncodedBlock) {
    -512 <= b.dc < 512 && Fits(b.coefs, 0) && forall c | c in b.coefs :: CoefOk(c)
  }

  function EncodedBits(b: EncodedBlock): seq<bool>
    requires Legal(b)
  {
    BlockBits(b.dc, b.coefs)
  }

  /** A cleared block with its DC value and coefficients. */
  function Decoded(b: EncodedBlock, q: Quantiser): seq<int>
    requires Legal(b) && q.Valid()
  {
    Filled(seq(64, _ => 0)[0 := Int16(2 * b.dc + 1024)], b.coefs, 0, q)
  }

  /** It holds what the format says. */
  lemma DecodedHolds(b: EncodedBlock, q: Quantiser)
    requires Legal(b) && q.Valid() && Distinct(q) && q.zigzag[0] == 0
    ensures HoldsValues(Decoded(b, q), b.dc, b.coefs, q)
  {
    AllHeld(b.dc, b.coefs, seq(64, _ => 0)[0 := Int16(2 * b.dc + 1024)], q, Decoded(b, q));
  }

  ghost predicate AllLegal(bs: seq<EncodedBlock>) {
    forall b | b in bs :: Legal(b)
  }

  function BlocksBits(bs: seq<EncodedBlock>): seq<bool>
    requires AllLegal(bs)
  {
    if bs == [] then [] else EncodedBits(bs[0]) + BlocksBits(bs[1..])
  }

  method DecodeCleared(bc: Reader, q: Quantiser, ghost b: EncodedBlock, ghost after: seq<bool>)
    returns (block: seq<int>)
    requires bc.Valid() && q.Valid() && Legal(b) && Upcoming(bc, EncodedBits(b) + after)
    modifies bc
    ensures bc.Valid() && Upcoming(bc, after) && block == Decoded(b, q)
  {
    Head(BitsOf(bc.buf), bc.at, EncodedBits(b), after, 8 * |bc.buf|);
    block := DecodeFresh(bc, q, b);
  }

  lemma Head(bits: seq<bool>, at: nat, x: seq<bool>, y: seq<bool>, limit: int)
    requires Window(bits, at, |x + y|, limit) == x + y
    ensures Window(bits, at, |x|, limit) == x && Window(bits, at + |x|, |y|, limit) == y
  {
    SmallerWindow(bits, at, |x|, |x + y|, limit);
  }

  method Cleared() returns (cells: array<int>)
    ensures fresh(cells) && cells[..] == seq(64, _ => 0)
  {
    cells := new int[64](_ => 0);
  }

  method DecodeFresh(bc: Reader, q: Quantiser, ghost b: EncodedBlock) returns (block: seq<int>)
    requires bc.Valid() && q.Valid() && Legal(b) && Upcoming(bc, EncodedBits(b))
    modifies bc
    ensures bc.Valid() && bc.at == old(bc.at) + |EncodedBits(b)| && block == Decoded(b, q)
  {
    var cells := Cleared();
    block := DecodeInto(bc, cells, q, b);
  }

  method DecodeInto(bc: Reader, cells: array<int>, q: Quantiser, ghost b: EncodedBlock) returns (block: seq<int>)
    requires bc.Valid() && q.Valid() && Legal(b) && Upcoming(bc, EncodedBits(b)) && cells.Length == 64
    modifies bc, cells
    ensures bc.Valid() && bc.at == old(bc.at) + |EncodedBits(b)|
    ensures block == Filled(old(cells[..])[0 := Int16(2 * b.dc + 1024)], b.coefs, 0, q)
  {
    DecodeBlock(bc, cells, q, b.dc, b.coefs);
    block := cells[..];
  }

  function DecodedAll(bs: seq<EncodedBlock>, q: Quantiser): seq<seq<int>>
    requires AllLegal(bs) && q.Valid()
  {
    if bs == [] then [] else [Decoded(bs[0], q)] + DecodedAll(bs[1..], q)
  }

  lemma {:induction false} DecodedAllAt(bs: seq<EncodedBlock>, q: Quantiser, i: nat)
    requires AllLegal(bs) && q.Valid() && i < |bs|
    ensures Legal(bs[i]) && |DecodedAll(bs, q)| == |bs| && DecodedAll(bs, q)[i] == Decoded(bs[i], q)
    decreases |bs|
  {
    assert bs[i] in bs;
    if i > 0 {
      DecodedAllAt(bs[1..], q, i - 1);
    } else if |bs| > 1 {
      DecodedAllAt(bs[1..], q, 0);
    }
  }

  /** Blocks decode in step: each starts where the one before ended. */
  method DecodeBlocks(bc: Reader, q: Quantiser, n: nat, ghost bs: seq<EncodedBlock>, ghost after: seq<bool>)
    returns (blocks: seq<seq<int>>)
    requires bc.Valid() && q.Valid() && |bs| == n && AllLegal(bs) && Upcoming(bc, BlocksBits(bs) + after)
    modifies bc
    ensures bc.Valid() && Upcoming(bc, after) && blocks == DecodedAll(bs, q)
  {
    blocks := [];
    ghost var rest := bs;
    assert [] + DecodedAll(bs, q) == DecodedAll(bs, q);
    for i := 0 to n
      invariant bc.Valid() && |rest| == n - i && AllLegal(rest) && Upcoming(bc, BlocksBits(rest) + after)
      invariant blocks + DecodedAll(rest, q) == DecodedAll(bs, q)
    {
      OneOfBlocks(rest, after);
      var block := DecodeCleared(bc, q, rest[0], BlocksBits(rest[1..]) + after);
      Regroup(blocks, [block], DecodedAll(rest[1..], q));
      blocks := blocks + [block];
      rest := rest[1..];
    }
    assert BlocksBits([]) + after == after && blocks + [] == blocks;
  }

  lemma OneOfBlocks(bs: seq<EncodedBlock>, after: seq<bool>)
    requires bs != [] && AllLegal(bs)
    ensures Legal(bs[0]) && AllLegal(bs[1..])
    ensures BlocksBits(bs) + after == EncodedBits(bs[0]) + (BlocksBits(bs[1..]) + after)
  {
    assert bs[0] in bs;
  }

  /** The order in which the six blocks of a macroblock are sent: Cr, Cb, then the four of Y. */
  function BlockIndex(i: nat): (j: nat)
    requires i < 6
    ensures j < 6
  {
    match i case 0 => 5 case 1 => 4 case 2 => 0 case 3 => 1 case 4 => 2 case _ => 3
  }

  /** A macroblock: each of the six blocks at its index. */
  method DecodeMacroblock(bc: Reader, q: Quantiser, ghost bs: seq<EncodedBlock>, ghost after: seq<bool>)
    returns (blocks: seq<seq<int>>)
    requires bc.Valid() && q.Valid() && |bs| == 6 && AllLegal(bs) && Upcoming(bc, BlocksBits(bs) + after)
    modifies bc
    ensures bc.Valid() && Upcoming(bc, after)
    ensures |blocks| == 6 && forall i | 0 <= i < 6 :: blocks[BlockIndex(i)] == Decoded(bs[i], q)
  {
    var sent := DecodeBlocks(bc, q, 6, bs, after);
    forall i: nat | i < 6 ensures |sent| == 6 && sent[i] == Decoded(bs[i], q) {
      DecodedAllAt(bs, q, i);
    }
    blocks := [sent[2], sent[3], sent[4], sent[5], sent[1], sent[0]];
  }
}
