/** CRC-32: one bit at a time, with a generated table, and with a literal table. */
module Crc {
  /** One step of the reflected polynomial division (section 8 of RFC 1952). */
  function ShiftOne(c: bv32): bv32 {
    if c & 1 == 1 then (c >> 1) ^ 0xEDB88320 else c >> 1
  }

  function Iterate<T>(f: T -> T, c: T, n: nat): T
    decreases n, c
  {
    if n == 0 then c else Iterate(f, f(c), n - 1)
  }

  /** Eight steps. */
  function Shift(c: bv32): bv32 {
    Iterate(ShiftOne, c, 8)
  }

  /** The register after a byte, one bit at a time. */
  function NextByte(crc: bv32, b: bv8): bv32 {
    Shift(crc ^ (b as bv32))
  }

  function Register(data: seq<bv8>): bv32 {
    if data == [] then 0xFFFFFFFF else NextByte(Register(data[..|data| - 1]), data[|data| - 1])
  }

  /** The CRC-32 of the data. */
  function Crc32(data: seq<bv8>): bv32 {
    Register(data) ^ 0xFFFFFFFF
  }

  // ---------------------------------------------------------------- bit identities

  lemma HalfXor(a: bv32, b: bv32)
    ensures (a ^ b) >> 1 == (a >> 1) ^ (b >> 1)
  {
  }

  lemma OddXor(a: bv32, b: bv32)
    ensures (a ^ b) & 1 == (a & 1) ^ (b & 1)
  {
  }

  lemma OddOrEven(a: bv32)
    ensures a & 1 == 0 || a & 1 == 1
  {
  }

  lemma XorSame(a: bv32, b: bv32, p: bv32)
    ensures (a ^ p) ^ (b ^ p) == a ^ b && (a ^ p) ^ b == (a ^ b) ^ p && a ^ (b ^ p) == (a ^ b) ^ p
  {
  }

  lemma BitXor()
    ensures (1 as bv32) ^ 1 == 0 && (1 as bv32) ^ 0 == 1 && (0 as bv32) ^ 1 == 1 && (0 as bv32) ^ 0 == 0
  {
  }

  // ---------------------------------------------------------------- eight steps at once

  lemma ShiftOneLinear(a: bv32, b: bv32)
    ensures ShiftOne(a ^ b) == ShiftOne(a) ^ ShiftOne(b)
  {
    HalfXor(a, b);
    OddXor(a, b);
    OddOrEven(a);
    OddOrEven(b);
    BitXor();
    XorSame(a >> 1, b >> 1, 0xEDB88320);
  }

  function Xor(a: bv32, b: bv32): bv32 {
    a ^ b
  }

  /** Iterating a homomorphism gives a homomorphism. */
  lemma {:induction false} IterateHom<T(!new)>(f: T -> T, op: (T, T) -> T, a: T, b: T, n: nat)
    requires forall x, y {:trigger f(op(x, y))} :: f(op(x, y)) == op(f(x), f(y))
    ensures Iterate(f, op(a, b), n) == op(Iterate(f, a, n), Iterate(f, b, n))
    decreases n
  {
    if n > 0 {
      assert f(op(a, b)) == op(f(a), f(b));
      IterateHom(f, op, f(a), f(b), n - 1);
    }
  }

  lemma ShiftLinear(a: bv32, b: bv32)
    ensures Shift(Xor(a, b)) == Xor(Shift(a), Shift(b))
  {
    forall x, y ensures ShiftOne(Xor(x, y)) == Xor(ShiftOne(x), ShiftOne(y)) {
      ShiftOneLinear(x, y);
    }
    IterateHom(ShiftOne, Xor, a, b, 8);
  }

  lemma IterateFour<T>(f: T -> T, c0: T, c1: T, c2: T, c3: T, c4: T, n: nat)
    requires f(c0) == c1 && f(c1) == c2 && f(c2) == c3 && f(c3) == c4
    ensures Iterate(f, c0, n + 4) == Iterate(f, c4, n)
  {
    assert Iterate(f, c0, n + 4) == Iterate(f, c1, n + 3) == Iterate(f, c2, n + 2);
    assert Iterate(f, c2, n + 2) == Iterate(f, c3, n + 1) == Iterate(f, c4, n);
  }

  /** g is even and h is half of it. */
  predicate Half(g: bv32, h: bv32) {
    g & 1 == 0 && g >> 1 == h
  }

  lemma EvenStep(g: bv32, h: bv32)
    requires Half(g, h)
    ensures ShiftOne(g) == h
  {
  }

  lemma HighBits(h: bv32)
    requires h & 0xFF == 0
    ensures Half(h, h >> 1) && Half(h >> 1, h >> 2) && Half(h >> 2, h >> 3) && Half(h >> 3, h >> 4)
    ensures Half(h >> 4, h >> 5) && Half(h >> 5, h >> 6) && Half(h >> 6, h >> 7) && Half(h >> 7, h >> 8)
  {
  }

  lemma HalvingMoves(f: bv32 -> bv32, h: bv32)
    requires h & 0xFF == 0
    requires forall g, g' {:trigger Half(g, g')} | Half(g, g') :: f(g) == g'
    ensures Iterate(f, h, 8) == h >> 8
  {
    HighBits(h);
    IterateFour(f, h, h >> 1, h >> 2, h >> 3, h >> 4, 4);
    IterateFour(f, h >> 4, h >> 5, h >> 6, h >> 7, h >> 8, 0);
  }

  /** A word whose low byte is clear moves down by a byte. */
  lemma HighMoves(h: bv32)
    requires h & 0xFF == 0
    ensures Shift(h) == h >> 8
  {
    forall g, g' | Half(g, g') ensures ShiftOne(g) == g' {
      EvenStep(g, g');
    }
    HalvingMoves(ShiftOne, h);
  }

  lemma SplitLow(x: bv32)
    ensures x == Xor(x & 0xFF, x & 0xFFFFFF00) && (x & 0xFFFFFF00) & 0xFF == 0 && (x & 0xFFFFFF00) >> 8 == x >> 8
  {
  }

  lemma ByteIsLow(crc: bv32, b: bv8)
    ensures (crc ^ (b as bv32)) >> 8 == crc >> 8
    ensures (crc ^ (b as bv32)) & 0xFF == (b as bv32) ^ (crc & 0xFF)
  {
  }

  lemma Compose<T>(f: T -> T, op: (T, T) -> T, x: T, low: T, high: T, moved: T)
    requires x == op(low, high) && f(op(low, high)) == op(f(low), f(high)) && f(high) == moved
    ensures f(x) == op(f(low), moved)
  {
  }

  lemma WordFrom(x: bv32, low: bv32, high: bv32, moved: bv32)
    requires x == Xor(low, high) && Shift(high) == moved
    ensures Shift(x) == Xor(Shift(low), moved)
  {
    ShiftLinear(low, high);
    Compose(Shift, Xor, x, low, high, moved);
  }

  lemma WordStep(x: bv32)
    ensures Shift(x) == Xor(Shift(x & 0xFF), x >> 8)
  {
    SplitLow(x);
    HighMoves(x & 0xFFFFFF00);
    WordFrom(x, x & 0xFF, x & 0xFFFFFF00, x >> 8);
  }

  /** Eight steps at once: look up the low byte, move the rest down. */
  lemma TableStep(crc: bv32, b: bv8)
    ensures NextByte(crc, b) == Xor(Shift((crc ^ (b as bv32)) & 0xFF), crc >> 8)
  {
    WordStep(crc ^ (b as bv32));
    ByteIsLow(crc, b);
  }

  // ---------------------------------------------------------------- the generated table

  lemma ThereAndBack(v: bv32)
    ensures (v as nat) as bv32 == v
  {
  }

  lemma LowByte(v: bv32)
    ensures v & 0xFF < 256
  {
  }

  /** Fills the table with eight steps of each byte value. */
  method InitTable(table: array<bv32>)
    requires table.Length == 256
    modifies table
    ensures Generated(table)
  {
    for i := 0 to 256
      invariant forall k | 0 <= k < i :: table[k] == Shift(k as bv32)
    {
      var c := i as bv32;
      for j := 0 to 8
        invariant Iterate(ShiftOne, c, 8 - j) == Shift(i as bv32)
        invariant forall k | 0 <= k < i :: table[k] == Shift(k as bv32)
      {
        c := ShiftOne(c);
      }
      table[i] := c;
    }
  }

  lemma RegisterStep(data: seq<bv8>, i: nat)
    requires i < |data|
    ensures Register(data[..i + 1]) == NextByte(Register(data[..i]), data[i])
  {
    assert data[..i + 1][..i] == data[..i];
  }

  predicate Generated(table: array<bv32>)
    reads table
  {
    table.Length == 256 && forall i | 0 <= i < 256 :: table[i] == Shift(i as bv32)
  }

  method Entry(table: array<bv32>, low: bv32) returns (v: bv32)
    requires Generated(table) && low < 256
    ensures v == Shift(low)
  {
    ThereAndBack(low);
    v := table[low as nat];
  }

  /** The checksum with a generated table. */
  method Compute(table: array<bv32>, data: seq<bv8>) returns (crc: bv32)
    requires Generated(table)
    ensures crc == Crc32(data)
  {
    crc := 0xFFFFFFFF;
    for i := 0 to |data|
      invariant crc == Register(data[..i])
    {
      crc := LookUp(table, data, i, crc);
    }
    assert data[..|data|] == data;
    crc := crc ^ 0xFFFFFFFF;
  }

  method LookUp(table: array<bv32>, data: seq<bv8>, i: nat, crc: bv32) returns (next: bv32)
    requires Generated(table)
    requires i < |data| && crc == Register(data[..i])
    ensures next == Register(data[..i + 1])
  {
    LowByte(crc ^ (data[i] as bv32));
    var entry := Entry(table, (crc ^ (data[i] as bv32)) & 0xFF);
    next := Xor(entry, crc >> 8);
    TableStep(crc, data[i]);
    RegisterStep(data, i);
  }

  // ---------------------------------------------------------------- the literal table

  function Row0(l: bv4): bv32 {
    match l
    case 0 => 0x00000000 case 1 => 0x77073096 case 2 => 0xEE0E612C case 3 => 0x990951BA
    case 4 => 0x076DC419 case 5 => 0x706AF48F case 6 => 0xE963A535 case 7 => 0x9E6495A3
    case 8 => 0x0EDB8832 case 9 => 0x79DCB8A4 case 10 => 0xE0D5E91E case 11 => 0x97D2D988
    case 12 => 0x09B64C2B case 13 => 0x7EB17CBD case 14 => 0xE7B82D07 case _ => 0x90BF1D91
  }

  function Row1(l: bv4): bv32 {
    match l
    case 0 => 0x1DB71064 case 1 => 0x6AB020F2 case 2 => 0xF3B97148 case 3 => 0x84BE41DE
    case 4 => 0x1ADAD47D case 5 => 0x6DDDE4EB case 6 => 0xF4D4B551 case 7 => 0x83D385C7
    case 8 => 0x136C9856 case 9 => 0x646BA8C0 case 10 => 0xFD62F97A case 11 => 0x8A65C9EC
    case 12 => 0x14015C4F case 13 => 0x63066CD9 case 14 => 0xFA0F3D63 case _ => 0x8D080DF5
  }

  function Row2(l: bv4): bv32 {
    match l
    case 0 => 0x3B6E20C8 case 1 => 0x4C69105E case 2 => 0xD56041E4 case 3 => 0xA2677172
    case 4 => 0x3C03E4D1 case 5 => 0x4B04D447 case 6 => 0xD20D85FD case 7 => 0xA50AB56B
    case 8 => 0x35B5A8FA case 9 => 0x42B2986C case 10 => 0xDBBBC9D6 case 11 => 0xACBCF940
    case 12 => 0x32D86CE3 case 13 => 0x45DF5C75 case 14 => 0xDCD60DCF case _ => 0xABD13D59
  }

  function Row3(l: bv4): bv32 {
    match l
    case 0 => 0x26D930AC case 1 => 0x51DE003A case 2 => 0xC8D75180 case 3 => 0xBFD06116
    case 4 => 0x21B4F4B5 case 5 => 0x56B3C423 case 6 => 0xCFBA9599 case 7 => 0xB8BDA50F
    case 8 => 0x2802B89E case 9 => 0x5F058808 case 10 => 0xC60CD9B2 case 11 => 0xB10BE924
    case 12 => 0x2F6F7C87 case 13 => 0x58684C11 case 14 => 0xC1611DAB case _ => 0xB6662D3D
  }

  function Row4(l: bv4): bv32 {
    match l
    case 0 => 0x76DC4190 case 1 => 0x01DB7106 case 2 => 0x98D220BC case 3 => 0xEFD5102A
    case 4 => 0x71B18589 case 5 => 0x06B6B51F case 6 => 0x9FBFE4A5 case 7 => 0xE8B8D433
    case 8 => 0x7807C9A2 case 9 => 0x0F00F934 case 10 => 0x9609A88E case 11 => 0xE10E9818
    case 12 => 0x7F6A0DBB case 13 => 0x086D3D2D case 14 => 0x91646C97 case _ => 0xE6635C01
  }

  function Row5(l: bv4): bv32 {
    match l
    case 0 => 0x6B6B51F4 case 1 => 0x1C6C6162 case 2 => 0x856530D8 case 3 => 0xF262004E
    case 4 => 0x6C0695ED case 5 => 0x1B01A57B case 6 => 0x8208F4C1 case 7 => 0xF50FC457
    case 8 => 0x65B0D9C6 case 9 => 0x12B7E950 case 10 => 0x8BBEB8EA case 11 => 0xFCB9887C
    case 12 => 0x62DD1DDF case 13 => 0x15DA2D49 case 14 => 0x8CD37CF3 case _ => 0xFBD44C65
  }

  function Row6(l: bv4): bv32 {
    match l
    case 0 => 0x4DB26158 case 1 => 0x3AB551CE case 2 => 0xA3BC0074 case 3 => 0xD4BB30E2
    case 4 => 0x4ADFA541 case 5 => 0x3DD895D7 case 6 => 0xA4D1C46D case 7 => 0xD3D6F4FB
    case 8 => 0x4369E96A case 9 => 0x346ED9FC case 10 => 0xAD678846 case 11 => 0xDA60B8D0
    case 12 => 0x44042D73 case 13 => 0x33031DE5 case 14 => 0xAA0A4C5F case _ => 0xDD0D7CC9
  }

  function Row7(l: bv4): bv32 {
    match l
    case 0 => 0x5005713C case 1 => 0x270241AA case 2 => 0xBE0B1010 case 3 => 0xC90C2086
    case 4 => 0x5768B525 case 5 => 0x206F85B3 case 6 => 0xB966D409 case 7 => 0xCE61E49F
    case 8 => 0x5EDEF90E case 9 => 0x29D9C998 case 10 => 0xB0D09822 case 11 => 0xC7D7A8B4
    case 12 => 0x59B33D17 case 13 => 0x2EB40D81 case 14 => 0xB7BD5C3B case _ => 0xC0BA6CAD
  }

  function Row8(l: bv4): bv32 {
    match l
    case 0 => 0xEDB88320 case 1 => 0x9ABFB3B6 case 2 => 0x03B6E20C case 3 => 0x74B1D29A
    case 4 => 0xEAD54739 case 5 => 0x9DD277AF case 6 => 0x04DB2615 case 7 => 0x73DC1683
    case 8 => 0xE3630B12 case 9 => 0x94643B84 case 10 => 0x0D6D6A3E case 11 => 0x7A6A5AA8
    case 12 => 0xE40ECF0B case 13 => 0x9309FF9D case 14 => 0x0A00AE27 case _ => 0x7D079EB1
  }

  function Row9(l: bv4): bv32 {
    match l
    case 0 => 0xF00F9344 case 1 => 0x8708A3D2 case 2 => 0x1E01F268 case 3 => 0x6906C2FE
    case 4 => 0xF762575D case 5 => 0x806567CB case 6 => 0x196C3671 case 7 => 0x6E6B06E7
    case 8 => 0xFED41B76 case 9 => 0x89D32BE0 case 10 => 0x10DA7A5A case 11 => 0x67DD4ACC
    case 12 => 0xF9B9DF6F case 13 => 0x8EBEEFF9 case 14 => 0x17B7BE43 case _ => 0x60B08ED5
  }

  function Row10(l: bv4): bv32 {
    match l
    case 0 => 0xD6D6A3E8 case 1 => 0xA1D1937E case 2 => 0x38D8C2C4 case 3 => 0x4FDFF252
    case 4 => 0xD1BB67F1 case 5 => 0xA6BC5767 case 6 => 0x3FB506DD case 7 => 0x48B2364B
    case 8 => 0xD80D2BDA case 9 => 0xAF0A1B4C case 10 => 0x36034AF6 case 11 => 0x41047A60
    case 12 => 0xDF60EFC3 case 13 => 0xA867DF55 case 14 => 0x316E8EEF case _ => 0x4669BE79
  }

  function Row11(l: bv4): bv32 {
    match l
    case 0 => 0xCB61B38C case 1 => 0xBC66831A case 2 => 0x256FD2A0 case 3 => 0x5268E236
    case 4 => 0xCC0C7795 case 5 => 0xBB0B4703 case 6 => 0x220216B9 case 7 => 0x5505262F
    case 8 => 0xC5BA3BBE case 9 => 0xB2BD0B28 case 10 => 0x2BB45A92 case 11 => 0x5CB36A04
    case 12 => 0xC2D7FFA7 case 13 => 0xB5D0CF31 case 14 => 0x2CD99E8B case _ => 0x5BDEAE1D
  }

  function Row12(l: bv4): bv32 {
    match l
    case 0 => 0x9B64C2B0 case 1 => 0xEC63F226 case 2 => 0x756AA39C case 3 => 0x026D930A
    case 4 => 0x9C0906A9 case 5 => 0xEB0E363F case 6 => 0x72076785 case 7 => 0x05005713
    case 8 => 0x95BF4A82 case 9 => 0xE2B87A14 case 10 => 0x7BB12BAE case 11 => 0x0CB61B38
    case 12 => 0x92D28E9B case 13 => 0xE5D5BE0D case 14 => 0x7CDCEFB7 case _ => 0x0BDBDF21
  }

  function Row13(l: bv4): bv32 {
    match l
    case 0 => 0x86D3D2D4 case 1 => 0xF1D4E242 case 2 => 0x68DDB3F8 case 3 => 0x1FDA836E
    case 4 => 0x81BE16CD case 5 => 0xF6B9265B case 6 => 0x6FB077E1 case 7 => 0x18B74777
    case 8 => 0x88085AE6 case 9 => 0xFF0F6A70 case 10 => 0x66063BCA case 11 => 0x11010B5C
    case 12 => 0x8F659EFF case 13 => 0xF862AE69 case 14 => 0x616BFFD3 case _ => 0x166CCF45
  }

  function Row14(l: bv4): bv32 {
    match l
    case 0 => 0xA00AE278 case 1 => 0xD70DD2EE case 2 => 0x4E048354 case 3 => 0x3903B3C2
    case 4 => 0xA7672661 case 5 => 0xD06016F7 case 6 => 0x4969474D case 7 => 0x3E6E77DB
    case 8 => 0xAED16A4A case 9 => 0xD9D65ADC case 10 => 0x40DF0B66 case 11 => 0x37D83BF0
    case 12 => 0xA9BCAE53 case 13 => 0xDEBB9EC5 case 14 => 0x47B2CF7F case _ => 0x30B5FFE9
  }

  function Row15(l: bv4): bv32 {
    match l
    case 0 => 0xBDBDF21C case 1 => 0xCABAC28A case 2 => 0x53B39330 case 3 => 0x24B4A3A6
    case 4 => 0xBAD03605 case 5 => 0xCDD70693 case 6 => 0x54DE5729 case 7 => 0x23D967BF
    case 8 => 0xB3667A2E case 9 => 0xC4614AB8 case 10 => 0x5D681B02 case 11 => 0x2A6F2B94
    case 12 => 0xB40BBE37 case 13 => 0xC30C8EA1 case 14 => 0x5A05DF1B case _ => 0x2D02EF8D
  }

  /** The table of literals, a row for each high digit. */
  function Literal(i: bv8): bv32 {
    var l := (i & 15) as bv4;
    match (i >> 4) as bv4
    case 0 => Row0(l) case 1 => Row1(l) case 2 => Row2(l) case 3 => Row3(l)
    case 4 => Row4(l) case 5 => Row5(l) case 6 => Row6(l) case 7 => Row7(l)
    case 8 => Row8(l) case 9 => Row9(l) case 10 => Row10(l) case 11 => Row11(l)
    case 12 => Row12(l) case 13 => Row13(l) case 14 => Row14(l) case _ => Row15(l)
  }

  function Pick(x: bv32, m: bv32, v: bv32): bv32 {
    if x & m == m then v else 0
  }

  function LowPart(x: bv32): bv32 {
    Pick(x, 1, 0x77073096) ^ Pick(x, 2, 0xEE0E612C) ^ Pick(x, 4, 0x076DC419) ^ Pick(x, 8, 0x0EDB8832)
  }

  function HighPart(x: bv32): bv32 {
    Pick(x, 16, 0x1DB71064) ^ Pick(x, 32, 0x3B6E20C8) ^ Pick(x, 64, 0x76DC4190) ^ Pick(x, 128, 0xEDB88320)
  }

  lemma Row0Is(l: bv4)
    ensures Row0(l) == 0x00000000 ^ LowPart(l as bv32)
  {
  }

  lemma Row1Is(l: bv4)
    ensures Row1(l) == 0x1DB71064 ^ LowPart(l as bv32)
  {
  }

  lemma Row2Is(l: bv4)
    ensures Row2(l) == 0x3B6E20C8 ^ LowPart(l as bv32)
  {
  }

  lemma Row3Is(l: bv4)
    ensures Row3(l) == 0x26D930AC ^ LowPart(l as bv32)
  {
  }

  lemma Row4Is(l: bv4)
    ensures Row4(l) == 0x76DC4190 ^ LowPart(l as bv32)
  {
  }

  lemma Row5Is(l: bv4)
    ensures Row5(l) == 0x6B6B51F4 ^ LowPart(l as bv32)
  {
  }

  lemma Row6Is(l: bv4)
    ensures Row6(l) == 0x4DB26158 ^ LowPart(l as bv32)
  {
  }

  lemma Row7Is(l: bv4)
    ensures Row7(l) == 0x5005713C ^ LowPart(l as bv32)
  {
  }

  lemma Row8Is(l: bv4)
    ensures Row8(l) == 0xEDB88320 ^ LowPart(l as bv32)
  {
  }

  lemma Row9Is(l: bv4)
    ensures Row9(l) == 0xF00F9344 ^ LowPart(l as bv32)
  {
  }

  lemma Row10Is(l: bv4)
    ensures Row10(l) == 0xD6D6A3E8 ^ LowPart(l as bv32)
  {
  }

  lemma Row11Is(l: bv4)
    ensures Row11(l) == 0xCB61B38C ^ LowPart(l as bv32)
  {
  }

  lemma Row12Is(l: bv4)
    ensures Row12(l) == 0x9B64C2B0 ^ LowPart(l as bv32)
  {
  }

  lemma Row13Is(l: bv4)
    ensures Row13(l) == 0x86D3D2D4 ^ LowPart(l as bv32)
  {
  }

  lemma Row14Is(l: bv4)
    ensures Row14(l) == 0xA00AE278 ^ LowPart(l as bv32)
  {
  }

  lemma Row15Is(l: bv4)
    ensures Row15(l) == 0xBDBDF21C ^ LowPart(l as bv32)
  {
  }

  lemma FirstRows(i: bv8)
    requires 0 <= i < 64
    ensures Literal(i) == Xor(HighPart(i as bv32), LowPart(i as bv32))
  {
    var l := (i & 15) as bv4;
    match (i >> 4) as bv4
    case 0 => Row0Is(l);
    case 1 => Row1Is(l);
    case 2 => Row2Is(l);
    case _ => Row3Is(l);
  }

  lemma SecondRows(i: bv8)
    requires 64 <= i < 128
    ensures Literal(i) == Xor(HighPart(i as bv32), LowPart(i as bv32))
  {
    var l := (i & 15) as bv4;
    match (i >> 4) as bv4
    case 4 => Row4Is(l);
    case 5 => Row5Is(l);
    case 6 => Row6Is(l);
    case _ => Row7Is(l);
  }

  lemma ThirdRows(i: bv8)
    requires 128 <= i < 192
    ensures Literal(i) == Xor(HighPart(i as bv32), LowPart(i as bv32))
  {
    var l := (i & 15) as bv4;
    match (i >> 4) as bv4
    case 8 => Row8Is(l);
    case 9 => Row9Is(l);
    case 10 => Row10Is(l);
    case _ => Row11Is(l);
  }

  lemma FourthRows(i: bv8)
    requires 192 <= i
    ensures Literal(i) == Xor(HighPart(i as bv32), LowPart(i as bv32))
  {
    var l := (i & 15) as bv4;
    match (i >> 4) as bv4
    case 12 => Row12Is(l);
    case 13 => Row13Is(l);
    case 14 => Row14Is(l);
    case _ => Row15Is(l);
  }

  /** Every entry is the sum of the entries of the bits of its index. */
  lemma LiteralParts(i: bv8)
    ensures Literal(i) == Xor(HighPart(i as bv32), LowPart(i as bv32))
  {
    if i < 64 {
      FirstRows(i);
    } else if i < 128 {
      SecondRows(i);
    } else if i < 192 {
      ThirdRows(i);
    } else {
      FourthRows(i);
    }
  }

  lemma ShiftFrom(c0: bv32, c1: bv32, c2: bv32, c3: bv32, c4: bv32, c5: bv32, c6: bv32, c7: bv32, c8: bv32)
    requires ShiftOne(c0) == c1 && ShiftOne(c1) == c2 && ShiftOne(c2) == c3 && ShiftOne(c3) == c4
    requires ShiftOne(c4) == c5 && ShiftOne(c5) == c6 && ShiftOne(c6) == c7 && ShiftOne(c7) == c8
    ensures Shift(c0) == c8
  {
    IterateFour(ShiftOne, c0, c1, c2, c3, c4, 4);
    IterateFour(ShiftOne, c4, c5, c6, c7, c8, 0);
  }

  lemma UnitsShift()
    ensures Shift(0) == 0x00000000
    ensures Shift(1) == 0x77073096
    ensures Shift(2) == 0xEE0E612C
    ensures Shift(4) == 0x076DC419
    ensures Shift(8) == 0x0EDB8832
    ensures Shift(16) == 0x1DB71064
    ensures Shift(32) == 0x3B6E20C8
    ensures Shift(64) == 0x76DC4190
    ensures Shift(128) == 0xEDB88320
  {
    ShiftFrom(0, 0, 0, 0, 0, 0, 0, 0, 0);
    ShiftFrom(1, 0xedb88320, 0x76dc4190, 0x3b6e20c8, 0x1db71064, 0xedb8832, 0x76dc419, 0xee0e612c, 0x77073096);
    ShiftFrom(2, 1, 0xedb88320, 0x76dc4190, 0x3b6e20c8, 0x1db71064, 0xedb8832, 0x76dc419, 0xee0e612c);
    ShiftFrom(4, 2, 1, 0xedb88320, 0x76dc4190, 0x3b6e20c8, 0x1db71064, 0xedb8832, 0x76dc419);
    ShiftFrom(8, 4, 2, 1, 0xedb88320, 0x76dc4190, 0x3b6e20c8, 0x1db71064, 0xedb8832);
    ShiftFrom(0x10, 8, 4, 2, 1, 0xedb88320, 0x76dc4190, 0x3b6e20c8, 0x1db71064);
    ShiftFrom(0x20, 0x10, 8, 4, 2, 1, 0xedb88320, 0x76dc4190, 0x3b6e20c8);
    ShiftFrom(0x40, 0x20, 0x10, 8, 4, 2, 1, 0xedb88320, 0x76dc4190);
    ShiftFrom(0x80, 0x40, 0x20, 0x10, 8, 4, 2, 1, 0xedb88320);
  }

  lemma MaskOrNothing(x: bv32)
    ensures (x & 1 == 0 || x & 1 == 1) && (x & 2 == 0 || x & 2 == 2) && (x & 4 == 0 || x & 4 == 4)
    ensures (x & 8 == 0 || x & 8 == 8) && (x & 16 == 0 || x & 16 == 16) && (x & 32 == 0 || x & 32 == 32)
    ensures (x & 64 == 0 || x & 64 == 64) && (x & 128 == 0 || x & 128 == 128)
  {
  }

  lemma PickShift(x: bv32, m: bv32, v: bv32)
    requires Shift(0) == 0 && Shift(m) == v && (x & m == 0 || x & m == m)
    ensures Shift(x & m) == Pick(x, m, v)
  {
  }

  lemma FourBits(x: bv32)
    requires x < 256
    ensures Xor(Xor(Xor(x & 1, x & 2), x & 4), x & 8) == x & 15
    ensures Xor(Xor(Xor(x & 16, x & 32), x & 64), x & 128) == x & 0xF0
    ensures Xor(x & 0xF0, x & 15) == x
  {
  }

  lemma LinearFour(a: bv32, b: bv32, c: bv32, d: bv32)
    ensures Shift(Xor(Xor(Xor(a, b), c), d)) == Xor(Xor(Xor(Shift(a), Shift(b)), Shift(c)), Shift(d))
  {
    ShiftLinear(Xor(Xor(a, b), c), d);
    ShiftLinear(Xor(a, b), c);
    ShiftLinear(a, b);
  }

  lemma LowShift(x: bv32)
    requires x < 256
    ensures Shift(x & 15) == LowPart(x)
  {
    UnitsShift();
    MaskOrNothing(x);
    FourBits(x);
    LinearFour(x & 1, x & 2, x & 4, x & 8);
    PickShift(x, 1, 0x77073096);
    PickShift(x, 2, 0xEE0E612C);
    PickShift(x, 4, 0x076DC419);
    PickShift(x, 8, 0x0EDB8832);
  }

  lemma HighShift(x: bv32)
    requires x < 256
    ensures Shift(x & 0xF0) == HighPart(x)
  {
    UnitsShift();
    MaskOrNothing(x);
    FourBits(x);
    LinearFour(x & 16, x & 32, x & 64, x & 128);
    PickShift(x, 16, 0x1DB71064);
    PickShift(x, 32, 0x3B6E20C8);
    PickShift(x, 64, 0x76DC4190);
    PickShift(x, 128, 0xEDB88320);
  }

  lemma ByteShift(x: bv32)
    requires x < 256
    ensures Shift(x) == Xor(HighPart(x), LowPart(x))
  {
    FourBits(x);
    LowShift(x);
    HighShift(x);
    ShiftLinear(x & 0xF0, x & 15);
  }

  lemma ByteFits(i: bv8)
    ensures (i as bv32) < 256
  {
  }

  /** The literals are the table that the other program generates. */
  lemma LiteralIsTable(i: bv8)
    ensures Literal(i) == Shift(i as bv32)
  {
    ByteFits(i);
    LiteralParts(i);
    ByteShift(i as bv32);
  }

  lemma IndexByte(crc: bv32, b: bv8)
    ensures (b ^ ((crc & 0xFF) as bv8)) as bv32 == (crc ^ (b as bv32)) & 0xFF
  {
  }

  /** The checksum with the literal table. */
  method ComputeLiteral(data: seq<bv8>) returns (crc: bv32)
    ensures crc == Crc32(data)
  {
    crc := 0xFFFFFFFF;
    for i := 0 to |data|
      invariant crc == Register(data[..i])
    {
      crc := LookUpLiteral(data, i, crc);
    }
    assert data[..|data|] == data;
    crc := crc ^ 0xFFFFFFFF;
  }

  method LookUpLiteral(data: seq<bv8>, i: nat, crc: bv32) returns (next: bv32)
    requires i < |data| && crc == Register(data[..i])
    ensures next == Register(data[..i + 1])
  {
    var index := data[i] ^ ((crc & 0xFF) as bv8);
    next := Xor(crc >> 8, Literal(index));
    IndexByte(crc, data[i]);
    LiteralIsTable(index);
    TableStep(crc, data[i]);
    XorCommutes(crc >> 8, Literal(index));
    RegisterStep(data, i);
  }

  lemma XorCommutes(a: bv32, b: bv32)
    ensures Xor(a, b) == Xor(b, a)
  {
  }

  // ---------------------------------------------------------------- a known value

  lemma KnownStep(crc: bv32, b: bv8, index: bv32, entry: bv32, next: bv32)
    requires (crc ^ (b as bv32)) & 0xFF == index && Shift(index) == entry && Xor(entry, crc >> 8) == next
    ensures NextByte(crc, b) == next
  {
    TableStep(crc, b);
  }

  lemma KnownEntry(i: bv8, index: bv32, entry: bv32)
    requires i as bv32 == index && Literal(i) == entry
    ensures Shift(index) == entry
  {
    LiteralIsTable(i);
  }

  /** The checksum of the letters IEND, which every PNG file ends in. */
  lemma ChecksumOfEnd(letters: seq<bv8>)
    requires letters == [0x49, 0x45, 0x4E, 0x44]
    ensures Crc32(letters) == 0xAE426082
  {
    KnownEntry(0xB6, 0xB6, 0x220216B9);
    KnownEntry(0x03, 0x03, 0x990951BA);
    KnownEntry(0x1D, 0x1D, 0x63066CD9);
    KnownEntry(0x31, 0x31, 0x51DE003A);
    KnownStep(0xFFFFFFFF, 0x49, 0xB6, 0x220216B9, 0x22FDE946);
    KnownStep(0x22FDE946, 0x45, 0x03, 0x990951BA, 0x992BAC53);
    KnownStep(0x992BAC53, 0x4E, 0x1D, 0x63066CD9, 0x639F4775);
    KnownStep(0x639F4775, 0x44, 0x31, 0x51DE003A, 0x51BD9F7D);
    assert letters[..0] == [];
    RegisterStep(letters, 0);
    RegisterStep(letters, 1);
    RegisterStep(letters, 2);
    RegisterStep(letters, 3);
    assert letters[..4] == letters;
  }
}
