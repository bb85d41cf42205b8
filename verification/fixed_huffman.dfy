/** The symbols of a fixed-Huffman block: what the encoder writes and that it reads back. */
module FixedHuffman {
  import opened Bits
  import opened Inflate
  import opened Seqs

  datatype Code = Code(value: nat, length: nat)

  /** The code the encoder writes for literal/length symbol n, highest bit first. */
  function CodeOf(n: nat): Code
    requires n <= 287
  {
    if n <= 143 then Code(0x30 + n, 8)
    else if n <= 255 then Code(0x190 + n - 144, 9)
    else if n <= 279 then Code(n - 256, 7)
    else Code(0xc0 + n - 280, 8)
  }

  function SymbolBits(n: nat): seq<bool>
    requires n <= 287
  {
    Msb(CodeOf(n).value, CodeOf(n).length)
  }

  lemma SmallPowers()
    ensures Pow2(0) == 1 && Pow2(1) == 2 && Pow2(2) == 4 && Pow2(3) == 8 && Pow2(4) == 16 && Pow2(5) == 32
    ensures Pow2(6) == 64 && Pow2(7) == 128 && Pow2(8) == 256 && Pow2(9) == 512
  {
  }

  lemma MorePowers()
    ensures Pow2(10) == 1024 && Pow2(11) == 2048 && Pow2(12) == 4096 && Pow2(13) == 8192
  {
    SmallPowers();
  }

  lemma ReadMsb(v: nat, n: nat, rest: seq<bool>)
    requires v < Pow2(n)
    ensures ReadCode(Msb(v, n) + rest, n) == Got(v, rest)
  {
    MsbRoundTrip(v, n);
    var bits := Msb(v, n) + rest;
    assert bits[..n] == Msb(v, n) && bits[n..] == rest;
  }

  /** Reading fewer bits than the code has gives the top of the code. */
  lemma ReadTop(v: nat, n: nat, rest: seq<bool>)
    requires v < Pow2(n + 1)
    ensures ReadCode(Msb(v, n + 1) + rest, n).Got? && ReadCode(Msb(v, n + 1) + rest, n).value == v / 2
  {
    assert Msb(v, n + 1) + rest == Msb(v / 2, n) + ([v % 2 == 1] + rest);
    ReadMsb(v / 2, n, [v % 2 == 1] + rest);
  }

  lemma ReadTopTwo(v: nat, n: nat, rest: seq<bool>)
    requires v < Pow2(n + 2)
    ensures ReadCode(Msb(v, n + 2) + rest, n).Got? && ReadCode(Msb(v, n + 2) + rest, n).value == v / 4
  {
    assert Msb(v, n + 2) + rest == Msb(v / 2, n + 1) + ([v % 2 == 1] + rest);
    ReadTop(v / 2, n, [v % 2 == 1] + rest);
  }

  lemma ShortCode(v: nat, rest: seq<bool>)
    requires v <= 23
    ensures DecodeSymbol(Msb(v, 7) + rest) == Got(256 + v, rest)
  {
    SmallPowers();
    ReadMsb(v, 7, rest);
  }

  lemma MiddleCode(v: nat, rest: seq<bool>)
    requires 48 <= v <= 199
    ensures DecodeSymbol(Msb(v, 8) + rest) == Got(if v <= 191 then v - 48 else 280 + v - 192, rest)
  {
    SmallPowers();
    ReadTop(v, 7, rest);
    ReadMsb(v, 8, rest);
  }

  lemma LongCode(v: nat, rest: seq<bool>)
    requires 400 <= v <= 511
    ensures DecodeSymbol(Msb(v, 9) + rest) == Got(144 + v - 400, rest)
  {
    SmallPowers();
    ReadTopTwo(v, 7, rest);
    ReadTop(v, 8, rest);
    ReadMsb(v, 9, rest);
  }

  /** The codes form a prefix code: each is read back as its symbol, whatever follows. */
  lemma SymbolRoundTrip(n: nat, rest: seq<bool>)
    requires n <= 287
    ensures DecodeSymbol(SymbolBits(n) + rest) == Got(n, rest)
  {
    var v := CodeOf(n).value;
    if 256 <= n <= 279 {
      ShortCode(v, rest);
    } else if 144 <= n <= 255 {
      LongCode(v, rest);
    } else {
      MiddleCode(v, rest);
    }
  }

  // ---------------------------------------------------------------- the encoder's tables

  function LengthC(j: nat): nat
    requires j < 30
  {
    match j
    case 0 => 3 case 1 => 4 case 2 => 5 case 3 => 6 case 4 => 7 case 5 => 8 case 6 => 9 case 7 => 10
    case 8 => 11 case 9 => 13 case 10 => 15 case 11 => 17 case 12 => 19 case 13 => 23 case 14 => 27 case 15 => 31
    case 16 => 35 case 17 => 43 case 18 => 51 case 19 => 59 case 20 => 67 case 21 => 83 case 22 => 99 case 23 => 115
    case 24 => 131 case 25 => 163 case 26 => 195 case 27 => 227 case 28 => 258 case _ => 259
  }

  function LengthEb(j: nat): nat
    requires j < 29
  {
    match j
    case 8 => 1 case 9 => 1 case 10 => 1 case 11 => 1 case 12 => 2 case 13 => 2 case 14 => 2 case 15 => 2
    case 16 => 3 case 17 => 3 case 18 => 3 case 19 => 3 case 20 => 4 case 21 => 4 case 22 => 4 case 23 => 4
    case 24 => 5 case 25 => 5 case 26 => 5 case 27 => 5 case _ => 0
  }

  function DistC(j: nat): nat
    requires j < 31
  {
    match j
    case 0 => 1 case 1 => 2 case 2 => 3 case 3 => 4 case 4 => 5 case 5 => 7 case 6 => 9 case 7 => 13
    case 8 => 17 case 9 => 25 case 10 => 33 case 11 => 49 case 12 => 65 case 13 => 97 case 14 => 129 case 15 => 193
    case 16 => 257 case 17 => 385 case 18 => 513 case 19 => 769 case 20 => 1025 case 21 => 1537 case 22 => 2049
    case 23 => 3073 case 24 => 4097 case 25 => 6145 case 26 => 8193 case 27 => 12289 case 28 => 16385
    case 29 => 24577 case _ => 32768
  }

  function DistEb(j: nat): nat
    requires j < 30
  {
    match j
    case 0 => 0 case 1 => 0 case 2 => 0 case 3 => 0 case 4 => 1 case 5 => 1 case 6 => 2 case 7 => 2
    case 8 => 3 case 9 => 3 case 10 => 4 case 11 => 4 case 12 => 5 case 13 => 5 case 14 => 6 case 15 => 6
    case 16 => 7 case 17 => 7 case 18 => 8 case 19 => 8 case 20 => 9 case 21 => 9 case 22 => 10
    case 23 => 10 case 24 => 11 case 25 => 11 case 26 => 12 case 27 => 12 case 28 => 13 case _ => 13
  }

  lemma LengthStep(j: nat)
    requires 0 < j < 28
    ensures LengthC(j) == LengthC(j - 1) + Pow2(LengthEb(j - 1))
  {
    SmallPowers();
  }

  lemma LengthExtras(j: nat)
    requires j < 29
    ensures LengthEb(j) == LengthExtra(257 + j)
  {
  }

  lemma DistanceStep(j: nat)
    requires 0 < j < 30
    ensures DistC(j) == DistC(j - 1) + Pow2(DistEb(j - 1))
  {
    SmallPowers();
    MorePowers();
  }

  lemma DistanceExtras(j: nat)
    requires j < 30
    ensures DistEb(j) == DistanceExtra(j)
  {
  }

  /** The tables are those of the format. */
  lemma {:induction false} LengthTable(j: nat)
    requires j < 29
    ensures LengthC(j) == LengthBase(257 + j)
  {
    if 0 < j < 28 {
      LengthTable(j - 1);
      LengthStep(j);
      LengthExtras(j - 1);
    }
  }

  lemma {:induction false} DistanceTable(j: nat)
    requires j < 30
    ensures DistC(j) == DistanceBase(j)
  {
    if j == 0 {
      FirstBase();
    } else {
      DistanceTable(j - 1);
      NextDistance(j, DistanceBase(j - 1));
    }
  }

  lemma FirstBase()
    ensures DistC(0) == DistanceBase(0)
  {
  }

  lemma NextDistance(j: nat, before: nat)
    requires 0 < j < 30 && DistC(j - 1) == before == DistanceBase(j - 1)
    ensures DistC(j) == DistanceBase(j)
  {
    DistanceStep(j);
    DistanceExtras(j - 1);
    NextBase(j, DistC(j), before, DistEb(j - 1));
  }

  lemma NextBase(j: nat, base: nat, before: nat, extra: nat)
    requires j > 0 && before == DistanceBase(j - 1) && extra == DistanceExtra(j - 1) && base == before + Pow2(extra)
    ensures base == DistanceBase(j)
  {
  }

  /** The first j from the given one on whose range holds the length. */
  function LengthIndex(length: nat, j: nat): (r: nat)
    requires j < 29 && LengthC(j) <= length <= 258
    ensures j <= r < 29 && LengthC(r) <= length < LengthC(r + 1)
    decreases 29 - j, length
  {
    if j < 28 && length > LengthC(j + 1) - 1 then LengthIndex(length, j + 1) else j
  }

  function DistanceIndex(distance: nat, j: nat): (r: nat)
    requires j < 30 && DistC(j) <= distance < 32768
    ensures j <= r < 30 && DistC(r) <= distance < DistC(r + 1)
    decreases 30 - j, distance
  {
    if j < 29 && distance > DistC(j + 1) - 1 then DistanceIndex(distance, j + 1) else j
  }

  lemma LengthFits(j: nat, length: nat)
    requires j < 29 && LengthC(j) <= length < LengthC(j + 1)
    ensures length - LengthC(j) < Pow2(LengthEb(j))
  {
    SmallPowers();
  }

  lemma DistanceFits(j: nat, distance: nat)
    requires j < 30 && DistC(j) <= distance < DistC(j + 1)
    ensures distance - DistC(j) < Pow2(DistEb(j))
  {
    SmallPowers();
    MorePowers();
  }

  // ---------------------------------------------------------------- tokens

  /** A literal byte, or a copy of length bytes from distance back. */
  datatype Token = Literal(b: Byte) | Match(length: nat, distance: nat)

  predicate Encodable(t: Token) {
    t.Match? ==> 3 <= t.length <= 258 && 1 <= t.distance < 32768
  }

  /** The extra bits of a length. */
  function LengthTail(length: nat): seq<bool>
    requires 3 <= length <= 258
  {
    var j := LengthIndex(length, 0);
    Lsb(length - LengthC(j), LengthEb(j))
  }

  /** The extra bits of a distance. */
  function DistanceTail(distance: nat): seq<bool>
    requires 1 <= distance < 32768
  {
    var j := DistanceIndex(distance, 0);
    Lsb(distance - DistC(j), DistEb(j))
  }

  function LengthBits(length: nat): seq<bool>
    requires 3 <= length <= 258
  {
    SymbolBits(257 + LengthIndex(length, 0)) + LengthTail(length)
  }

  function DistanceBits(distance: nat): seq<bool>
    requires 1 <= distance < 32768
  {
    Msb(DistanceIndex(distance, 0), 5) + DistanceTail(distance)
  }

  function TokenBits(t: Token): seq<bool>
    requires Encodable(t)
  {
    match t
    case Literal(b) => SymbolBits(b)
    case Match(length, distance) => LengthBits(length) + DistanceBits(distance)
  }

  function Apply(out: seq<Byte>, t: Token): seq<Byte>
    requires t.Match? ==> 0 < t.distance <= |out|
  {
    match t
    case Literal(b) => out + [b]
    case Match(length, distance) => CopyBack(out, distance, length)
  }

  lemma ReadLsb(v: nat, n: nat, rest: seq<bool>)
    requires v < Pow2(n)
    ensures ReadBits(Lsb(v, n) + rest, n) == Got(v, rest)
  {
    LsbRoundTrip(v, n);
    var bits := Lsb(v, n) + rest;
    assert bits[..n] == Lsb(v, n) && bits[n..] == rest;
  }

  lemma LengthRead(bits: seq<bool>, s: nat, extra: nat, rest: seq<bool>)
    requires ReadBits(bits, LengthExtra(s)) == Got(extra, rest)
    ensures ReadLength(s, bits) == Got(LengthBase(s) + extra, rest)
  {
  }

  lemma LengthAt(j: nat, base: nat, n: nat, extra: nat, rest: seq<bool>)
    requires base == LengthBase(257 + j) && n == LengthExtra(257 + j) && extra < Pow2(n)
    ensures ReadLength(257 + j, Lsb(extra, n) + rest) == Got(base + extra, rest)
  {
    ReadLsb(extra, n, rest);
    LengthRead(Lsb(extra, n) + rest, 257 + j, extra, rest);
  }

  lemma LengthRoundTrip(length: nat, rest: seq<bool>)
    requires 3 <= length <= 258
    ensures ReadLength(257 + LengthIndex(length, 0), LengthTail(length) + rest) == Got(length, rest)
  {
    var j := LengthIndex(length, 0);
    LengthTable(j);
    LengthExtras(j);
    LengthFits(j, length);
    LengthAt(j, LengthC(j), LengthEb(j), length - LengthC(j), rest);
  }

  lemma ReadFive(c: nat, rest: seq<bool>)
    requires c < 30
    ensures ReadCode(Msb(c, 5) + rest, 5) == Got(c, rest)
  {
    SmallPowers();
    ReadMsb(c, 5, rest);
  }

  lemma DistanceRead(bits: seq<bool>, c: nat, after: seq<bool>, extra: nat, rest: seq<bool>)
    requires ReadCode(bits, 5) == Got(c, after) && c < 30
    requires ReadBits(after, DistanceExtra(c)) == Got(extra, rest)
    ensures ReadDistance(bits) == Got(DistanceBase(c) + extra, rest)
  {
  }

  lemma DistanceRoundTrip(distance: nat, rest: seq<bool>)
    requires 1 <= distance < 32768
    ensures ReadDistance(DistanceBits(distance) + rest) == Got(distance, rest)
  {
    var j := DistanceIndex(distance, 0);
    DistanceTable(j);
    DistanceExtras(j);
    DistanceFits(j, distance);
    var x := DistanceTail(distance);
    ReadLsb(distance - DistC(j), DistEb(j), rest);
    ReadFive(j, x + rest);
    Regroup(Msb(j, 5), x, rest);
    DistanceRead(DistanceBits(distance) + rest, j, x + rest, distance - DistC(j), rest);
  }

  lemma CodesMatch(code: seq<bool>, x: seq<bool>, d: seq<bool>, rest: seq<bool>, out: seq<Byte>,
                   s: nat, length: nat, distance: nat)
    requires DecodeSymbol(code + (x + (d + rest))) == Got(s, x + (d + rest)) && 257 <= s <= 285
    requires ReadLength(s, x + (d + rest)) == Got(length, d + rest)
    requires ReadDistance(d + rest) == Got(distance, rest) && 0 < distance <= |out|
    ensures Codes(code + x + d + rest, out) == Codes(rest, CopyBack(out, distance, length))
  {
    RegroupFour(code, x, d, rest);
    CodesStep(code + x + d + rest, x + (d + rest), d + rest, rest, out, s, length, distance);
  }

  lemma CodesStep(bits: seq<bool>, r: seq<bool>, r': seq<bool>, r'': seq<bool>, out: seq<Byte>,
                  s: nat, length: nat, distance: nat)
    requires DecodeSymbol(bits) == Got(s, r) && 257 <= s <= 285
    requires ReadLength(s, r) == Got(length, r') && ReadDistance(r') == Got(distance, r'')
    requires 0 < distance <= |out|
    ensures Codes(bits, out) == Codes(r'', CopyBack(out, distance, length))
  {
  }

  lemma CodesLiteral(bits: seq<bool>, out: seq<Byte>, b: Byte, r: seq<bool>)
    requires DecodeSymbol(bits) == Got(b, r)
    ensures Codes(bits, out) == Codes(r, out + [b])
  {
  }

  lemma MatchRoundTrip(length: nat, distance: nat, rest: seq<bool>, out: seq<Byte>)
    requires Encodable(Match(length, distance)) && distance <= |out|
    ensures Codes(LengthBits(length) + DistanceBits(distance) + rest, out) ==
            Codes(rest, CopyBack(out, distance, length))
  {
    var s := 257 + LengthIndex(length, 0);
    MatchParts(length, distance, s, rest);
    CodesMatch(SymbolBits(s), LengthTail(length), DistanceBits(distance), rest, out, s, length, distance);
  }

  lemma MatchParts(length: nat, distance: nat, s: nat, rest: seq<bool>)
    requires Encodable(Match(length, distance)) && s == 257 + LengthIndex(length, 0)
    ensures var after := DistanceBits(distance) + rest;
            && DecodeSymbol(SymbolBits(s) + (LengthTail(length) + after)) == Got(s, LengthTail(length) + after)
            && ReadLength(s, LengthTail(length) + after) == Got(length, after)
            && ReadDistance(after) == Got(distance, rest)
  {
    var after := DistanceBits(distance) + rest;
    SymbolRoundTrip(s, LengthTail(length) + after);
    LengthRoundTrip(length, after);
    DistanceRoundTrip(distance, rest);
  }

  /** A token at the front of the bits is decoded and applied. */
  lemma TokenRoundTrip(t: Token, rest: seq<bool>, out: seq<Byte>)
    requires Encodable(t) && (t.Match? ==> t.distance <= |out|)
    ensures Codes(TokenBits(t) + rest, out) == Codes(rest, Apply(out, t))
  {
    match t
    case Literal(b) =>
      SymbolRoundTrip(b, rest);
      CodesLiteral(TokenBits(t) + rest, out, b, rest);
    case Match(length, distance) =>
      MatchRoundTrip(length, distance, rest, out);
  }

  // ---------------------------------------------------------------- token sequences

  /** The tokens can be applied one after the other, and encoded. */
  predicate Playable(tokens: seq<Token>)
    decreases |tokens|, 0
  {
    tokens != [] ==>
      var t := tokens[|tokens| - 1];
      var front := tokens[..|tokens| - 1];
      Playable(front) && Encodable(t) && (t.Match? ==> t.distance <= |Expand(front)|)
  }

  function Expand(tokens: seq<Token>): seq<Byte>
    requires Playable(tokens)
    decreases |tokens|, 1
  {
    if tokens == [] then []
    else Apply(Expand(tokens[..|tokens| - 1]), tokens[|tokens| - 1])
  }

  function TokensBits(tokens: seq<Token>): seq<bool>
    requires Playable(tokens)
  {
    if tokens == [] then []
    else TokensBits(tokens[..|tokens| - 1]) + TokenBits(tokens[|tokens| - 1])
  }

  lemma Snoc(tokens: seq<Token>, t: Token)
    requires Playable(tokens) && Encodable(t) && (t.Match? ==> t.distance <= |Expand(tokens)|)
    ensures Playable(tokens + [t])
    ensures Expand(tokens + [t]) == Apply(Expand(tokens), t)
    ensures TokensBits(tokens + [t]) == TokensBits(tokens) + TokenBits(t)
  {
    assert (tokens + [t])[..|tokens|] == tokens;
  }

  /** Decoding the bits of a token sequence expands it. */
  lemma {:induction false} TokensRoundTrip(tokens: seq<Token>, rest: seq<bool>)
    requires Playable(tokens)
    ensures Codes(TokensBits(tokens) + rest, []) == Codes(rest, Expand(tokens))
    decreases |tokens|
  {
    if tokens == [] {
      assert [] + rest == rest;
    } else {
      var front, t := tokens[..|tokens| - 1], tokens[|tokens| - 1];
      TokensRoundTrip(front, TokenBits(t) + rest);
      TokenRoundTrip(t, rest, Expand(front));
      assert TokensBits(tokens) + rest == TokensBits(front) + (TokenBits(t) + rest);
    }
  }

  /** A whole fixed block: the tokens, then the end-of-block code. */
  lemma BlockRoundTrip(tokens: seq<Token>, rest: seq<bool>)
    requires Playable(tokens)
    ensures Codes(TokensBits(tokens) + SymbolBits(256) + rest, []) == Got(Expand(tokens), rest)
  {
    assert TokensBits(tokens) + SymbolBits(256) + rest == TokensBits(tokens) + (SymbolBits(256) + rest);
    TokensRoundTrip(tokens, SymbolBits(256) + rest);
    SymbolRoundTrip(256, rest);
  }
}
