/** A decoder for the zlib format (RFC 1950) over DEFLATE (RFC 1951) with stored blocks and
    fixed Huffman codes. Blocks with dynamic codes are rejected. */
module Inflate {
  import opened Options
  import opened Bits
  import Adler

  datatype Read<+T> = Fail | Got(value: T, rest: seq<bool>)

  /** n bits as a number, lowest bit first (section 3.1.1 of RFC 1951). */
  function ReadBits(bits: seq<bool>, n: nat): (r: Read<nat>)
    ensures r.Got? ==> |r.rest| == |bits| - n
  {
    if |bits| < n then Fail else Got(LsbValue(bits[..n]), bits[n..])
  }

  /** A code of n bits, highest bit first. */
  function ReadCode(bits: seq<bool>, n: nat): (r: Read<nat>)
    ensures r.Got? ==> |r.rest| == |bits| - n
  {
    if |bits| < n then Fail else Got(MsbValue(bits[..n]), bits[n..])
  }

  /** The fixed literal and length codes (section 3.2.6 of RFC 1951): 7 bits up to 0010111,
      8 bits from 00110000 to 11000111, 9 bits from 110010000 on. */
  function DecodeSymbol(bits: seq<bool>): (r: Read<nat>)
    ensures r.Got? ==> |r.rest| < |bits|
  {
    var seven := ReadCode(bits, 7);
    var eight := ReadCode(bits, 8);
    var nine := ReadCode(bits, 9);
    if seven.Fail? then Fail
    else if seven.value <= 23 then Got(256 + seven.value, seven.rest)
    else if eight.Fail? then Fail
    else if 48 <= eight.value <= 191 then Got(eight.value - 48, eight.rest)
    else if 192 <= eight.value <= 199 then Got(280 + eight.value - 192, eight.rest)
    else if nine.Fail? || nine.value < 400 then Fail
    else Got(144 + nine.value - 400, nine.rest)
  }

  // Length and distance codes (section 3.2.5 of RFC 1951): each code starts where the
  // range of the one before ends.

  function LengthExtra(s: nat): nat {
    if s < 265 || s >= 285 then 0 else (s - 261) / 4
  }

  function LengthBase(s: nat): nat {
    if s <= 257 then 3 else if s == 285 then 258 else LengthBase(s - 1) + Pow2(LengthExtra(s - 1))
  }

  function DistanceExtra(c: nat): nat {
    if c < 2 then 0 else (c - 2) / 2
  }

  function DistanceBase(c: nat): nat {
    if c == 0 then 1 else DistanceBase(c - 1) + Pow2(DistanceExtra(c - 1))
  }

  function ReadLength(s: nat, bits: seq<bool>): (r: Read<nat>)
    ensures r.Got? ==> |r.rest| <= |bits|
  {
    match ReadBits(bits, LengthExtra(s))
    case Fail => Fail
    case Got(extra, rest) => Got(LengthBase(s) + extra, rest)
  }

  function ReadDistance(bits: seq<bool>): (r: Read<nat>)
    ensures r.Got? ==> |r.rest| < |bits|
  {
    match ReadCode(bits, 5)
    case Fail => Fail
    case Got(c, after) =>
      if c >= 30 then Fail
      else
        match ReadBits(after, DistanceExtra(c))
        case Fail => Fail
        case Got(extra, rest) => Got(DistanceBase(c) + extra, rest)
  }

  /** Appends length bytes copied one at a time from the given distance back, so that a copy
      may read what it has written. */
  function CopyBack(out: seq<Byte>, distance: nat, length: nat): (r: seq<Byte>)
    requires 0 < distance <= |out|
    ensures |r| == |out| + length
    decreases length
  {
    if length == 0 then out else CopyBack(out + [out[|out| - distance]], distance, length - 1)
  }

  /** The symbols of a block up to its end-of-block code. */
  function Codes(bits: seq<bool>, out: seq<Byte>): (r: Read<seq<Byte>>)
    ensures r.Got? ==> |r.rest| < |bits|
    decreases |bits|
  {
    match DecodeSymbol(bits)
    case Fail => Fail
    case Got(s, rest) =>
      if s < 256 then Codes(rest, out + [s])
      else if s == 256 then Got(out, rest)
      else if s > 285 then Fail
      else
        match ReadLength(s, rest)
        case Fail => Fail
        case Got(length, rest') =>
          match ReadDistance(rest')
          case Fail => Fail
          case Got(distance, rest'') =>
            if 0 < distance <= |out| then Codes(rest'', CopyBack(out, distance, length)) else Fail
  }

  function BytesOf(bits: seq<bool>): seq<Byte> {
    if |bits| < 8 then [] else [ByteOf(bits[..8])] + BytesOf(bits[8..])
  }

  function ByteOf(bits: seq<bool>): (b: Byte)
    requires |bits| == 8
  {
    LsbValueBound(bits);
    ByteBound(bits);
    LsbValue(bits)
  }

  lemma ByteBound(bits: seq<bool>)
    requires |bits| == 8
    ensures Pow2(|bits|) == 256
  {
    PowFour(4);
    PowFour(0);
  }

  /** A stored block after its header bits (section 3.2.4 of RFC 1951). The stream is a whole
      number of bytes, so what is left of the current byte is |bits| % 8 bits. */
  function Stored(bits: seq<bool>, out: seq<Byte>): (r: Read<seq<Byte>>)
    ensures r.Got? ==> |r.rest| <= |bits|
  {
    var whole := bits[|bits| % 8..];
    if |whole| < 32 then Fail
    else
      var len, complement := LsbValue(whole[..16]), LsbValue(whole[16..32]);
      if len + complement != 65535 || |whole| < 32 + 8 * len then Fail
      else Got(out + BytesOf(whole[32..32 + 8 * len]), whole[32 + 8 * len..])
  }

  function Blocks(bits: seq<bool>, out: seq<Byte>): (r: Read<seq<Byte>>)
    ensures r.Got? ==> |r.rest| < |bits|
    decreases |bits|
  {
    if |bits| < 3 then Fail
    else
      var block :=
        if !bits[1] && !bits[2] then Stored(bits[3..], out)
        else if bits[1] && !bits[2] then Codes(bits[3..], out)
        else Fail;
      if block.Fail? || bits[0] then block
      else Blocks(block.rest, block.value)
  }

  /** CMF: deflate with a window of at most 32K; FLG: no preset dictionary, check bits right. */
  predicate HeaderOk(cmf: int, flg: int) {
    cmf % 16 == 8 && cmf / 16 <= 7 && (256 * cmf + flg) % 31 == 0 && flg / 32 % 2 == 0
  }

  /** The data, if the checksum that follows it at the next byte boundary is right. */
  function Checked(blocks: Read<seq<Byte>>): Option<seq<Byte>> {
    match blocks
    case Fail => None
    case Got(data, rest) =>
      if BytesOf(rest[|rest| % 8..]) == Adler.BigEndian(data) then Some(data) else None
  }

  /** The zlib wrapper (section 2.2 of RFC 1950): two header bytes, the blocks, and the
      checksum of the data, highest byte first. */
  function Decode(bytes: seq<Byte>): Option<seq<Byte>> {
    if |bytes| < 2 || !HeaderOk(bytes[0], bytes[1]) then None
    else Checked(Blocks(BytesBits(bytes[2..]), []))
  }
}
