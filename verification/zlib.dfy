/** The zlib stream: closing the fixed block, the stored fallback, and the round trip. */
module Zlib {
  import opened Options
  import opened Bits
  import opened FixedHuffman
  import opened Seqs
  import opened Deflate
  import opened Inflate
  import Adler

  // ---------------------------------------------------------------- bytes and bits

  lemma ByteRoundTrip(b: Byte)
    ensures ByteOf(Lsb(b, 8)) == b
  {
    ByteBound(Lsb(b, 8));
    LsbRoundTrip(b, 8);
  }

  lemma BytesBitsFirst(s: seq<Byte>)
    requires s != []
    ensures BytesBits(s) == Lsb(s[0], 8) + BytesBits(s[1..])
  {
    assert s == [s[0]] + s[1..];
    BytesBitsConcat([s[0]], s[1..]);
    BytesBitsOne(s[0]);
  }

  lemma {:induction false} BytesRoundTrip(s: seq<Byte>)
    ensures BytesOf(BytesBits(s)) == s
  {
    if s != [] {
      BytesBitsFirst(s);
      ByteRoundTrip(s[0]);
      BytesRoundTrip(s[1..]);
      assert BytesBits(s)[..8] == Lsb(s[0], 8) && BytesBits(s)[8..] == BytesBits(s[1..]);
    }
  }

  lemma PairBits(a: Byte, b: Byte)
    ensures BytesBits([a, b]) == Lsb(a, 8) + Lsb(b, 8)
  {
    assert [a, b] == [a] + [b];
    BytesBitsConcat([a], [b]);
    BytesBitsOne(a);
    BytesBitsOne(b);
  }

  lemma PairValue(v: nat, a: nat, b: nat, n: nat)
    requires v == a + 256 * b && a < 256 && v < Pow2(8 + n)
    ensures LsbValue(Lsb(a, 8) + Lsb(b, n)) == v
  {
    ByteParts(v, a, b);
    LsbByte(v, n);
    LsbRoundTrip(v, 8 + n);
  }

  lemma TwoBytes(a: Byte, b: Byte)
    ensures LsbValue(BytesBits([a, b])) == a + 256 * b
  {
    PairBits(a, b);
    WordPower();
    PairValue(a + 256 * b, a, b, 8);
  }

  // ---------------------------------------------------------------- the fixed block

  /** The bits of a finished fixed block with its header, padded to a byte. */
  function FixedBits(tokens: seq<Token>, pad: seq<bool>): seq<bool>
    requires Playable(tokens)
  {
    [true, true, false] + (TokensBits(tokens) + SymbolBits(256) + pad)
  }

  lemma FixedDecodes(tokens: seq<Token>, pad: seq<bool>, body: seq<Byte>, sum: seq<Byte>)
    requires Playable(tokens) && |pad| < 8 && |sum| == 4
    requires BytesBits(body) == FixedBits(tokens, pad)
    ensures Blocks(BytesBits(body + sum), []) == Got(Expand(tokens), pad + BytesBits(sum))
  {
    BytesBitsConcat(body, sum);
    var bits := BytesBits(body + sum);
    BlockRoundTrip(tokens, pad + BytesBits(sum));
    After(TokensBits(tokens) + SymbolBits(256), pad, BytesBits(sum), bits);
  }

  lemma After(x: seq<bool>, pad: seq<bool>, sum: seq<bool>, bits: seq<bool>)
    requires bits == [true, true, false] + (x + pad) + sum
    ensures |bits| >= 3 && bits[0] && bits[1] && !bits[2] && bits[3..] == x + (pad + sum)
  {
  }

  lemma SumRead(pad: seq<bool>, sum: seq<Byte>)
    requires |pad| < 8 && |sum| == 4
    ensures var rest := pad + BytesBits(sum); BytesOf(rest[|rest| % 8..]) == sum
  {
    BytesRoundTrip(sum);
    var rest := pad + BytesBits(sum);
    assert |rest| % 8 == |pad|;
    assert rest[|pad|..] == BytesBits(sum);
  }

  lemma HeaderPasses(body: seq<Byte>)
    ensures Decode(Header() + body) == Checked(Blocks(BytesBits(body), []))
  {
    var bytes := Header() + body;
    assert bytes[0] == 0x78 && bytes[1] == 0x5e && bytes[2..] == body;
    assert HeaderOk(0x78, 0x5e);
  }

  /** From the blocks to the whole stream. */
  lemma StreamDecodes(body: seq<Byte>, data: seq<Byte>, pad: seq<bool>)
    requires |pad| < 8
    requires Blocks(BytesBits(body), []) == Got(data, pad + BytesBits(Adler.BigEndian(data)))
    ensures Decode(Header() + body) == Some(data)
  {
    SumRead(pad, Adler.BigEndian(data));
    HeaderPasses(body);
  }

  /** Ends the block and fills the last byte with zero bits. */
  method Close(w: Writer, ghost tokens: seq<Token>) returns (out: seq<Byte>, ghost pad: seq<bool>)
    requires Holds(w, tokens)
    ensures |pad| < 8 && Header() <= out
    ensures BytesBits(out[2..]) == FixedBits(tokens, pad)
  {
    var r := AddSymbol(w, 256);
    ghost var closed := r;
    pad := [];
    assert r.Stream() + [] == r.Stream();
    while r.count != 0
      invariant r.Valid() && Header() <= r.out
      invariant |pad| < 8 && (r.count == 0 || r.count == closed.count + |pad|)
      invariant r.Stream() == closed.Stream() + pad
      decreases if r.count == 0 then 0 else 8 - r.count
    {
      ghost var before := r;
      r := Add(r, 0, 1);
      assert Lsb(0, 1) == [false];
      Regroup(closed.Stream(), pad, [false]);
      NextCount(before, r);
      pad := pad + [false];
    }
    out := r.out;
    assert r.Stream() == BytesBits(out) + [];
    Headed(out, tokens, pad);
  }

  lemma NextCount(w: Writer, r: Writer)
    requires w.Valid() && r.Valid() && |r.Stream()| == |w.Stream()| + 1
    ensures r.count == if w.count == 7 then 0 else w.count + 1
  {
    assert 8 * |r.out| + r.count == 8 * |w.out| + w.count + 1;
  }

  lemma Headed(out: seq<Byte>, tokens: seq<Token>, pad: seq<bool>)
    requires Header() <= out && Playable(tokens)
    requires BytesBits(out) == BytesBits(Header()) + ([true, true, false] + TokensBits(tokens)) + SymbolBits(256) + pad
    ensures BytesBits(out[2..]) == FixedBits(tokens, pad)
  {
    assert out == Header() + out[2..];
    BytesBitsConcat(Header(), out[2..]);
    Cancel(BytesBits(Header()), BytesBits(out[2..]), [true, true, false], TokensBits(tokens), SymbolBits(256), pad);
  }

  lemma Cancel(h: seq<bool>, rest: seq<bool>, x: seq<bool>, y: seq<bool>, z: seq<bool>, pad: seq<bool>)
    requires h + rest == h + (x + y) + z + pad
    ensures rest == x + (y + z + pad)
  {
    assert h + (x + y) + z + pad == h + (x + (y + z + pad));
    assert (h + rest)[|h|..] == rest;
    assert (h + (x + (y + z + pad)))[|h|..] == x + (y + z + pad);
  }

  // ---------------------------------------------------------------- the stored fallback

  function BlockLen(n: nat): nat {
    if n > 32767 then 32767 else n
  }

  /** The header of a stored block with rest bytes left to store. */
  function StoredHeader(rest: nat): (h: seq<Byte>)
    ensures |h| == 5
  {
    var len := BlockLen(rest);
    [if rest == len then 1 else 0, len % 256, len / 256 % 256, (-1 - len) % 256, (-1 - len) / 256 % 256]
  }

  function StoredBlocks(data: seq<Byte>): seq<Byte>
    decreases |data|
  {
    if data == [] then []
    else
      var len := BlockLen(|data|);
      StoredHeader(|data|) + data[..len] + StoredBlocks(data[len..])
  }

  lemma StoreStep(out: seq<Byte>, data: seq<Byte>, j: nat, len: nat)
    requires j < |data| && len == BlockLen(|data| - j)
    ensures out + StoredBlocks(data[j..]) ==
            out + StoredHeader(|data| - j) + data[j..j + len] + StoredBlocks(data[j + len..])
  {
    var rest := data[j..];
    assert rest[..len] == data[j..j + len] && rest[len..] == data[j + len..];
    RegroupFour(out, StoredHeader(|data| - j), data[j..j + len], StoredBlocks(data[j + len..]));
    Regroup(StoredHeader(|data| - j), data[j..j + len], StoredBlocks(data[j + len..]));
  }

  method Store(data: seq<Byte>) returns (out: seq<Byte>)
    ensures out == StoredBlocks(data)
  {
    out := [];
    var j := 0;
    assert data[0..] == data && [] + StoredBlocks(data) == StoredBlocks(data);
    while j < |data|
      invariant j <= |data| && out + StoredBlocks(data[j..]) == StoredBlocks(data)
    {
      var len := |data| - j;
      if len > 32767 {
        len := 32767;
      }
      StoreStep(out, data, j, len);
      out := out + [if |data| - j == len then 1 else 0, len % 256, len / 256 % 256,
                    (-1 - len) % 256, (-1 - len) / 256 % 256];
      out := out + data[j..j + len];
      j := j + len;
    }
    assert data[j..] == [] && out + [] == out;
  }

  lemma Complement(len: nat)
    requires len <= 32767
    ensures (len % 256 + 256 * (len / 256 % 256)) == len
    ensures len + ((-1 - len) % 256 + 256 * ((-1 - len) / 256 % 256)) == 65535
  {
    var q, r := len / 256, len % 256;
    assert (-1 - len) % 256 == 255 - r && (-1 - len) / 256 == -1 - q;
  }

  lemma FourParts<T>(whole: seq<T>, a: seq<T>, c: seq<T>, d: seq<T>, rest: seq<T>)
    requires whole == a + c + d + rest && |a| == 16 && |c| == 16
    ensures |whole| >= 32 + |d|
    ensures whole[..16] == a && whole[16..32] == c && whole[32..32 + |d|] == d && whole[32 + |d|..] == rest
  {
  }

  lemma StoredCore(bits: seq<bool>, a: seq<bool>, c: seq<bool>, d: seq<bool>, rest: seq<bool>, out: seq<Byte>)
    requires bits[|bits| % 8..] == a + c + d + rest && |a| == 16 && |c| == 16
    requires |d| == 8 * LsbValue(a) && LsbValue(a) + LsbValue(c) == 65535
    ensures Stored(bits, out) == Got(out + BytesOf(d), rest)
  {
    FourParts(a + c + d + rest, a, c, d, rest);
  }

  lemma BitsOfFour(x: seq<Byte>, y: seq<Byte>, z: seq<Byte>, w: seq<Byte>)
    ensures BytesBits(x + y + z + w) == BytesBits(x) + BytesBits(y) + BytesBits(z) + BytesBits(w)
  {
    BytesBitsConcat(x + y + z, w);
    BytesBitsConcat(x + y, z);
    BytesBitsConcat(x, y);
  }

  lemma DropSkip(skip: seq<bool>, bytes: seq<bool>)
    requires |skip| == 5 && |bytes| % 8 == 0
    ensures var bits := skip + bytes; bits[|bits| % 8..] == bytes
  {
  }

  /** A stored block with two bytes of length and two of its complement is read back. */
  lemma StoredRead(bits: seq<bool>, a: seq<Byte>, c: seq<Byte>, data: seq<Byte>, rest: seq<Byte>, out: seq<Byte>)
    requires |a| == 2 && |c| == 2 && bits[|bits| % 8..] == BytesBits(a + c + data + rest)
    requires LsbValue(BytesBits(a)) == |data| && |data| + LsbValue(BytesBits(c)) == 65535
    ensures Stored(bits, out) == Got(out + data, BytesBits(rest))
  {
    BitsOfFour(a, c, data, rest);
    BytesRoundTrip(data);
    StoredCore(bits, BytesBits(a), BytesBits(c), BytesBits(data), BytesBits(rest), out);
  }

  lemma LengthBytes(len: nat)
    requires len <= 32767
    ensures LsbValue(BytesBits([len % 256, len / 256 % 256])) == len
    ensures len + LsbValue(BytesBits([(-1 - len) % 256, (-1 - len) / 256 % 256])) == 65535
  {
    TwoBytes(len % 256, len / 256 % 256);
    TwoBytes((-1 - len) % 256, (-1 - len) / 256 % 256);
    Complement(len);
  }

  lemma FirstByte(final: bool, bytes: seq<Byte>)
    ensures var bits := BytesBits([if final then 1 else 0] + bytes);
            && |bits| >= 8 && bits[0] == final && !bits[1] && !bits[2]
            && bits[3..] == [false, false, false, false, false] + BytesBits(bytes)
  {
    var b: Byte := if final then 1 else 0;
    BytesBitsConcat([b], bytes);
    BytesBitsOne(b);
    FlagBits(final, b, 7);
    FlagThenZeros(final, BytesBits(bytes), BytesBits([b] + bytes));
  }

  lemma FlagThenZeros(final: bool, rest: seq<bool>, bits: seq<bool>)
    requires bits == [final] + Zeros(7) + rest
    ensures |bits| >= 8 && bits[0] == final && !bits[1] && !bits[2]
    ensures bits[3..] == [false, false, false, false, false] + rest
  {
    var five := [false, false, false, false, false];
    assert Zeros(7) == [false, false] + five;
    assert bits == [final, false, false] + (five + rest);
  }

  lemma FlagBits(final: bool, b: Byte, n: nat)
    requires b == if final then 1 else 0
    ensures Lsb(b, n + 1) == [final] + Zeros(n)
  {
    ZeroLsb(n);
    assert Lsb(b, n + 1) == [b % 2 == 1] + Lsb(b / 2, n);
  }

  lemma {:induction false} ZeroLsb(n: nat)
    ensures Lsb(0, n) == Zeros(n)
  {
    if n > 0 {
      ZeroLsb(n - 1);
      assert Zeros(n) == [false] + Zeros(n - 1);
    }
  }

  lemma WholeBytes(n: nat)
    ensures 8 * n % 8 == 0
  {
  }

  /** What follows the header bits of a stored block, from the next byte on. */
  lemma AfterHeader(final: bool, bytes: seq<Byte>)
    ensures var bits := BytesBits([if final then 1 else 0] + bytes);
            && |bits| >= 3 && bits[0] == final && !bits[1] && !bits[2]
            && bits[3..][|bits[3..]| % 8..] == BytesBits(bytes)
  {
    FirstByte(final, bytes);
    WholeBytes(|bytes|);
    DropSkip([false, false, false, false, false], BytesBits(bytes));
  }

  lemma HeaderSplits(data: seq<Byte>, n: nat, tail: seq<Byte>)
    requires 0 < n == BlockLen(|data|)
    ensures StoredHeader(|data|) + data[..n] + tail ==
            [if n == |data| then 1 else 0] +
            ([n % 256, n / 256 % 256] + [(-1 - n) % 256, (-1 - n) / 256 % 256] + data[..n] + tail)
  {
  }

  /** One stored block at the front of the bits. */
  lemma StoredBlockRead(data: seq<Byte>, n: nat, tail: seq<Byte>, out: seq<Byte>)
    requires 0 < n == BlockLen(|data|)
    ensures var bits := BytesBits(StoredHeader(|data|) + data[..n] + tail);
            && |bits| >= 3 && bits[0] == (n == |data|) && !bits[1] && !bits[2]
            && Stored(bits[3..], out) == Got(out + data[..n], BytesBits(tail))
  {
    var a: seq<Byte> := [n % 256, n / 256 % 256];
    var c: seq<Byte> := [(-1 - n) % 256, (-1 - n) / 256 % 256];
    HeaderSplits(data, n, tail);
    LengthBytes(n);
    AfterHeader(n == |data|, a + c + data[..n] + tail);
    StoredRead(BytesBits(StoredHeader(|data|) + data[..n] + tail)[3..], a, c, data[..n], tail, out);
  }

  lemma BlocksLast(bits: seq<bool>, out: seq<Byte>, data: seq<Byte>, rest: seq<bool>)
    requires |bits| >= 3 && bits[0] && !bits[1] && !bits[2] && Stored(bits[3..], out) == Got(data, rest)
    ensures Blocks(bits, out) == Got(data, rest)
  {
  }

  lemma BlocksNext(bits: seq<bool>, out: seq<Byte>, data: seq<Byte>, rest: seq<bool>)
    requires |bits| >= 3 && !bits[0] && !bits[1] && !bits[2] && Stored(bits[3..], out) == Got(data, rest)
    ensures Blocks(bits, out) == Blocks(rest, data)
  {
  }

  lemma StoredUnfold(data: seq<Byte>, tail: seq<Byte>, n: nat)
    requires 0 < n == BlockLen(|data|)
    ensures StoredBlocks(data) + tail == StoredHeader(|data|) + data[..n] + (StoredBlocks(data[n..]) + tail)
  {
    Regroup(StoredHeader(|data|) + data[..n], StoredBlocks(data[n..]), tail);
  }

  lemma OneStored(data: seq<Byte>, tail: seq<Byte>, out: seq<Byte>, n: nat)
    requires 0 < n == BlockLen(|data|)
    ensures var bits := BytesBits(StoredHeader(|data|) + data[..n] + tail);
            Blocks(bits, out) == if n == |data| then Got(out + data[..n], BytesBits(tail))
                                 else Blocks(BytesBits(tail), out + data[..n])
  {
    var bits := BytesBits(StoredHeader(|data|) + data[..n] + tail);
    StoredBlockRead(data, n, tail, out);
    if n == |data| {
      BlocksLast(bits, out, out + data[..n], BytesBits(tail));
    } else {
      BlocksNext(bits, out, out + data[..n], BytesBits(tail));
    }
  }

  predicate AsBits(bits: seq<bool>) {
    true
  }

  /** Blocks(bits, out) == r, stated so that a proof can pass it on without opening Blocks. */
  ghost predicate Yields(bits: seq<bool>, out: seq<Byte>, r: Read<seq<Byte>>) {
    forall b {:trigger AsBits(b)} | b == bits :: Blocks(b, out) == r
  }

  lemma YieldsMeans(bits: seq<bool>, out: seq<Byte>, r: Read<seq<Byte>>)
    ensures Yields(bits, out, r) <==> Blocks(bits, out) == r
  {
    assert AsBits(bits);
  }

  lemma LastYields(data: seq<Byte>, tail: seq<Byte>, out: seq<Byte>)
    requires 0 < |data| == BlockLen(|data|)
    ensures Yields(BytesBits(StoredHeader(|data|) + data + tail), out, Got(out + data, BytesBits(tail)))
  {
    assert data[..|data|] == data;
    OneStored(data, tail, out, |data|);
    YieldsMeans(BytesBits(StoredHeader(|data|) + data + tail), out, Got(out + data, BytesBits(tail)));
  }

  lemma NextYields(data: seq<Byte>, tail: seq<Byte>, out: seq<Byte>, n: nat, r: Read<seq<Byte>>)
    requires 0 < n == BlockLen(|data|) < |data|
    requires Yields(BytesBits(tail), out + data[..n], r)
    ensures Yields(BytesBits(StoredHeader(|data|) + data[..n] + tail), out, r)
  {
    OneStored(data, tail, out, n);
    YieldsMeans(BytesBits(tail), out + data[..n], r);
    YieldsMeans(BytesBits(StoredHeader(|data|) + data[..n] + tail), out, r);
  }

  /** The stored blocks decode to the data, whatever bytes follow. */
  lemma {:induction false} StoredDecodes(data: seq<Byte>, tail: seq<Byte>, out: seq<Byte>)
    requires data != []
    ensures Yields(BytesBits(StoredBlocks(data) + tail), out, Got(out + data, BytesBits(tail)))
    decreases |data|
  {
    var n := BlockLen(|data|);
    StoredUnfold(data, tail, n);
    if n == |data| {
      assert data[..n] == data && StoredBlocks(data[n..]) + tail == tail;
      LastYields(data, tail, out);
    } else {
      StoredDecodes(data[n..], tail, out + data[..n]);
      assert out + data[..n] + data[n..] == out + data;
      NextYields(data, StoredBlocks(data[n..]) + tail, out, n, Got(out + data, BytesBits(tail)));
    }
  }

  // ---------------------------------------------------------------- the round trip

  /** With nothing to store, the fallback writes no block at all and nothing can be read back. */
  lemma EmptyFails()
    ensures Decode(Header() + Adler.BigEndian([])) == None
  {
    var sum := Adler.BigEndian([]);
    assert sum == [0, 0, 0, 1];
    HeaderPasses(sum);
    EmptyBits();
    NoBlock(BytesBits(sum));
  }

  lemma EmptyBits()
    ensures var bits := BytesBits([0, 0, 0, 1]); |bits| == 32 && !bits[1] && !bits[2]
  {
    FirstByte(false, [0, 0, 1]);
    assert [0] + [0, 0, 1] == [0, 0, 0, 1];
  }

  lemma NoBlock(bits: seq<bool>)
    requires |bits| == 32 && !bits[1] && !bits[2]
    ensures Blocks(bits, []).Fail?
  {
    assert |bits[3..]| == 29;
    assert Stored(bits[3..], []).Fail?;
  }

  predicate AsStream(bytes: seq<Byte>) {
    true
  }

  /** Decode(bytes) == r, likewise unopened. */
  ghost predicate ReadsBack(bytes: seq<Byte>, r: Option<seq<Byte>>) {
    forall b {:trigger AsStream(b)} | b == bytes :: Decode(b) == r
  }

  lemma ReadsBackMeans(bytes: seq<Byte>, r: Option<seq<Byte>>)
    ensures ReadsBack(bytes, r) <==> Decode(bytes) == r
  {
    assert AsStream(bytes);
  }

  lemma StoredStream(data: seq<Byte>, sum: seq<Byte>)
    requires sum == Adler.BigEndian(data) && data != []
    ensures Decode(Header() + (StoredBlocks(data) + sum)) == Some(data)
  {
    StoredDecodes(data, sum, []);
    YieldsMeans(BytesBits(StoredBlocks(data) + sum), [], Got([] + data, BytesBits(sum)));
    assert [] + data == data && [] + BytesBits(sum) == BytesBits(sum);
    StreamDecodes(StoredBlocks(data) + sum, data, []);
  }

  lemma StoredRoundTrip(data: seq<Byte>, sum: seq<Byte>)
    requires sum == Adler.BigEndian(data)
    ensures ReadsBack(Header() + StoredBlocks(data) + sum, if data == [] then None else Some(data))
  {
    Regroup(Header(), StoredBlocks(data), sum);
    if data == [] {
      assert StoredBlocks(data) + sum == sum;
      EmptyFails();
      ReadsBackMeans(Header() + sum, None);
    } else {
      StoredStream(data, sum);
      ReadsBackMeans(Header() + (StoredBlocks(data) + sum), Some(data));
    }
  }

  lemma FixedRoundTrip(out: seq<Byte>, data: seq<Byte>, tokens: seq<Token>, pad: seq<bool>, sum: seq<Byte>)
    requires Header() <= out && |pad| < 8 && sum == Adler.BigEndian(data) && Describes(tokens, data, |data|)
    requires BytesBits(out[2..]) == FixedBits(tokens, pad)
    ensures ReadsBack(out + sum, Some(data))
  {
    FixedDecodes(tokens, pad, out[2..], sum);
    assert data[..|data|] == data;
    StreamDecodes(out[2..] + sum, data, pad);
    ReadsBackMeans(Header() + (out[2..] + sum), Some(data));
    assert out == Header() + out[2..];
    Regroup(Header(), out[2..], sum);
  }

  /** The header is kept, the rest stored. */
  method FallBack(out: seq<Byte>, data: seq<Byte>) returns (r: seq<Byte>)
    requires Header() <= out
    ensures r == Header() + StoredBlocks(data)
  {
    var stored := Store(data);
    assert out[..2] == Header();
    r := out[..2] + stored;
  }

  method CompressUnopened(data: seq<Byte>, quality: int) returns (out: seq<Byte>)
    ensures ReadsBack(out, if data == [] then None else Some(data)) && [0x78, 0x5e] <= out
  {
    var q := if quality < 5 then 5 else quality;
    var w, tokens := Encode(data, q);
    ghost var pad;
    out, pad := Close(w, tokens);
    var sum := Adler.Compute(data);
    if |out| > |data| + 2 + (|data| + 32766) / 32767 * 5 {
      StoredRoundTrip(data, sum);
      out := FallBack(out, data);
    } else {
      NotEmpty(out, data, tokens, pad);
      FixedRoundTrip(out, data, tokens, pad, sum);
    }
    out := out + sum;
  }

  /** Inflating what the compressor writes gives the data back, on both paths and whatever the
      chains and the lazy matching chose, if and only if there is data. */
  method Compress(data: seq<Byte>, quality: int) returns (out: seq<Byte>)
    ensures Decode(out) == if data == [] then None else Some(data)
    ensures [0x78, 0x5e] <= out
  {
    out := CompressUnopened(data, quality);
    ReadsBackMeans(out, if data == [] then None else Some(data));
  }

  lemma NotEmpty(out: seq<Byte>, data: seq<Byte>, tokens: seq<Token>, pad: seq<bool>)
    requires Header() <= out && Playable(tokens) && BytesBits(out[2..]) == FixedBits(tokens, pad)
    requires |out| <= |data| + 2 + (|data| + 32766) / 32767 * 5
    ensures data != []
  {
  }
}
