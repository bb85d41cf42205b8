/** The zlib compressor: LZ77 over hash chains, fixed Huffman codes, and a stored fallback. */
module Deflate {
  import opened Options
  import opened Mips
  import opened Bits
  import opened FixedHuffman
  import opened Seqs
  import Inflate

  // ---------------------------------------------------------------- the bit buffer

  /** The bytes written so far and the bits not yet written: the low count bits of buf. */
  datatype Writer = Writer(out: seq<Byte>, buf: Word, count: nat) {
    predicate Valid() {
      count < 8 && buf < Pow2(count)
    }

    /** Every bit written. */
    function Stream(): seq<bool> {
      BytesBits(out) + Lsb(buf, count)
    }
  }

  lemma FlushOne(w: Writer)
    requires w.count >= 8 && w.buf < Pow2(w.count)
    ensures var w' := Writer(w.out + [w.buf % 256], w.buf / 256, w.count - 8);
            w'.Stream() == w.Stream() && w'.buf < Pow2(w'.count)
  {
    LsbByte(w.buf, w.count - 8);
    ShrBound(w.buf, 8, w.count - 8);
    ShrEight(w.buf);
    BytesBitsConcat(w.out, [w.buf % 256]);
    BytesBitsOne(w.buf % 256);
    Regroup(BytesBits(w.out), Lsb(w.buf % 256, 8), Lsb(w.buf / 256, w.count - 8));
  }

  /** Moves whole bytes from the bit buffer to the output. */
  method Flush(w: Writer) returns (r: Writer)
    requires w.buf < Pow2(w.count)
    ensures r.Valid() && r.Stream() == w.Stream() && w.out <= r.out
  {
    r := w;
    while r.count >= 8
      invariant r.buf < Pow2(r.count) && r.Stream() == w.Stream() && w.out <= r.out
      decreases r.count
    {
      FlushOne(r);
      r := Writer(r.out + [r.buf % 256], r.buf / 256, r.count - 8);
    }
  }

  /** Appends n bits, lowest first; the 32-bit buffer never overflows. */
  method Add(w: Writer, code: nat, n: nat) returns (r: Writer)
    requires w.Valid() && code < Pow2(n) && n <= 24
    ensures r.Valid() && r.Stream() == w.Stream() + Lsb(code, n) && w.out <= r.out
  {
    OrAbove(w.buf, code, w.count);
    AboveBound(w.buf, code, w.count, n);
    LsbAbove(w.buf, code, w.count, n);
    PowGrows(w.count + n, 32);
    WordPower();
    Regroup(BytesBits(w.out), Lsb(w.buf, w.count), Lsb(code, n));
    r := Flush(Writer(w.out, BitOr(w.buf, Shl(code, w.count)), w.count + n));
  }

  lemma {:induction false} OrBit(x: nat, b: nat)
    requires b < 2
    ensures BitOr(2 * x, b) == 2 * x + b
  {
    OrZeroRight(x);
  }

  lemma {:induction false} OrZeroRight(x: nat)
    ensures BitOr(x, 0) == x
  {
    if x > 0 {
      OrZeroRight(x / 2);
    }
  }

  method Reverse(code: nat, codebits: nat) returns (res: nat)
    ensures res == BitRev(code, codebits)
  {
    res := 0;
    var c, n := code, codebits;
    ZeroShl(n);
    while n > 0
      invariant Shl(res, n) + BitRev(c, n) == BitRev(code, codebits)
    {
      OrBit(res, c % 2);
      ShlAdd(2 * res, c % 2, n - 1);
      ShlDouble(res, n - 1);
      res := BitOr(2 * res, c % 2);
      c := c / 2;
      n := n - 1;
    }
  }

  lemma {:induction false} ShlAdd(x: nat, y: nat, k: nat)
    ensures Shl(x + y, k) == Shl(x, k) + Shl(y, k)
  {
    if k > 0 {
      ShlAdd(x, y, k - 1);
    }
  }

  lemma {:induction false} ShlDouble(x: nat, k: nat)
    ensures Shl(2 * x, k) == Shl(x, k + 1)
  {
    if k > 0 {
      ShlDouble(x, k - 1);
    }
  }

  /** A code is sent highest bit first. */
  method AddReversed(w: Writer, code: nat, n: nat) returns (r: Writer)
    requires w.Valid() && n <= 24
    ensures r.Valid() && r.Stream() == w.Stream() + Msb(code, n) && w.out <= r.out
  {
    var reversed := Reverse(code, n);
    BitRevBound(code, n);
    LsbOfReversed(code, n);
    r := Add(w, reversed, n);
  }

  /** A code that is the one of symbol n. */
  method AddCode(w: Writer, code: nat, length: nat, ghost n: nat) returns (r: Writer)
    requires w.Valid() && length <= 24 && n <= 287 && CodeOf(n) == Code(code, length)
    ensures r.Valid() && r.Stream() == w.Stream() + SymbolBits(n) && w.out <= r.out
  {
    r := AddReversed(w, code, length);
  }

  method AddSymbol(w: Writer, n: nat) returns (r: Writer)
    requires w.Valid() && n <= 287
    ensures r.Valid() && r.Stream() == w.Stream() + SymbolBits(n) && w.out <= r.out
  {
    if n <= 143 {
      r := AddCode(w, 0x30 + n, 8, n);
    } else if n <= 255 {
      r := AddCode(w, 0x190 + n - 144, 9, n);
    } else if n <= 279 {
      r := AddCode(w, n - 256, 7, n);
    } else {
      r := AddCode(w, 0xc0 + n - 280, 8, n);
    }
  }

  method FindLengthIndex(best: nat) returns (j: nat)
    requires 3 <= best <= 258
    ensures j == LengthIndex(best, 0)
  {
    j := 0;
    while best > LengthC(j + 1) - 1
      invariant j < 29 && LengthC(j) <= best && LengthIndex(best, j) == LengthIndex(best, 0)
      decreases 29 - j
    {
      j := j + 1;
    }
  }

  lemma TailParts(best: nat, j: nat, extra: nat, n: nat)
    requires 3 <= best <= 258 && j == LengthIndex(best, 0) && extra == best - LengthC(j) && n == LengthEb(j)
    ensures LengthTail(best) == Lsb(extra, n)
  {
  }

  lemma LengthParts(best: nat, j: nat, tail: seq<bool>)
    requires 3 <= best <= 258 && j == LengthIndex(best, 0) && tail == LengthTail(best)
    ensures LengthBits(best) == SymbolBits(j + 257) + tail
  {
  }

  lemma WidthBound(j: nat)
    requires j < 29
    ensures LengthEb(j) <= 5
  {
  }

  /** The length code, its extra bits and their number. */
  method FindLength(best: nat) returns (j: nat, extra: nat, n: nat)
    requires 3 <= best <= 258
    ensures j < 29 && n <= 13 && extra < Pow2(n)
    ensures LengthBits(best) == SymbolBits(j + 257) + Lsb(extra, n)
  {
    j := FindLengthIndex(best);
    LengthFits(j, best);
    extra, n := best - LengthC(j), LengthEb(j);
    TailParts(best, j, extra, n);
    LengthParts(best, j, Lsb(extra, n));
    WidthBound(j);
  }

  method FindDistanceIndex(d: nat) returns (j: nat)
    requires 1 <= d < 32768
    ensures j == DistanceIndex(d, 0)
  {
    j := 0;
    while d > DistC(j + 1) - 1
      invariant j < 30 && DistC(j) <= d && DistanceIndex(d, j) == DistanceIndex(d, 0)
      decreases 30 - j
    {
      j := j + 1;
    }
  }

  method FindDistance(d: nat) returns (j: nat, extra: nat, n: nat)
    requires 1 <= d < 32768
    ensures j < 30 && n <= 13 && extra < Pow2(n)
    ensures DistanceBits(d) == Msb(j, 5) + Lsb(extra, n)
  {
    j := FindDistanceIndex(d);
    DistanceFits(j, d);
    extra, n := d - DistC(j), DistEb(j);
  }

  /** Nothing is added for a width of zero. */
  method AddExtra(w: Writer, extra: nat, n: nat) returns (r: Writer)
    requires w.Valid() && extra < Pow2(n) && n <= 13
    ensures r.Valid() && r.Stream() == w.Stream() + Lsb(extra, n) && w.out <= r.out
  {
    r := w;
    if n != 0 {
      r := Add(w, extra, n);
    } else {
      assert w.Stream() + [] == w.Stream();
    }
  }

  method AddLength(w: Writer, j: nat, extra: nat, n: nat, ghost bits: seq<bool>) returns (r: Writer)
    requires w.Valid() && j < 29 && n <= 13 && extra < Pow2(n)
    requires bits == SymbolBits(j + 257) + Lsb(extra, n)
    ensures r.Valid() && r.Stream() == w.Stream() + bits && w.out <= r.out
  {
    r := AddSymbol(w, j + 257);
    Regroup(w.Stream(), SymbolBits(j + 257), Lsb(extra, n));
    r := AddExtra(r, extra, n);
  }

  method AddDistance(w: Writer, j: nat, extra: nat, n: nat, ghost bits: seq<bool>) returns (r: Writer)
    requires w.Valid() && n <= 13 && extra < Pow2(n)
    requires bits == Msb(j, 5) + Lsb(extra, n)
    ensures r.Valid() && r.Stream() == w.Stream() + bits && w.out <= r.out
  {
    r := AddReversed(w, j, 5);
    Regroup(w.Stream(), Msb(j, 5), Lsb(extra, n));
    r := AddExtra(r, extra, n);
  }

  method AddMatch(w: Writer, best: nat, d: nat) returns (r: Writer)
    requires w.Valid() && 3 <= best <= 258 && 1 <= d < 32768
    ensures r.Valid() && r.Stream() == w.Stream() + TokenBits(Match(best, d)) && w.out <= r.out
  {
    ghost var length, distance := LengthBits(best), DistanceBits(d);
    var j, extra, n := FindLength(best);
    r := AddLength(w, j, extra, n, length);
    j, extra, n := FindDistance(d);
    r := AddDistance(r, j, extra, n, distance);
    Regroup(w.Stream(), length, distance);
  }

  // ---------------------------------------------------------------- matches

  /** How far the data at p and at i agree, counted from k, up to limit and to 258. */
  function CountFrom(data: seq<Byte>, p: nat, i: nat, limit: nat, k: nat): (n: nat)
    requires k <= limit && k <= 258 && p + limit <= |data| && i + limit <= |data|
    ensures k <= n <= limit && n <= 258
    decreases limit - k
  {
    if k < limit && k < 258 && data[p + k] == data[i + k] then CountFrom(data, p, i, limit, k + 1) else k
  }

  function CountMatch(data: seq<Byte>, p: nat, i: nat): nat
    requires p <= i <= |data|
  {
    CountFrom(data, p, i, |data| - i, 0)
  }

  method FindCount(data: seq<Byte>, p: nat, i: nat) returns (k: nat)
    requires p <= i <= |data|
    ensures k == CountMatch(data, p, i)
  {
    k := 0;
    var limit := |data| - i;
    while k < limit && k < 258 && data[p + k] == data[i + k]
      invariant k <= limit && k <= 258
      invariant CountFrom(data, p, i, limit, k) == CountMatch(data, p, i)
    {
      k := k + 1;
    }
  }

  lemma {:induction false} CountedAgree(data: seq<Byte>, p: nat, i: nat, limit: nat, k: nat, m: nat)
    requires k <= limit && k <= 258 && p + limit <= |data| && i + limit <= |data|
    requires k <= m < CountFrom(data, p, i, limit, k)
    ensures data[p + m] == data[i + m]
    decreases limit - k
  {
    if k < m {
      CountedAgree(data, p, i, limit, k + 1, m);
    }
  }

  /** Copying from a place where the data agree continues the data, even if the copy runs into
      its own output. */
  lemma {:induction false} CopyContinues(data: seq<Byte>, p: nat, i: nat, done: nat, n: nat)
    requires p < i <= |data| && n == CountMatch(data, p, i) && done <= n
    ensures Inflate.CopyBack(data[..i + done], i - p, n - done) == data[..i + n]
    decreases n - done
  {
    if done < n {
      CountedAgree(data, p, i, |data| - i, 0, done);
      assert data[..i + done][i + done - (i - p)] == data[i + done];
      assert data[..i + done] + [data[i + done]] == data[..i + done + 1];
      CopyContinues(data, p, i, done + 1, n);
    }
  }

  lemma MatchCopies(data: seq<Byte>, p: nat, i: nat)
    requires p < i <= |data|
    ensures i + CountMatch(data, p, i) <= |data|
    ensures Inflate.CopyBack(data[..i], i - p, CountMatch(data, p, i)) == data[..i + CountMatch(data, p, i)]
  {
    CopyContinues(data, p, i, 0, CountMatch(data, p, i));
  }

  // ---------------------------------------------------------------- hash chains

  /** The 32-bit hash of three bytes. */
  function Hash(b0: Byte, b1: Byte, b2: Byte): bv32 {
    var h0 := (b0 + 0x100 * b1 + 0x1_0000 * b2) as bv32;
    var h1 := h0 ^ (h0 << 3);
    var h2 := h1 + (h1 >> 5);
    var h3 := h2 ^ (h2 << 4);
    var h4 := h3 + (h3 >> 17);
    var h5 := h4 ^ (h4 << 25);
    h5 + (h5 >> 6)
  }

  type Table = t: seq<seq<nat>> | |t| == 16384 witness seq(16384, _ => [])

  method Bucket(data: seq<Byte>, i: nat) returns (h: nat)
    requires i + 2 < |data|
    ensures h < 16384 && h == Hash(data[i], data[i + 1], data[i + 2]) as nat % 16384
  {
    h := Hash(data[i], data[i + 1], data[i + 2]) as nat % 16384;
  }

  /** All positions in the chain lie before i. */
  predicate Before(chain: seq<nat>, i: nat) {
    forall k | 0 <= k < |chain| :: chain[k] < i
  }

  ghost predicate AllBefore(table: Table, i: nat) {
    forall h {:trigger table[h]} | 0 <= h < 16384 :: Before(table[h], i)
  }

  /** The last of the longest matches in the window, if any has length 3. */
  method FindMatch(data: seq<Byte>, i: nat, chain: seq<nat>) returns (best: nat, at: Option<nat>)
    requires i <= |data| && Before(chain, i)
    ensures at.None? ==> best == 3
    ensures at.Some? ==> at.value in chain && 0 < i - at.value < 32768 && best == CountMatch(data, at.value, i) >= 3
    ensures forall k | 0 <= k < |chain| && i - chain[k] < 32768 ::
              CountMatch(data, chain[k], i) <= best && (at.None? ==> CountMatch(data, chain[k], i) < 3)
  {
    best, at := 3, None;
    for j := 0 to |chain|
      invariant at.None? ==> best == 3
      invariant at.Some? ==> at.value in chain && 0 < i - at.value < 32768 && best == CountMatch(data, at.value, i) >= 3
      invariant forall k | 0 <= k < j && i - chain[k] < 32768 ::
                  CountMatch(data, chain[k], i) <= best && (at.None? ==> CountMatch(data, chain[k], i) < 3)
    {
      if chain[j] > i - 32768 {
        var d := FindCount(data, chain[j], i);
        if d >= best {
          best, at := d, Some(chain[j]);
        }
      }
    }
  }

  /** Whether the next position has a longer match within reach. */
  method NextIsBetter(data: seq<Byte>, i: nat, chain: seq<nat>, best: nat) returns (better: bool)
    requires i < |data| && Before(chain, i + 1)
    ensures better <==>
            exists k :: 0 <= k < |chain| && i + 1 - chain[k] < 32768 && CountMatch(data, chain[k], i + 1) > best
  {
    for j := 0 to |chain|
      invariant forall k | 0 <= k < j && i + 1 - chain[k] < 32768 :: CountMatch(data, chain[k], i + 1) <= best
    {
      if chain[j] > i - 32767 {
        var e := FindCount(data, chain[j], i + 1);
        if e > best {
          return true;
        }
      }
    }
    return false;
  }

  /** Adds position i to its chain; a chain that has reached twice the quality is halved first. */
  method Remember(table: Table, h: nat, i: nat, quality: nat) returns (t: Table)
    requires h < 16384 && quality >= 5 && AllBefore(table, i)
    ensures AllBefore(t, i + 1)
    ensures t == table[h := (if |table[h]| == 2 * quality then table[h][quality..] else table[h]) + [i]]
  {
    var chain := table[h];
    if |chain| == 2 * quality {
      chain := chain[quality..];
    }
    t := table[h := chain + [i]];
    forall k | 0 <= k < 16384 ensures Before(t[k], i + 1) {
      assert Before(table[k], i);
    }
  }

  // ---------------------------------------------------------------- the compressed stream

  /** The tokens so far describe the first i bytes of the data. */
  ghost predicate Describes(tokens: seq<Token>, data: seq<Byte>, i: nat) {
    i <= |data| && Playable(tokens) && Expand(tokens) == data[..i]
  }

  /** The writer holds the header bits and the tokens. */
  ghost predicate Holds(w: Writer, tokens: seq<Token>) {
    && w.Valid() && Playable(tokens) && Header() <= w.out
    && w.Stream() == BytesBits(Header()) + ([true, true, false] + TokensBits(tokens))
  }

  /** CMF: window of 32K, deflate; FLG: level 1. */
  function Header(): seq<Byte> {
    [0x78, 0x5e]
  }

  lemma LiteralDescribes(tokens: seq<Token>, data: seq<Byte>, i: nat)
    requires Describes(tokens, data, i) && i < |data|
    ensures Describes(tokens + [Literal(data[i])], data, i + 1)
    ensures TokensBits(tokens + [Literal(data[i])]) == TokensBits(tokens) + SymbolBits(data[i])
  {
    Snoc(tokens, Literal(data[i]));
    OneMore(data, i);
  }

  lemma OneMore(data: seq<Byte>, i: nat)
    requires i < |data|
    ensures data[..i] + [data[i]] == data[..i + 1]
  {
  }

  lemma MatchDescribes(tokens: seq<Token>, data: seq<Byte>, i: nat, at: nat)
    requires Describes(tokens, data, i) && at < i && i - at < 32768 && CountMatch(data, at, i) >= 3
    ensures var t := Match(CountMatch(data, at, i), i - at);
            && Describes(tokens + [t], data, i + CountMatch(data, at, i))
            && TokensBits(tokens + [t]) == TokensBits(tokens) + TokenBits(t)
  {
    MatchCopies(data, at, i);
    Snoc(tokens, Match(CountMatch(data, at, i), i - at));
  }

  lemma HoldsMore(w: Writer, tokens: seq<Token>, r: Writer, t: Token)
    requires Holds(w, tokens) && Encodable(t) && r.Valid() && w.out <= r.out
    requires r.Stream() == w.Stream() + TokenBits(t)
    requires Playable(tokens + [t]) && TokensBits(tokens + [t]) == TokensBits(tokens) + TokenBits(t)
    ensures Holds(r, tokens + [t])
  {
    Append(BytesBits(Header()), [true, true, false], TokensBits(tokens), TokenBits(t));
  }

  lemma Append<T>(x: seq<T>, y: seq<T>, z: seq<T>, t: seq<T>)
    ensures x + (y + z) + t == x + (y + (z + t))
  {
  }

  method AddLiteral(w: Writer, data: seq<Byte>, i: nat, ghost tokens: seq<Token>)
    returns (r: Writer, ghost more: seq<Token>)
    requires Holds(w, tokens) && Describes(tokens, data, i) && i < |data|
    ensures Holds(r, more) && Describes(more, data, i + 1)
  {
    LiteralDescribes(tokens, data, i);
    more := tokens + [Literal(data[i])];
    r := AddSymbol(w, data[i]);
    HoldsMore(w, tokens, r, Literal(data[i]));
  }

  method AddCopy(w: Writer, data: seq<Byte>, i: nat, best: nat, at: nat, ghost tokens: seq<Token>)
    returns (r: Writer, ghost more: seq<Token>)
    requires Holds(w, tokens) && Describes(tokens, data, i)
    requires at < i && i - at < 32768 && best == CountMatch(data, at, i) >= 3
    ensures Holds(r, more) && Describes(more, data, i + best)
  {
    MatchDescribes(tokens, data, i, at);
    more := tokens + [Match(best, i - at)];
    r := AddMatch(w, best, i - at);
    HoldsMore(w, tokens, r, Match(best, i - at));
  }

  method Begin() returns (w: Writer)
    ensures Holds(w, [])
  {
    w := Writer(Header(), 0, 0);
    assert w.Stream() == BytesBits(Header());
    w := Add(w, 1, 1);
    w := Add(w, 1, 2);
    FlagBits();
    Regroup(BytesBits(Header()), [true], [true, false]);
    assert [true] + [true, false] == [true, true, false] + [];
  }

  lemma FlagBits()
    ensures Lsb(1, 1) == [true] && Lsb(1, 2) == [true, false]
  {
  }

  /** One round of the search: a copy or a literal for the data at i. */
  method Step(w: Writer, data: seq<Byte>, i: nat, table: Table, quality: nat, ghost tokens: seq<Token>)
    returns (r: Writer, next: nat, t: Table, ghost more: seq<Token>)
    requires Holds(w, tokens) && Describes(tokens, data, i) && i + 3 < |data|
    requires AllBefore(table, i) && quality >= 5
    ensures Holds(r, more) && Describes(more, data, next)
    ensures i < next && AllBefore(t, next)
  {
    var h := Bucket(data, i);
    assert Before(table[h], i);
    var best, at := FindMatch(data, i, table[h]);
    t := Remember(table, h, i, quality);
    if at.Some? {
      h := Bucket(data, i + 1);
      assert Before(t[h], i + 1);
      var better := NextIsBetter(data, i, t[h], best);
      if better {
        at := None;
      }
    }
    if at.Some? {
      r, more := AddCopy(w, data, i, best, at.value, tokens);
      next := i + best;
    } else {
      r, more := AddLiteral(w, data, i, tokens);
      next := i + 1;
    }
    BeforeLater(t, i + 1, next);
  }

  lemma BeforeLater(table: Table, i: nat, j: nat)
    requires AllBefore(table, i) && i <= j
    ensures AllBefore(table, j)
  {
    forall h | 0 <= h < 16384 ensures Before(table[h], j) {
      assert Before(table[h], i);
    }
  }

  method Encode(data: seq<Byte>, quality: nat) returns (w: Writer, ghost tokens: seq<Token>)
    requires quality >= 5
    ensures Holds(w, tokens) && Describes(tokens, data, |data|)
  {
    w := Begin();
    tokens := [];
    var table: Table := seq(16384, _ => []);
    var i := 0;
    while i < |data| - 3
      invariant Holds(w, tokens) && Describes(tokens, data, i) && AllBefore(table, i)
      decreases |data| - i
    {
      w, i, table, tokens := Step(w, data, i, table, quality, tokens);
    }
    while i < |data|
      invariant Holds(w, tokens) && Describes(tokens, data, i)
    {
      w, tokens := AddLiteral(w, data, i, tokens);
      i := i + 1;
    }
  }
}
