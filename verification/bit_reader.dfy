/** The cached bit reader of the video decoder, over byte-swapped data. */
module BitReader {
  import opened Mips
  import opened Bits
  import opened Seqs

  // ---------------------------------------------------------------- the plain bit sequence

  /** The bits of a byte string, each byte highest bit first. */
  function BitsOf(s: seq<Byte>): (bits: seq<bool>)
    ensures |bits| == 8 * |s|
  {
    if s == [] then [] else BitsOf(s[..|s| - 1]) + Msb(s[|s| - 1], 8)
  }

  /** The bits of a string of little-endian 16-bit words, each word highest bit first. */
  function WordBits(s: seq<Byte>): seq<bool> {
    if |s| < 2 then []
    else
      var low: int, high: int := s[|s| - 2], s[|s| - 1];
      WordBits(s[..|s| - 2]) + Msb(low + 256 * high, 16)
  }

  /** n bits from position at on; past the limit there are zeros. */
  function Window(bits: seq<bool>, at: nat, n: nat, limit: int): (w: seq<bool>)
    ensures |w| == n
  {
    seq(n, i requires 0 <= i < n => at + i < limit && at + i < |bits| && bits[at + i])
  }

  // ---------------------------------------------------------------- swapping

  /** Neighbouring bytes exchanged; the last byte of an odd length stays. */
  function Swapped(s: seq<Byte>): seq<Byte> {
    if |s| < 2 then s else [s[1], s[0]] + Swapped(s[2..])
  }

  method Swap(src: seq<Byte>) returns (dst: seq<Byte>)
    ensures dst == Swapped(src)
  {
    dst := [];
    var i := 0;
    while i + 1 < |src|
      invariant i <= |src| && dst + Swapped(src[i..]) == Swapped(src)
    {
      dst := dst + [src[i + 1], src[i]];
      assert src[i..][2..] == src[i + 2..];
      i := i + 2;
    }
    if i < |src| {
      dst := dst + [src[i]];
    } else {
      assert dst + [] == dst;
    }
  }

  lemma {:induction false} SwappedSnoc(s: seq<Byte>, x: Byte, y: Byte)
    requires |s| % 2 == 0
    ensures Swapped(s + [x, y]) == Swapped(s) + [y, x]
    decreases |s|
  {
    if s == [] {
      assert Swapped([x, y]) == [y, x] + Swapped([]);
    } else {
      assert (s + [x, y])[2..] == s[2..] + [x, y];
      SwappedSnoc(s[2..], x, y);
    }
  }

  lemma BitsOfPair(s: seq<Byte>, x: Byte, y: Byte)
    ensures BitsOf(s + [x, y]) == BitsOf(s) + Msb(x, 8) + Msb(y, 8)
  {
    var t := s + [x, y];
    assert t[..|t| - 1] == s + [x];
    assert (s + [x])[..|s|] == s;
  }

  lemma LowByte(low: nat, high: nat)
    ensures Msb(low + 256 * high, 8) == Msb(low, 8)
  {
    ShlFour(high, 4);
    ShlFour(high, 0);
    MsbLow(low, high, 8);
  }

  lemma PairSplits(v: nat, low: nat, high: nat, n: nat)
    requires v == low + 256 * high && low < 256
    ensures Msb(v, n + 8) == Msb(high, n) + Msb(low, 8)
  {
    ByteParts(v, low, high);
    MsbSplit(v, n, 8);
    ShrEight(v);
    LowByte(low, high);
  }

  lemma PairOfBytes(low: Byte, high: Byte)
    ensures var v: nat := low + 256 * high; Msb(v, 16) == Msb(high, 8) + Msb(low, 8)
  {
    PairSplits(low + 256 * high, low, high, 8);
  }

  /** Swapping puts the words' bits in order. */
  lemma {:induction false} SwappedBits(s: seq<Byte>)
    requires |s| % 2 == 0
    ensures BitsOf(Swapped(s)) == WordBits(s)
    decreases |s|
  {
    if s != [] {
      var front := s[..|s| - 2];
      var low, high := s[|s| - 2], s[|s| - 1];
      assert s == front + [low, high];
      SwappedSnoc(front, low, high);
      SwappedBits(front);
      BitsOfPair(Swapped(front), high, low);
      PairOfBytes(low, high);
      WordSnoc(s, front, low, high, Msb(high, 8) + Msb(low, 8));
      Regroup(WordBits(front), Msb(high, 8), Msb(low, 8));
    }
  }

  lemma WordSnoc(s: seq<Byte>, front: seq<Byte>, low: int, high: int, word: seq<bool>)
    requires |s| >= 2 && front == s[..|s| - 2] && low == s[|s| - 2] && high == s[|s| - 1]
    requires low + 256 * high >= 0 && word == Msb(low + 256 * high, 16)
    ensures WordBits(s) == WordBits(front) + word
  {
  }

  // ---------------------------------------------------------------- the cache

  lemma {:induction false} BitsOfAt(s: seq<Byte>, k: nat)
    requires k < |s|
    ensures BitsOf(s)[8 * k..8 * k + 8] == Msb(s[k], 8)
  {
    var front := s[..|s| - 1];
    assert BitsOf(s) == BitsOf(front) + Msb(s[|s| - 1], 8);
    if k < |s| - 1 {
      BitsOfAt(front, k);
      assert BitsOf(s)[8 * k..8 * k + 8] == BitsOf(front)[8 * k..8 * k + 8];
    }
  }

  lemma WindowEnds(bits: seq<bool>, at: nat, have: nat, limit: nat, n: nat)
    requires at + have == limit && have <= n
    ensures Window(bits, at, n, limit) == Window(bits, at, have, limit) + Zeros(n - have)
  {
  }

  lemma WindowExtends(bits: seq<bool>, at: nat, have: nat, limit: nat, m: nat)
    requires at + have == limit && limit + m <= |bits|
    ensures Window(bits, at, have + m, limit + m) == Window(bits, at, have, limit) + bits[limit..limit + m]
  {
  }

  /** The window after the limit moves on by eight bits. */
  lemma WindowGrows(bits: seq<bool>, at: nat, limit: nat, have: nat)
    requires at + have == limit && have <= 24 && limit + 8 <= |bits|
    ensures Window(bits, at, 32, limit) == Window(bits, at, have, limit) + Zeros(32 - have)
    ensures Window(bits, at, 32, limit + 8) == Window(bits, at, have, limit) + bits[limit..limit + 8] + Zeros(24 - have)
  {
    WindowEnds(bits, at, have, limit, 32);
    WindowExtends(bits, at, have, limit, 8);
    WindowEnds(bits, at, have + 8, limit + 8, 32);
  }

  /** The cache is its top bits and zeros. */
  lemma CacheTop(cache: nat, have: nat, k: nat, top: nat)
    requires have + k == 24 && top == Shr(cache, k + 8) && Msb(cache, 32)[have..] == Zeros(32 - have)
    ensures cache == Shl(Shl(top, 8), k) && Msb(top, have) == Msb(cache, 32)[..have]
  {
    MsbSplit(cache, have, k + 8);
    assert Msb(cache, k + 8) == Msb(cache, 32)[have..];
    ZeroTail(cache, k + 8);
    ShlShl(top, 8, k);
  }

  lemma OrBelow(top: nat, b: Byte, k: nat)
    ensures BitOr(Shl(Shl(top, 8), k), Shl(b, k)) == Shl(Shl(top, 8) + b, k)
  {
    OrOfShl(Shl(top, 8), b, k);
    OrCommutes(Shl(top, 8), b);
    BytePower();
    OrAbove(b, top, 8);
  }

  /** Or-ing a byte in just below the bits that are there. */
  lemma OrByte(cache: nat, b: Byte, have: nat)
    requires have <= 24
    requires Msb(cache, 32)[have..] == Zeros(32 - have)
    ensures Msb(BitOr(cache, Shl(b, 24 - have)), 32) == Msb(cache, 32)[..have] + Msb(b, 8) + Zeros(24 - have)
  {
    var k := 24 - have;
    var top := Shr(cache, k + 8);
    CacheTop(cache, have, k, top);
    ByteBelow(top, b, have, k);
  }

  lemma ByteBelow(top: nat, b: Byte, have: nat, k: nat)
    requires have + k == 24
    ensures Msb(BitOr(Shl(Shl(top, 8), k), Shl(b, k)), 32) == Msb(top, have) + Msb(b, 8) + Zeros(k)
  {
    OrBelow(top, b, k);
    BytePower();
    MsbOfShl(Shl(top, 8) + b, k, have + 8);
    MsbOfSum(top, b, 8, have);
  }

  /** A byte or-ed into a cache that shows a window lets it show the next window. */
  lemma CacheGrows(bits: seq<bool>, at: nat, limit: nat, cache: nat, b: Byte, have: nat)
    requires at + have == limit && have <= 24 && limit + 8 <= |bits| && bits[limit..limit + 8] == Msb(b, 8)
    requires Msb(cache, 32) == Window(bits, at, 32, limit)
    ensures Msb(BitOr(cache, Shl(b, 24 - have)), 32) == Window(bits, at, 32, limit + 8)
  {
    WindowGrows(bits, at, limit, have);
    assert Msb(cache, 32)[have..] == Zeros(32 - have);
    assert Msb(cache, 32)[..have] == Window(bits, at, have, limit);
    OrByte(cache, b, have);
  }

  lemma BytePower()
    ensures Pow2(8) == 256
  {
    PowFour(4);
    PowFour(0);
  }

  // ---------------------------------------------------------------- the reader

  /** Showing the top n of 32 bits. */
  lemma ShownBits(cache: nat, n: nat)
    requires n <= 32 && cache < 0x1_0000_0000
    ensures Shr(cache, 32 - n) < Pow2(n) && Msb(Shr(cache, 32 - n), n) == Msb(cache, 32)[..n]
  {
    WordPower();
    ShrBound(cache, 32 - n, n);
    MsbSplit(cache, n, 32 - n);
  }

  /** Dropping the top n of 32 bits. */
  lemma DropTop(cache: nat, n: nat)
    requires n <= 32
    ensures Msb(Shl(cache, n) % 0x1_0000_0000, 32) == Msb(cache, 32)[n..] + Zeros(n)
  {
    MsbOfShl(cache, n, 32 - n);
    MsbSplit(cache, n, 32 - n);
    ModWord(Shl(cache, n));
  }

  lemma ModWord(x: nat)
    ensures Msb(x % 0x1_0000_0000, 32) == Msb(x, 32)
  {
    var q := x / 0x1_0000_0000;
    ShlWord(q);
    MsbLow(x % 0x1_0000_0000, q, 32);
  }

  lemma ShlWord(q: nat)
    ensures Shl(q, 32) == 0x1_0000_0000 * q
  {
    ShlFour(q, 28);
    ShlFour(q, 24);
    ShlFour(q, 20);
    ShlFour(q, 16);
    ShlFour(q, 12);
    ShlFour(q, 8);
    ShlFour(q, 4);
    ShlFour(q, 0);
  }

  lemma {:induction false} MsbDetermines(v: nat, bits: seq<bool>)
    requires v < Pow2(|bits|) && Msb(v, |bits|) == bits
    ensures v == MsbValue(bits)
  {
    MsbRoundTrip(v, |bits|);
  }

  lemma SmallerWindow(bits: seq<bool>, at: nat, m: nat, n: nat, limit: int)
    requires m <= n
    ensures Window(bits, at, n, limit)[..m] == Window(bits, at, m, limit)
    ensures Window(bits, at, n, limit)[m..] == Window(bits, at + m, n - m, limit)
  {
  }

  lemma {:induction false} OrLess(x: nat, y: nat, n: nat)
    requires x < Pow2(n) && y < Pow2(n)
    ensures BitOr(x, y) < Pow2(n)
    decreases n
  {
    if n > 0 {
      OrLess(x / 2, y / 2, n - 1);
    }
  }

  lemma OrBound(cache: nat, b: Byte, k: nat)
    requires cache < 0x1_0000_0000 && k <= 24
    ensures BitOr(cache, Shl(b, k)) < 0x1_0000_0000
  {
    WordPower();
    BytePower();
    AboveBound(0, b, k, 8);
    PowGrows(k + 8, 32);
    OrLess(cache, Shl(b, k), 32);
  }

  // ---------------------------------------------------------------- sign extension

  /** The right shift of a signed number, which rounds down. */
  function Asr(z: int, k: nat): int
    decreases k
  {
    if k == 0 then z else Asr(z / 2, k - 1)
  }

  lemma {:induction false} ThereAndBack(z: int, k: nat)
    ensures Asr(ShlInt(z, k), k) == z
  {
    if k > 0 {
      assert ShlInt(z, k) / 2 == ShlInt(z, k - 1);
      ThereAndBack(z, k - 1);
    }
  }

  lemma {:induction false} ShlIntIs(u: nat, w: nat, k: nat)
    ensures ShlInt(u - w, k) == Shl(u, k) - Shl(w, k)
  {
    if k > 0 {
      ShlIntIs(u, w, k - 1);
    }
  }

  lemma {:induction false} ShlOfPow(n: nat, k: nat)
    ensures Shl(Pow2(n), k) == Pow2(n + k)
  {
    if k > 0 {
      ShlOfPow(n, k - 1);
    }
  }

  lemma {:induction false} ShlGrows(x: nat, y: nat, k: nat)
    requires x <= y
    ensures Shl(x, k) <= Shl(y, k)
  {
    if k > 0 {
      ShlGrows(x, y, k - 1);
    }
  }

  lemma {:induction false} TopBitSet(u: nat, n: nat)
    requires n >= 1 && u < Pow2(n)
    ensures Msb(u, n)[0] <==> u >= Pow2(n - 1)
  {
    if n > 1 {
      TopBitSet(u / 2, n - 1);
    }
  }

  /** Left to the sign bit and arithmetically back, in 32 bits. */
  function SignExtended(u: nat, n: nat): int
    requires 1 <= n <= 32
  {
    var w := Shl(u, 32 - n);
    Asr(if w < 0x8000_0000 then w else w - 0x1_0000_0000, 32 - n)
  }

  lemma SignExtends(u: nat, n: nat)
    requires 1 <= n <= 32 && u < Pow2(n)
    ensures Shl(u, 32 - n) < 0x1_0000_0000
    ensures SignExtended(u, n) == if u >= Pow2(n - 1) then u - Pow2(n) else u
  {
    var k := 32 - n;
    WordPower();
    AboveBound(0, u, k, n);
    ShlOfPow(n, k);
    ShlOfPow(n - 1, k);
    assert 2 * Pow2(31) == Pow2(32);
    ShlIntIs(u, 0, k);
    ShlIntIs(u, Pow2(n), k);
    ThereAndBack(u, k);
    ThereAndBack(u - Pow2(n), k);
    ZeroShl(k);
    if u >= Pow2(n - 1) {
      ShlGrows(Pow2(n - 1), u, k);
    } else {
      ShlLess(u, Pow2(n - 1), k);
    }
  }

  lemma {:induction false} ShlLess(x: nat, y: nat, k: nat)
    requires x < y
    ensures Shl(x, k) < Shl(y, k)
  {
    if k > 0 {
      ShlLess(x, y, k - 1);
    }
  }

  class Reader {
    const buf: seq<Byte>
    var bytePos: nat
    var cache: Word
    var cacheBits: int

    /** How many bits have been consumed; ahead of the buffer once it has run out. */
    ghost var at: nat

    /** The cache is the next bits of the buffer, as far as they have been fetched. */
    ghost predicate Valid()
      reads this
    {
      && bytePos <= |buf| && cacheBits <= 32 && at + cacheBits == 8 * bytePos
      && (cacheBits < 0 ==> bytePos == |buf|)
      && Msb(cache, 32) == Window(BitsOf(buf), at, 32, 8 * bytePos)
    }

    /** The bits not yet consumed, n of them, zeros past the end. */
    ghost function Upcoming(n: nat): (w: seq<bool>)
      reads this
      ensures |w| == n
    {
      Window(BitsOf(buf), at, n, 8 * |buf|)
    }

    constructor (buf: seq<Byte>)
      ensures Valid() && this.buf == buf && at == 0
    {
      this.buf := buf;
      bytePos, cache, cacheBits, at := 0, 0, 0, 0;
      new;
      ZeroCache(BitsOf(buf));
    }

    lemma ZeroCache(bits: seq<bool>)
      ensures Msb(0, 32) == Window(bits, 0, 32, 0)
    {
      MsbOfShl(0, 32, 0);
      ShlWord(0);
      assert Window(bits, 0, 32, 0) == Zeros(32);
      assert Msb(0, 0) + Zeros(32) == Zeros(32);
    }

    method FetchByte()
      requires Valid() && cacheBits <= 24 && bytePos < |buf|
      modifies this`cache, this`cacheBits, this`bytePos
      ensures Valid() && cacheBits == old(cacheBits) + 8 && bytePos == old(bytePos) + 1
    {
      CacheGrows(BitsOf(buf), at, 8 * bytePos, cache, buf[bytePos], cacheBits) by {
        BitsOfAt(buf, bytePos);
      }
      OrBound(cache, buf[bytePos], 24 - cacheBits);
      cache := BitOr(cache, Shl(buf[bytePos], 24 - cacheBits));
      bytePos := bytePos + 1;
      cacheBits := cacheBits + 8;
    }

    method Refill()
      requires Valid()
      modifies this`cache, this`cacheBits, this`bytePos
      ensures Valid() && (cacheBits > 24 || bytePos == |buf|)
    {
      while cacheBits <= 24 && bytePos < |buf|
        invariant Valid()
        decreases |buf| - bytePos
      {
        FetchByte();
      }
    }

    lemma Fetched(n: nat)
      requires Valid() && (cacheBits > 24 || bytePos == |buf|) && n <= 25
      ensures Msb(cache, 32)[..n] == Upcoming(n)
    {
      SmallerWindow(BitsOf(buf), at, n, 32, 8 * bytePos);
    }

    /** The next n bits as a number. */
    method Show(n: nat) returns (v: nat)
      requires Valid() && 1 <= n <= 25
      modifies this`cache, this`cacheBits, this`bytePos
      ensures Valid() && v == MsbValue(Upcoming(n)) && v < Pow2(n) && Msb(v, n) == Upcoming(n)
      ensures cacheBits >= n || bytePos == |buf|
    {
      Refill();
      Fetched(n);
      ShownBits(cache, n);
      v := Shr(cache, 32 - n);
      MsbDetermines(v, Upcoming(n));
    }

    /** Consumes n bits; a Show of at least n bits must have come before. */
    method Skip(n: nat)
      requires Valid() && n <= 25 && (cacheBits >= n || bytePos == |buf|)
      modifies this`cache, this`cacheBits, this`at
      ensures Valid() && at == old(at) + n
    {
      DropTop(cache, n);
      SmallerWindow(BitsOf(buf), at, n, 32, 8 * bytePos);
      PastEnd(n);
      cache := Shl(cache, n) % 0x1_0000_0000;
      cacheBits := cacheBits - n;
      at := at + n;
    }

    lemma PastEnd(n: nat)
      requires Valid() && n <= 32 && (cacheBits >= n || bytePos == |buf|)
      ensures Window(BitsOf(buf), at + n, 32, 8 * bytePos) ==
              Window(BitsOf(buf), at + n, 32 - n, 8 * bytePos) + Zeros(n)
    {
    }

    method Get(n: nat) returns (v: nat)
      requires Valid() && 1 <= n <= 25
      modifies this
      ensures Valid() && v == MsbValue(old(Upcoming(n))) && v < Pow2(n) && at == old(at) + n
    {
      v := Show(n);
      Skip(n);
    }

    /** The next n bits as a two's-complement number. */
    method GetSigned(n: nat) returns (v: int)
      requires Valid() && 1 <= n <= 25
      modifies this
      ensures Valid() && at == old(at) + n
      ensures var u := MsbValue(old(Upcoming(n)));
              v == if old(Upcoming(n))[0] then u - Pow2(n) else u
    {
      ghost var bits := Upcoming(n);
      var u := Show(n);
      Skip(n);
      TopBitSet(u, n);
      SignExtends(u, n);
      v := SignExtended(u, n);
    }
  }
}
