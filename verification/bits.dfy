/** Bytes and halfwords, bit strings, and bitwise operations on natural numbers. */
module Bits {
  type Byte = b: int | 0 <= b < 256
  type Half = h: int | 0 <= h < 0x1_0000

  function Abs(x: int): nat {
    if x < 0 then -x else x
  }

  lemma Shifted(v: nat)
    ensures v / 0x1_0000 == v / 0x100 / 0x100 && v / 0x100_0000 == v / 0x1_0000 / 0x100
  {
  }

  lemma Digit(v: nat)
    ensures v == 0x100 * (v / 0x100) + v % 0x100
  {
  }

  lemma ByteParts(v: nat, a: nat, b: nat)
    requires v == a + 256 * b && a < 256
    ensures v % 256 == a && v / 256 == b
  {
  }

  function Pow2(n: nat): (p: nat)
    ensures p > 0
  {
    if n == 0 then 1 else 2 * Pow2(n - 1)
  }

  lemma PowFour(k: nat)
    ensures Pow2(k + 4) == 16 * Pow2(k)
  {
    assert Pow2(k + 4) == 2 * Pow2(k + 3) == 4 * Pow2(k + 2);
    assert Pow2(k + 2) == 2 * Pow2(k + 1) == 4 * Pow2(k);
  }

  lemma WordPower()
    ensures Pow2(16) == 0x1_0000 && Pow2(32) == 0x1_0000_0000
  {
    PowFour(0);
    PowFour(4);
    PowFour(8);
    PowFour(12);
    PowFour(16);
    PowFour(20);
    PowFour(24);
    PowFour(28);
  }

  function Bit(b: bool): nat {
    if b then 1 else 0
  }

  /** The low n bits of v, lowest first. */
  function Lsb(v: nat, n: nat): (bits: seq<bool>)
    ensures |bits| == n
    decreases n, v
  {
    if n == 0 then [] else [v % 2 == 1] + Lsb(v / 2, n - 1)
  }

  /** The low n bits of v, highest first. */
  function Msb(v: nat, n: nat): (bits: seq<bool>)
    ensures |bits| == n
    decreases n, v
  {
    if n == 0 then [] else Msb(v / 2, n - 1) + [v % 2 == 1]
  }

  function LsbValue(bits: seq<bool>): nat {
    if bits == [] then 0 else Bit(bits[0]) + 2 * LsbValue(bits[1..])
  }

  function MsbValue(bits: seq<bool>): nat {
    if bits == [] then 0 else 2 * MsbValue(bits[..|bits| - 1]) + Bit(bits[|bits| - 1])
  }

  lemma {:induction false} LsbValueBound(bits: seq<bool>)
    ensures LsbValue(bits) < Pow2(|bits|)
  {
    if bits != [] {
      LsbValueBound(bits[1..]);
    }
  }

  lemma {:induction false} LsbRoundTrip(v: nat, n: nat)
    requires v < Pow2(n)
    ensures LsbValue(Lsb(v, n)) == v
  {
    if n > 0 {
      LsbRoundTrip(v / 2, n - 1);
      assert Lsb(v, n)[1..] == Lsb(v / 2, n - 1);
    }
  }

  lemma MsbValueAppend(bits: seq<bool>, b: bool)
    ensures MsbValue(bits + [b]) == 2 * MsbValue(bits) + Bit(b)
  {
    assert (bits + [b])[..|bits|] == bits;
  }

  lemma {:induction false} MsbRoundTrip(v: nat, n: nat)
    requires v < Pow2(n)
    ensures MsbValue(Msb(v, n)) == v
  {
    if n > 0 {
      MsbRoundTrip(v / 2, n - 1);
      MsbValueAppend(Msb(v / 2, n - 1), v % 2 == 1);
    }
  }

  // ---------------------------------------------------------------- shift, or, reversal

  function Shl(v: nat, k: nat): nat {
    if k == 0 then v else 2 * Shl(v, k - 1)
  }

  /** The left shift of a signed number. */
  function ShlInt(z: int, k: nat): int
    decreases k
  {
    if k == 0 then z else 2 * ShlInt(z, k - 1)
  }

  lemma {:induction false} ShlIs(v: nat, k: nat)
    ensures Shl(v, k) == v * Pow2(k)
  {
    if k > 0 {
      ShlIs(v, k - 1);
      assert v * (2 * Pow2(k - 1)) == 2 * (v * Pow2(k - 1));
    }
  }

  lemma {:induction false} ShlIntIs(z: int, k: nat)
    ensures ShlInt(z, k) == z * Pow2(k)
    decreases k
  {
    if k > 0 {
      ShlIntIs(z, k - 1);
      assert z * (2 * Pow2(k - 1)) == 2 * (z * Pow2(k - 1));
    }
  }

  /** A right shift divides, rounding down. */
  lemma ShrIs(v: nat, k: nat)
    ensures Shr(v, k) * Pow2(k) <= v < (Shr(v, k) + 1) * Pow2(k)
  {
    ShrInterval(v, k, Shr(v, k));
    ShlIs(Shr(v, k), k);
    ShlIs(Shr(v, k) + 1, k);
  }

  lemma {:induction false} ZeroShl(k: nat)
    ensures Shl(0, k) == 0
  {
    if k > 0 {
      ZeroShl(k - 1);
    }
  }

  lemma {:induction false} PowGrows(m: nat, n: nat)
    requires m <= n
    ensures Pow2(m) <= Pow2(n)
    decreases n
  {
    if m < n {
      PowGrows(m, n - 1);
    }
  }

  function BitOr(x: nat, y: nat): nat {
    if x == 0 && y == 0 then 0
    else (if x % 2 == 1 || y % 2 == 1 then 1 else 0) + 2 * BitOr(x / 2, y / 2)
  }

  lemma {:induction false} OrZero(y: nat)
    ensures BitOr(0, y) == y
  {
    if y > 0 {
      OrZero(y / 2);
    }
  }

  /** Bits or-ed in above all bits that are set are added. */
  lemma {:induction false} OrAbove(x: nat, v: nat, k: nat)
    requires x < Pow2(k)
    ensures BitOr(x, Shl(v, k)) == x + Shl(v, k)
  {
    if k == 0 {
      OrZero(v);
    } else {
      OrAbove(x / 2, v, k - 1);
    }
  }

  /** and their bits follow. */
  lemma {:induction false} LsbAbove(x: nat, v: nat, k: nat, n: nat)
    requires x < Pow2(k)
    ensures Lsb(x + Shl(v, k), k + n) == Lsb(x, k) + Lsb(v, n)
  {
    if k == 0 {
      assert [] + Lsb(v, n) == Lsb(v, n);
    } else {
      LsbAbove(x / 2, v, k - 1, n);
      assert (x + Shl(v, k)) / 2 == x / 2 + Shl(v, k - 1);
    }
  }

  lemma {:induction false} AboveBound(x: nat, v: nat, k: nat, n: nat)
    requires x < Pow2(k) && v < Pow2(n)
    ensures x + Shl(v, k) < Pow2(k + n)
  {
    if k > 0 {
      AboveBound(x / 2, v, k - 1, n);
    }
  }

  function Shr(v: nat, k: nat): nat {
    if k == 0 then v else Shr(v / 2, k - 1)
  }

  lemma {:induction false} LsbSplit(v: nat, k: nat, n: nat)
    ensures Lsb(v, k + n) == Lsb(v, k) + Lsb(Shr(v, k), n)
  {
    if k == 0 {
      assert [] + Lsb(v, n) == Lsb(v, n);
    } else {
      LsbSplit(v / 2, k - 1, n);
    }
  }

  lemma {:induction false} ShrBound(v: nat, k: nat, n: nat)
    requires v < Pow2(k + n)
    ensures Shr(v, k) < Pow2(n)
  {
    if k > 0 {
      ShrBound(v / 2, k - 1, n);
    }
  }

  lemma ShrFour(v: nat, k: nat)
    ensures Shr(v, k + 4) == Shr(v / 16, k)
  {
    assert Shr(v, k + 4) == Shr(v / 2, k + 3) == Shr(v / 4, k + 2);
    assert Shr(v / 4, k + 2) == Shr(v / 8, k + 1) == Shr(v / 16, k);
  }

  lemma ShlFour(v: nat, k: nat)
    ensures Shl(v, k + 4) == 16 * Shl(v, k)
  {
    assert Shl(v, k + 4) == 2 * Shl(v, k + 3) == 4 * Shl(v, k + 2);
    assert Shl(v, k + 2) == 2 * Shl(v, k + 1) == 4 * Shl(v, k);
  }

  lemma ShrEight(v: nat)
    ensures Shr(v, 8) == v / 256
  {
    ShrFour(v, 4);
    ShrFour(v / 16, 0);
  }

  lemma {:induction false} LowBits(v: nat, w: nat, k: nat)
    ensures Lsb(v + Shl(w, k), k) == Lsb(v, k)
  {
    if k > 0 {
      LowBits(v / 2, w, k - 1);
      assert (v + Shl(w, k)) / 2 == v / 2 + Shl(w, k - 1);
    }
  }

  /** Taking a byte off the low end. */
  lemma LsbByte(v: nat, n: nat)
    ensures Lsb(v, 8 + n) == Lsb(v % 256, 8) + Lsb(v / 256, n)
  {
    LsbSplit(v, 8, n);
    ShrEight(v);
    ShlEight(v / 256);
    LowBits(v % 256, v / 256, 8);
  }

  lemma ShlEight(q: nat)
    ensures Shl(q, 8) == 256 * q
  {
    ShlFour(q, 4);
    ShlFour(q, 0);
  }

  function BitRev(code: nat, n: nat): nat {
    if n == 0 then 0 else Shl(code % 2, n - 1) + BitRev(code / 2, n - 1)
  }

  lemma {:induction false} BitRevBound(code: nat, n: nat)
    ensures BitRev(code, n) < Pow2(n)
  {
    if n > 0 {
      BitRevBound(code / 2, n - 1);
      OneShifted(code % 2, n - 1);
    }
  }

  lemma {:induction false} OneShifted(b: nat, k: nat)
    requires b < 2
    ensures Shl(b, k) == if b == 1 then Pow2(k) else 0
  {
    if k > 0 {
      OneShifted(b, k - 1);
    }
  }

  /** A reversed code sent lowest bit first arrives highest bit first. */
  lemma {:induction false} LsbOfReversed(code: nat, n: nat)
    ensures Lsb(BitRev(code, n), n) == Msb(code, n)
  {
    if n > 0 {
      LsbOfReversed(code / 2, n - 1);
      BitRevBound(code / 2, n - 1);
      LsbAbove(BitRev(code / 2, n - 1), code % 2, n - 1, 1);
      assert Lsb(code % 2, 1) == [code % 2 == 1];
    }
  }

  // ---------------------------------------------------------------- highest bit first

  function Zeros(n: nat): (bits: seq<bool>)
    ensures |bits| == n
  {
    seq(n, _ => false)
  }

  lemma {:induction false} MsbSplit(v: nat, m: nat, n: nat)
    ensures Msb(v, m + n) == Msb(Shr(v, n), m) + Msb(v, n)
  {
    if n == 0 {
      assert Msb(v, m) + [] == Msb(v, m);
    } else {
      MsbSplit(v / 2, m, n - 1);
    }
  }

  /** Shifting up appends zeros, */
  lemma {:induction false} MsbOfShl(v: nat, k: nat, n: nat)
    ensures Msb(Shl(v, k), n + k) == Msb(v, n) + Zeros(k)
  {
    if k == 0 {
      assert Msb(v, n) + Zeros(0) == Msb(v, n);
    } else {
      MsbOfShl(v, k - 1, n);
      assert Zeros(k) == Zeros(k - 1) + [false];
    }
  }

  /** and adding what fits below replaces them. */
  lemma {:induction false} MsbOfSum(v: nat, b: nat, k: nat, n: nat)
    requires b < Pow2(k)
    ensures Msb(Shl(v, k) + b, n + k) == Msb(v, n) + Msb(b, k)
  {
    if k == 0 {
      assert Msb(v, n) + [] == Msb(v, n);
    } else {
      MsbOfSum(v, b / 2, k - 1, n);
      assert (Shl(v, k) + b) / 2 == Shl(v, k - 1) + b / 2;
    }
  }

  /** Bits above the n-th do not matter. */
  lemma {:induction false} MsbLow(v: nat, w: nat, n: nat)
    ensures Msb(v + Shl(w, n), n) == Msb(v, n)
  {
    if n > 0 {
      MsbLow(v / 2, w, n - 1);
      assert (v + Shl(w, n)) / 2 == v / 2 + Shl(w, n - 1);
    }
  }

  lemma {:induction false} ZeroTail(v: nat, n: nat)
    requires Msb(v, n) == Zeros(n)
    ensures v == Shl(Shr(v, n), n)
  {
    if n > 0 {
      assert Msb(v, n)[n - 1] == false;
      assert Msb(v / 2, n - 1) == Msb(v, n)[..n - 1] == Zeros(n - 1);
      ZeroTail(v / 2, n - 1);
    }
  }

  lemma {:induction false} OrOfShl(x: nat, y: nat, k: nat)
    ensures BitOr(Shl(x, k), Shl(y, k)) == Shl(BitOr(x, y), k)
  {
    if k > 0 {
      OrOfShl(x, y, k - 1);
    }
  }

  lemma {:induction false} OrCommutes(x: nat, y: nat)
    ensures BitOr(x, y) == BitOr(y, x)
    decreases x + y
  {
    if x > 0 || y > 0 {
      OrCommutes(x / 2, y / 2);
    }
  }

  lemma {:induction false} ShlShl(v: nat, j: nat, k: nat)
    ensures Shl(Shl(v, j), k) == Shl(v, j + k)
  {
    if k > 0 {
      ShlShl(v, j, k - 1);
    }
  }

  /** The value of a shift tells the interval. */
  lemma {:induction false} ShrInterval(x: nat, n: nat, c: nat)
    ensures Shr(x, n) == c <==> Shl(c, n) <= x < Shl(c + 1, n)
  {
    if n > 0 {
      ShrInterval(x / 2, n - 1, c);
    }
  }

  // ---------------------------------------------------------------- bytes

  /** The bits of a byte string, each byte lowest bit first. */
  function BytesBits(s: seq<Byte>): (bits: seq<bool>)
    ensures |bits| == 8 * |s|
  {
    if s == [] then [] else BytesBits(s[..|s| - 1]) + Lsb(s[|s| - 1], 8)
  }

  lemma {:induction false} BytesBitsConcat(s: seq<Byte>, t: seq<Byte>)
    ensures BytesBits(s + t) == BytesBits(s) + BytesBits(t)
    decreases |t|
  {
    if t == [] {
      assert s + t == s;
    } else {
      var n := |t| - 1;
      BytesBitsConcat(s, t[..n]);
      assert (s + t)[..|s + t| - 1] == s + t[..n];
    }
  }

  lemma BytesBitsOne(b: Byte)
    ensures BytesBits([b]) == Lsb(b, 8)
  {
    assert [b][..0] == [];
    assert BytesBits([]) + Lsb(b, 8) == Lsb(b, 8);
  }
}
