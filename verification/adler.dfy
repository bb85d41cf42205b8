/** The Adler-32 checksum: reduced after every byte, and with the reductions put off. */
module Adler {
  import opened Bits
  import opened Mips

  /** Both sums reduced modulo 65521 after every byte (section 2.2 of RFC 1950). */
  datatype Sums = Sums(s1: nat, s2: nat)

  function Reduced(data: seq<Byte>): (r: Sums)
    ensures r.s1 < 65521 && r.s2 < 65521
  {
    if data == [] then Sums(1, 0)
    else
      var before := Reduced(data[..|data| - 1]);
      var s1 := (before.s1 + data[|data| - 1]) % 65521;
      Sums(s1, (before.s2 + s1) % 65521)
  }

  function Big(r: Sums): seq<Byte>
    requires r.s1 < 65536 && r.s2 < 65536
  {
    [r.s2 / 256, r.s2 % 256, r.s1 / 256, r.s1 % 256]
  }

  /** The checksum as four bytes, highest first. */
  function BigEndian(data: seq<Byte>): seq<Byte> {
    Big(Reduced(data))
  }

  /** The same sums after i bytes of a block, not reduced. */
  predicate Congruent(s1: nat, s2: nat, r: Sums) {
    s1 % 65521 == r.s1 && s2 % 65521 == r.s2
  }

  lemma AddByte(s1: nat, s2: nat, r: Sums, b: Byte)
    requires Congruent(s1, s2, r)
    ensures var t := (r.s1 + b) % 65521;
            Congruent(s1 + b, s2 + (s1 + b), Sums(t, (r.s2 + t) % 65521))
  {
  }

  lemma ReducedStep(data: seq<Byte>, k: nat)
    requires k < |data|
    ensures var r := Reduced(data[..k]);
            var t := (r.s1 + data[k]) % 65521;
            Reduced(data[..k + 1]) == Sums(t, (r.s2 + t) % 65521)
  {
    assert data[..k + 1][..k] == data[..k];
  }

  /** The most that the second sum can be after i bytes since a reduction. */
  function Peak(i: nat): nat {
    if i == 0 then 65520 else Peak(i - 1) + 65520 + 255 * i
  }

  lemma {:induction false} PeakClosed(i: nat)
    ensures 2 * Peak(i) == 131040 + 131295 * i + 255 * (i * i)
  {
    if i > 0 {
      PeakClosed(i - 1);
      assert i * i == (i - 1) * (i - 1) + 2 * i - 1;
    }
  }

  lemma {:induction false} PeakGrows(i: nat, n: nat)
    requires i <= n
    ensures Peak(i) <= Peak(n)
    decreases n
  {
    if i < n {
      PeakGrows(i, n - 1);
    }
  }

  /** 5552 is small enough: neither sum reaches 2^32 before the next reduction. */
  lemma NoOverflow(i: nat)
    requires i <= 5552
    ensures Peak(i) < 0x1_0000_0000
  {
    var n := 5552;
    PeakGrows(i, n);
    PeakClosed(n);
  }

  /** and it is the largest such number. */
  lemma LargestBlock()
    ensures Peak(5553) >= 0x1_0000_0000
  {
    var n := 5553;
    PeakClosed(n);
  }

  /** Reducing once per block of at most 5552 bytes gives the per-byte checksum. */
  method Compute(data: seq<Byte>) returns (sum: seq<Byte>)
    ensures sum == BigEndian(data)
  {
    var s1: nat, s2: nat := 1, 0;
    var blockLen := |data| % 5552;
    var j := 0;
    ghost var blocks: nat := |data| / 5552;
    ghost var first: nat := blockLen;
    while j < |data|
      invariant first < 5552
      invariant |data| == j + first + 5552 * blocks
      invariant (first == blockLen && j == 0) || (first == 0 && blockLen == 5552)
      invariant Sums(s1, s2) == Reduced(data[..j])
      decreases |data| - j, if blockLen == 5552 then 0 else 1
    {
      s1, s2 := SumBlock(data, j, blockLen, s1, s2);
      j := j + blockLen;
      if blockLen == 5552 { blocks := blocks - 1; }
      first, blockLen := 0, 5552;
    }
    assert data[..j] == data;
    HighByte(s1);
    HighByte(s2);
    sum := [s2 / 256 % 256, s2 % 256, s1 / 256 % 256, s1 % 256];
  }

  lemma HighByte(s: nat)
    requires s < 65521
    ensures s / 256 % 256 == s / 256
  {
  }

  /** The unreduced sums of a block are the 32-bit ones, since they stay below 2^32. */
  method SumBlock(data: seq<Byte>, j: nat, blockLen: nat, s1: nat, s2: nat) returns (t1: nat, t2: nat)
    requires j + blockLen <= |data| && blockLen <= 5552
    requires Sums(s1, s2) == Reduced(data[..j])
    ensures Sums(t1, t2) == Reduced(data[..j + blockLen])
  {
    t1, t2 := s1, s2;
    for i := 0 to blockLen
      invariant Congruent(t1, t2, Reduced(data[..j + i]))
      invariant t1 <= 65520 + 255 * i && t2 <= Peak(i)
    {
      t1, t2 := AddOne(data, j, i, t1, t2);
    }
    t1, t2 := t1 % 65521, t2 % 65521;
  }

  lemma NoWrap(x: nat, i: nat)
    requires x <= Peak(i) && i <= 5552
    ensures Wrap(x) == x
  {
    NoOverflow(i);
  }

  lemma SmallPeak(i: nat)
    ensures 65520 + 255 * i <= Peak(i)
  {
  }

  method AddOne(data: seq<Byte>, j: nat, i: nat, s1: nat, s2: nat) returns (t1: nat, t2: nat)
    requires j + i < |data| && i < 5552
    requires Congruent(s1, s2, Reduced(data[..j + i]))
    requires s1 <= 65520 + 255 * i && s2 <= Peak(i)
    ensures t1 == s1 + data[j + i] && t2 == s2 + t1
    ensures Congruent(t1, t2, Reduced(data[..j + i + 1]))
    ensures t1 <= 65520 + 255 * (i + 1) && t2 <= Peak(i + 1)
  {
    AddByte(s1, s2, Reduced(data[..j + i]), data[j + i]);
    ReducedStep(data, j + i);
    SmallPeak(i + 1);
    NoWrap(s1 + data[j + i], i + 1);
    t1 := Wrap(s1 + data[j + i]);
    NoWrap(s2 + t1, i + 1);
    t2 := Wrap(s2 + t1);
  }
}
