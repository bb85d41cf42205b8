/** The exact-rate resampler: 2016 pairs at 37800 Hz become 2352 pairs at 44100 Hz. */
module Resampler {
  import opened Bits
  import opened Seqs

  type Pcm = s: seq<int> | |s| == 2 * 2016 witness seq(2 * 2016, _ => 0)

  /** C's division, which rounds toward zero. */
  function Truncated(a: int, b: int): int
    requires b > 0
  {
    if a >= 0 then a / b else -(-a / b)
  }

  /** A sample between two neighbours. */
  function Lerp(c: int, n: int, phase: nat): int {
    c + Truncated((n - c) * phase, 44100)
  }

  /** The interpolated sample of a channel at a position; the last pair has no successor. */
  function At(pcm: Pcm, pos: nat, phase: nat, channel: nat): int
    requires pos < 2016 && channel < 2
  {
    var c := pcm[2 * pos + channel];
    Lerp(c, if pos < 2015 then pcm[2 * (pos + 1) + channel] else c, phase)
  }

  /** Where the k-th output pair lies: 37800 k / 44100 input pairs from the start. */
  function PosOf(k: nat): nat {
    37800 * k / 44100
  }

  function PhaseOf(k: nat): nat {
    37800 * k % 44100
  }

  lemma InsideSector(k: nat)
    requires k < 2352
    ensures PosOf(k) < 2016
  {
  }

  /** The k-th output sample of a channel, from the definition of the rates alone. */
  function Ideal(pcm: Pcm, k: nat, channel: nat): int
    requires k < 2352 && channel < 2
  {
    InsideSector(k);
    At(pcm, PosOf(k), PhaseOf(k), channel)
  }

  /** Output k lies between two input samples, as far from the first as its phase in 44100ths of
      their distance, rounded toward the first. */
  lemma IdealIs(pcm: Pcm, k: nat, channel: nat)
    requires k < 2352 && channel < 2
    ensures var pos, phase := 37800 * k / 44100, 37800 * k % 44100;
            && pos < 2016
            && var first := pcm[2 * pos + channel];
               var second := if pos == 2015 then first else pcm[2 * pos + 2 + channel];
               var moved, way := Ideal(pcm, k, channel) - first, (second - first) * phase;
               && 44100 * Abs(moved) <= Abs(way) < 44100 * (Abs(moved) + 1)
               && (way >= 0 ==> moved >= 0) && (way <= 0 ==> moved <= 0)
  {
    InsideSector(k);
    var pos := PosOf(k);
    var first := pcm[2 * pos + channel];
    var second := if pos < 2015 then pcm[2 * (pos + 1) + channel] else first;
    TruncatedIs((second - first) * PhaseOf(k));
  }

  lemma TruncatedIs(a: int)
    ensures var q := Truncated(a, 44100);
            && 44100 * Abs(q) <= Abs(a) < 44100 * (Abs(q) + 1)
            && (a >= 0 ==> q >= 0) && (a <= 0 ==> q <= 0)
  {
  }

  /** The first k output pairs of a sector, left and right in turn, scaled by the volume. */
  function Output(pcm: Pcm, scale: int -> int, k: nat): (out: seq<int>)
    requires k <= 2352
    ensures |out| == 2 * k
  {
    if k == 0 then []
    else Output(pcm, scale, k - 1) + [scale(Ideal(pcm, k - 1, 0)), scale(Ideal(pcm, k - 1, 1))]
  }

  /** With out the first from pairs become the first to pairs. */
  ghost predicate Extends(pcm: Pcm, scale: int -> int, from: nat, out: seq<int>, to: nat) {
    from <= to <= 2352 &&
    forall k: nat {:trigger Output(pcm, scale, k)} | k == to :: Output(pcm, scale, from) + out == Output(pcm, scale, k)
  }

  lemma ExtendsOne(pcm: Pcm, scale: int -> int, k: nat, left: int, right: int)
    requires k < 2352 && left == Ideal(pcm, k, 0) && right == Ideal(pcm, k, 1)
    ensures Extends(pcm, scale, k, [scale(left), scale(right)], k + 1)
  {
  }

  lemma ExtendsOn(pcm: Pcm, scale: int -> int, from: nat, out: seq<int>, mid: nat, more: seq<int>, to: nat)
    requires Extends(pcm, scale, from, out, mid) && Extends(pcm, scale, mid, more, to)
    ensures Extends(pcm, scale, from, out + more, to)
  {
    var begun, half, all := Output(pcm, scale, from), Output(pcm, scale, mid), Output(pcm, scale, to);
    Regroup(begun, out, more);
    assert begun + out == half && half + more == all;
  }

  /** One output pair further. */
  lemma Advance(k: nat)
    ensures PhaseOf(k) + 37800 < 44100 ==> PosOf(k + 1) == PosOf(k) && PhaseOf(k + 1) == PhaseOf(k) + 37800
    ensures PhaseOf(k) + 37800 >= 44100 ==>
              PosOf(k + 1) == PosOf(k) + 1 && PhaseOf(k + 1) == PhaseOf(k) + 37800 - 44100
    ensures 44100 * PosOf(k) + PhaseOf(k) == 37800 * k && PhaseOf(k) < 44100
  {
  }

  /** The sector runs out exactly with output pair 2352, and the phase is back at zero. */
  lemma SectorEnds(k: nat)
    requires k <= 2352
    ensures PosOf(k) == 2016 <==> k == 2352
    ensures PosOf(k) <= 2016 && (k == 2352 ==> PhaseOf(k) == 0)
  {
  }

  class Drain {
    const pcm: Pcm
    var sectPos: nat
    var sectRem: nat
    var phase: nat

    /** How many output pairs the sector has yielded. */
    ghost var produced: nat

    ghost predicate Valid()
      reads this
    {
      && produced <= 2352
      && sectPos == PosOf(produced) && phase == PhaseOf(produced) && sectPos + sectRem == 2016
    }

    constructor (pcm: Pcm)
      ensures Valid() && this.pcm == pcm && produced == 0
    {
      this.pcm := pcm;
      sectPos, sectRem, phase, produced := 0, 2016, 0, 0;
    }

    method Channel(channel: nat) returns (v: int)
      requires Valid() && sectRem > 0 && channel < 2 && produced < 2352
      ensures v == Ideal(pcm, produced, channel)
    {
      var c := pcm[sectPos * 2 + channel];
      var n := if sectRem > 1 then pcm[(sectPos + 1) * 2 + channel] else c;
      v := c + Truncated((n - c) * phase, 44100);
    }

    method Tick()
      requires Valid() && produced < 2352
      modifies this
      ensures Valid() && produced == old(produced) + 1 && (sectRem == 0 <==> produced == 2352)
    {
      Advance(produced);
      SectorEnds(produced);
      SectorEnds(produced + 1);
      phase := phase + 37800;
      ghost var before := sectPos;
      while phase >= 44100
        invariant sectPos + sectRem == 2016 && produced == old(produced)
        invariant phase >= 44100 ==> sectPos == before && phase == PhaseOf(produced) + 37800 && sectRem > 0
        invariant phase < 44100 ==> sectPos == PosOf(produced + 1) && phase == PhaseOf(produced + 1)
        decreases phase
      {
        phase := phase - 44100;
        sectPos := sectPos + 1;
        sectRem := sectRem - 1;
      }
      produced := produced + 1;
    }

    method Pair(scale: int -> int) returns (pair: seq<int>)
      requires Valid() && sectRem > 0 && produced < 2352
      ensures Extends(pcm, scale, produced, pair, produced + 1)
    {
      var left := Channel(0);
      var right := Channel(1);
      pair := [scale(left), scale(right)];
      ExtendsOne(pcm, scale, produced, left, right);
    }

    /** The next output pair. */
    method One(scale: int -> int, out: seq<int>, ghost from: nat) returns (more: seq<int>)
      requires Valid() && sectRem > 0 && produced < 2352 && from <= produced
      requires Extends(pcm, scale, from, out, produced)
      modifies this
      ensures Valid() && produced == old(produced) + 1
      ensures Extends(pcm, scale, from, more, produced)
      ensures sectRem == 0 <==> produced == 2352
    {
      var pair := Pair(scale);
      more := out + pair;
      ExtendsOn(pcm, scale, from, out, produced, pair, produced + 1);
      Tick();
    }

    /** Up to toGen output pairs. However the sector is chopped up, they are the next ones. */
    method Generate(toGen: nat, scale: int -> int) returns (out: seq<int>)
      requires Valid()
      modifies this
      ensures Valid() && produced == if old(produced) + toGen <= 2352 then old(produced) + toGen else 2352
      ensures Output(pcm, scale, old(produced)) + out == Output(pcm, scale, produced)
      ensures 44100 * sectPos + phase == 37800 * produced
      ensures sectRem == 0 <==> produced == 2352
      ensures sectRem == 0 ==> phase == 0
    {
      out := [];
      var n := 0;
      Advance(produced);
      SectorEnds(produced);
      assert Output(pcm, scale, produced) + [] == Output(pcm, scale, produced);
      while n < toGen && sectRem > 0
        invariant Valid() && n <= toGen && produced == old(produced) + n
        invariant Extends(pcm, scale, old(produced), out, produced)
        invariant sectRem == 0 <==> produced == 2352
      {
        out := One(scale, out, old(produced));
        n := n + 1;
      }
      Advance(produced);
      SectorEnds(produced);
    }

    /** A whole sector, with the given free space each time round: nothing is produced while
        there is none. */
    method RunSector(frees: seq<nat>, scale: int -> int) returns (out: seq<int>)
      requires Valid() && produced == 0
      modifies this
      ensures Valid() && out == Output(pcm, scale, produced)
      ensures produced == Yield(frees)
      ensures produced == 2352 ==> sectRem == 0 && phase == 0
    {
      out := [];
      for i := 0 to |frees|
        invariant Valid() && out == Output(pcm, scale, produced) && produced == Yield(frees[..i])
      {
        assert frees[..i + 1][..i] == frees[..i];
        if frees[i] != 0 && sectRem > 0 {
          var some := Generate(if frees[i] < 512 then frees[i] else 512, scale);
          out := out + some;
        } else {
          SectorEnds(produced);
        }
      }
      assert frees[..|frees|] == frees;
      SectorEnds(produced);
    }
  }

  /** How many pairs come out of a sector, with the given free space each time round. */
  function Yield(frees: seq<nat>): (k: nat)
    ensures k <= 2352
  {
    if frees == [] then 0
    else
      var before := Yield(frees[..|frees| - 1]);
      var chunk := if frees[|frees| - 1] < 512 then frees[|frees| - 1] else 512;
      if before + chunk <= 2352 then before + chunk else 2352
  }
}
