/** The commands of the GPU as programs send them, and what the interpreter makes of each. */
module Primitives {
  import opened Mips
  import opened Bits
  import opened Seqs
  import opened Gp0

  type Colour = c: int | 0 <= c < 0x100_0000

  datatype Vertex = Vertex(colour: Colour, at: Word, texture: Word)

  /** Flags are the bits below the ones that decide the layout. Rectangles have a size field: 0 for
      a size of their own, 1 for a dot, 2 and 3 for squares of 8 and of 16. */
  datatype Primitive =
    | Polygon(gouraud: bool, quad: bool, textured: bool, flags: nat, vertices: seq<Vertex>)
    | Line(gouraud: bool, flags: nat, first: Vertex, second: Vertex)
    | Polyline(gouraud: bool, flags: nat, vertices: seq<Vertex>, end: Word)
    | Rectangle(size: nat, textured: bool, flags: nat, corner: Vertex, extent: Word)
    | Fill(colour: Colour, at: Word, extent: Word)
    | Copy(low: nat, from: Word, to: Word, extent: Word)
    | Store(low: nat, x: Half, y: Half, width: Half, height: Half, pixels: seq<Half>, pad: Half)
    | Fetch(low: nat, at: Word, extent: Word)
    | Environment(low: nat)
    | Plain(op: nat, argument: Colour)

  /** The places that a transfer to video memory fills: at most 1024 by 512. */
  function Places(width: Half, height: Half): nat {
    (if width > 1024 then 1024 else width) * (if height > 512 then 512 else height)
  }

  predicate Legal(p: Primitive) {
    match p
    case Polygon(_, quad, _, flags, vertices) => flags < 4 && |vertices| == if quad then 4 else 3
    case Line(_, flags, _, _) => flags < 8
    case Polyline(_, flags, vertices, _) => flags < 8 && |vertices| >= 2
    case Rectangle(size, _, flags, _, _) => size < 4 && flags < 4
    case Fill(_, _, _) => true
    case Copy(low, _, _, _) => low < 0x2000_0000
    case Store(low, _, _, width, height, pixels, _) => low < 0x2000_0000 && |pixels| == Places(width, height)
    case Fetch(low, _, _) => low < 0x2000_0000
    case Environment(low) => low < 0x2000_0000
    case Plain(op, _) => op < 0x20 && op != 2
  }

  // ---------------------------------------------------------------- their words

  /** Each vertex but the first: a colour if shaded, a position, and a texture word if textured. */
  function Corners(gouraud: bool, textured: bool, vertices: seq<Vertex>): seq<Word> {
    if vertices == [] then []
    else
      var v := vertices[0];
      (if gouraud then [v.colour] else []) + [v.at] + (if textured then [v.texture] else [])
      + Corners(gouraud, textured, vertices[1..])
  }

  /** The first vertex has its colour in the header. */
  function Figure(header: nat, gouraud: bool, textured: bool, vertices: seq<Vertex>): seq<Word>
    requires vertices != [] && header <= 0xFF00_0000
  {
    var v := vertices[0];
    [header + v.colour, v.at] + (if textured then [v.texture] else []) + Corners(gouraud, textured, vertices[1..])
  }

  function Pair(low: Half, high: Half): Word {
    var l: int, h: int := low, high;
    l + 0x1_0000 * h
  }

  /** Two pixels a word, the first in the low half. */
  function Packed(pixels: seq<Half>, pad: Half): seq<Word>
    decreases |pixels|
  {
    if pixels == [] then []
    else if |pixels| == 1 then [Pair(pixels[0], pad)]
    else [Pair(pixels[0], pixels[1])] + Packed(pixels[2..], pad)
  }

  function Encode(p: Primitive): (words: seq<Word>)
    requires Legal(p)
    ensures words != []
  {
    match p
    case Polygon(gouraud, quad, textured, flags, vertices) =>
      Figure(0x2000_0000 + 0x1000_0000 * Bit(gouraud) + 0x800_0000 * Bit(quad) + 0x400_0000 * Bit(textured)
             + 0x100_0000 * flags, gouraud, textured, vertices)
    case Line(gouraud, flags, first, second) =>
      Figure(0x4000_0000 + 0x1000_0000 * Bit(gouraud) + 0x100_0000 * flags, gouraud, false, [first, second])
    case Polyline(gouraud, flags, vertices, end) =>
      Figure(0x4800_0000 + 0x1000_0000 * Bit(gouraud) + 0x100_0000 * flags, gouraud, false, vertices) + [end]
    case Rectangle(size, textured, flags, corner, extent) =>
      Figure(0x6000_0000 + 0x800_0000 * size + 0x400_0000 * Bit(textured) + 0x100_0000 * flags,
             false, textured, [corner])
      + if size == 0 then [extent] else []
    case Fill(colour, at, extent) => [0x200_0000 + colour, at, extent]
    case Copy(low, from, to, extent) => [0x8000_0000 + low, from, to, extent]
    case Store(low, x, y, width, height, pixels, pad) =>
      [0xA000_0000 + low, Pair(x, y), Pair(width, height)] + Packed(pixels, pad)
    case Fetch(low, at, extent) => [0xC000_0000 + low, at, extent]
    case Environment(low) => [0xE000_0000 + low]
    case Plain(op, argument) => [0x100_0000 * op + argument]
  }

  /** What should come of a primitive: its words are executed, or its pixels stored. */
  function Meant(p: Primitive): Event
    requires Legal(p)
  {
    match p
    case Store(_, x, y, width, height, pixels, _) =>
      if width == 0 || height == 0 then Execute(Encode(p))
      else
        Upload(x % 1024, y % 512, if width > 1024 then 1024 else width, if height > 512 then 512 else height, pixels)
    case _ => Execute(Encode(p))
  }

  /** Lines of many points and squares of 8 are not taken as one command. */
  predicate TakenWhole(p: Primitive) {
    !p.Polyline? && !(p.Rectangle? && p.size == 2)
  }

  // ---------------------------------------------------------------- headers

  lemma HeaderBits(h: Word, kind: nat, g: bool, q: bool, t: bool, low: nat)
    requires kind < 8 && low < 0x400_0000
    requires h == 0x2000_0000 * kind + 0x1000_0000 * Bit(g) + 0x800_0000 * Bit(q) + 0x400_0000 * Bit(t) + low
    ensures Type(h) == kind && Gouraud(h) == g && Bit27(h) == q && Textured(h) == t
  {
    Cut(h, 0x2000_0000, kind, 0x1000_0000 * Bit(g) + 0x800_0000 * Bit(q) + 0x400_0000 * Bit(t) + low);
    Cut(h, 0x1000_0000, 2 * kind + Bit(g), 0x800_0000 * Bit(q) + 0x400_0000 * Bit(t) + low);
    Cut(h, 0x800_0000, 4 * kind + 2 * Bit(g) + Bit(q), 0x400_0000 * Bit(t) + low);
    Cut(h, 0x400_0000, 8 * kind + 4 * Bit(g) + 2 * Bit(q) + Bit(t), low);
  }

  lemma Cut(w: nat, unit: nat, high: nat, low: nat)
    requires unit == 0x2000_0000 || unit == 0x1000_0000 || unit == 0x800_0000 || unit == 0x400_0000 || unit == 0x1_0000
             || unit == 0x100_0000
    requires low < unit && w == unit * high + low
    ensures w / unit == high && w % unit == low
  {
  }

  lemma {:induction false} CornersLength(gouraud: bool, textured: bool, vertices: seq<Vertex>)
    ensures |Corners(gouraud, textured, vertices)| == (1 + Bit(gouraud) + Bit(textured)) * |vertices|
  {
    if vertices != [] {
      CornersLength(gouraud, textured, vertices[1..]);
    }
  }

  lemma FigureLength(header: nat, gouraud: bool, textured: bool, vertices: seq<Vertex>)
    requires vertices != [] && header <= 0xFF00_0000
    ensures var words := Figure(header, gouraud, textured, vertices);
            && words[0] == header + vertices[0].colour
            && |words| == 2 + Bit(textured) + (1 + Bit(gouraud) + Bit(textured)) * (|vertices| - 1)
  {
    CornersLength(gouraud, textured, vertices[1..]);
  }

  /** How many words are collected for a primitive that starts with header h and has n words. */
  ghost predicate Counted(p: Primitive, h: Word, n: nat) {
    && (p.Store? <==> Type(h) == 5)
    && (if p.Polyline? then ParameterCount(h) == -1 && n > 1
        else if TakenWhole(p) then ParameterCount(h) == (if p.Store? then 3 else n)
        else ParameterCount(h) == n + 1)
  }

  lemma PolygonCounted(p: Primitive)
    requires Legal(p) && p.Polygon?
    ensures Counted(p, Encode(p)[0], |Encode(p)|)
  {
    var q := Encode(p);
    FigureLength(0x2000_0000 + 0x1000_0000 * Bit(p.gouraud) + 0x800_0000 * Bit(p.quad) + 0x400_0000 * Bit(p.textured)
                 + 0x100_0000 * p.flags, p.gouraud, p.textured, p.vertices);
    HeaderBits(q[0], 1, p.gouraud, p.quad, p.textured, 0x100_0000 * p.flags + p.vertices[0].colour);
  }

  /** The bits of flags: bit 26 of lines is one of them. */
  lemma LineCounted(p: Primitive)
    requires Legal(p) && (p.Line? || p.Polyline?)
    ensures Counted(p, Encode(p)[0], |Encode(p)|)
  {
    var q := Encode(p);
    var t, low := p.flags >= 4, if p.flags >= 4 then p.flags - 4 else p.flags;
    if p.Line? {
      FigureLength(0x4000_0000 + 0x1000_0000 * Bit(p.gouraud) + 0x100_0000 * p.flags, p.gouraud, false,
                   [p.first, p.second]);
      HeaderBits(q[0], 2, p.gouraud, false, t, 0x100_0000 * low + p.first.colour);
    } else {
      FigureLength(0x4800_0000 + 0x1000_0000 * Bit(p.gouraud) + 0x100_0000 * p.flags, p.gouraud, false, p.vertices);
      HeaderBits(q[0], 2, p.gouraud, true, t, 0x100_0000 * low + p.vertices[0].colour);
    }
  }

  lemma RectangleCounted(p: Primitive)
    requires Legal(p) && p.Rectangle?
    ensures Counted(p, Encode(p)[0], |Encode(p)|)
  {
    var q := Encode(p);
    FigureLength(0x6000_0000 + 0x800_0000 * p.size + 0x400_0000 * Bit(p.textured) + 0x100_0000 * p.flags, false,
                 p.textured, [p.corner]);
    HeaderBits(q[0], 3, p.size >= 2, p.size == 1 || p.size == 3, p.textured, 0x100_0000 * p.flags + p.corner.colour);
  }

  lemma OtherCounted(p: Primitive)
    requires Legal(p) && !p.Polygon? && !p.Line? && !p.Polyline? && !p.Rectangle?
    ensures Counted(p, Encode(p)[0], |Encode(p)|)
  {
    var h := Encode(p)[0];
    match p
    case Fill(colour, _, _) => Cut(h, 0x2000_0000, 0, h);
      Cut(h, 0x100_0000, 2, colour);
    case Copy(low, _, _, _) => Cut(h, 0x2000_0000, 4, low);
    case Store(low, _, _, _, _, _, _) => Cut(h, 0x2000_0000, 5, low);
    case Fetch(low, _, _) => Cut(h, 0x2000_0000, 6, low);
    case Environment(low) => Cut(h, 0x2000_0000, 7, low);
    case Plain(op, argument) => Cut(h, 0x2000_0000, 0, h);
      Cut(h, 0x100_0000, op, argument);
  }

  lemma AllCounted(p: Primitive)
    requires Legal(p)
    ensures Counted(p, Encode(p)[0], |Encode(p)|)
  {
    match p
    case Polygon(_, _, _, _, _) => PolygonCounted(p);
    case Line(_, _, _, _) => LineCounted(p);
    case Polyline(_, _, _, _) => LineCounted(p);
    case Rectangle(_, _, _, _, _) => RectangleCounted(p);
    case _ => OtherCounted(p);
  }

  // ---------------------------------------------------------------- pixels

  lemma {:induction false} PackedHolds(pixels: seq<Half>, pad: Half)
    ensures |Packed(pixels, pad)| == DataWords(|pixels|)
    ensures Halves(Packed(pixels, pad), |pixels|) == pixels
    decreases |pixels|
  {
    var ws := Packed(pixels, pad);
    if |pixels| == 1 {
      Cut(ws[0], 0x1_0000, pad, pixels[0]);
      assert HalfAt(ws, 0) == pixels[0];
    } else if |pixels| > 1 {
      Cut(ws[0], 0x1_0000, pixels[1], pixels[0]);
      PackedHolds(pixels[2..], pad);
      forall i | 0 <= i < |pixels| ensures HalfAt(ws, i) == pixels[i] {
        if i >= 2 {
          assert ws[i / 2] == ws[1..][(i - 2) / 2];
          assert Halves(ws[1..], |pixels| - 2)[i - 2] == pixels[2..][i - 2];
        }
      }
    }
  }

  lemma StoreFrame(p: Primitive, q: seq<Word>)
    requires Legal(p) && p.Store? && q == Encode(p)
    ensures FrameWords(q) == |q| && FrameEvent(q) == Meant(p)
  {
    AllCounted(p);
    HandlersReadAll(q[0]);
    PackedHolds(p.pixels, p.pad);
    Cut(q[1], 0x1_0000, p.y, p.x);
    Cut(q[2], 0x1_0000, p.height, p.width);
    if p.width == 0 || p.height == 0 {
      assert p.pixels == [];
      assert q[..|q|] == q;
    } else {
      assert q[3..] == Packed(p.pixels, p.pad);
    }
  }

  lemma FrameIs(p: Primitive, q: seq<Word>)
    requires Legal(p) && TakenWhole(p) && q == Encode(p)
    ensures FrameWords(q) == |q| && FrameEvent(q) == Meant(p)
  {
    if p.Store? {
      StoreFrame(p, q);
    } else {
      AllCounted(p);
      HandlersReadAll(q[0]);
      assert q[..|q|] == q;
    }
  }

  // ---------------------------------------------------------------- what comes of them

  lemma {:induction false} LogGrows(p: Parser, ws: seq<Word>)
    requires PhaseOk(p.phase)
    ensures p.log <= FeedAll(p, ws).log
    decreases |ws|
  {
    if ws != [] {
      LogGrows(Feed(p, ws[0]), ws[1..]);
    }
  }

  lemma HeaderAlone(p: Primitive, q: seq<Word>, log: seq<Event>)
    requires Legal(p) && p.Polyline? && q == Encode(p)
    ensures FeedAll(Parser(Idle, log), q).log != log + [Execute(q)]
  {
    AllCounted(p);
    HandlersReadAll(q[0]);
    FrameThenRest(q, log);
    LogGrows(Parser(Idle, log + [FrameEvent(q)]), q[1..]);
    assert q[..1] != q;
    assert (log + [FrameEvent(q)])[|log|] == Execute(q[..1]);
  }

  /** The words of a primitive, fed to the idle interpreter, make the one event that is meant, and
      leave it idle: if and only if it is no line of many points and no square of 8. */
  lemma TakenExactly(p: Primitive, log: seq<Event>)
    requires Legal(p)
    ensures FeedAll(Parser(Idle, log), Encode(p)) == Parser(Idle, log + [Meant(p)]) <==> TakenWhole(p)
  {
    var q := Encode(p);
    if TakenWhole(p) {
      FrameIs(p, q);
      FrameFeeds(q, log);
      assert q[..|q|] == q;
    } else if p.Polyline? {
      HeaderAlone(p, q, log);
    } else {
      AllCounted(p);
      HandlersReadAll(q[0]);
      PartWaits(q, log);
    }
  }

  function EncodeAll(ps: seq<Primitive>): seq<Word>
    requires forall p | p in ps :: Legal(p)
  {
    if ps == [] then [] else Encode(ps[0]) + EncodeAll(ps[1..])
  }

  function AllMeant(ps: seq<Primitive>): seq<Event>
    requires forall p | p in ps :: Legal(p)
  {
    if ps == [] then [] else [Meant(ps[0])] + AllMeant(ps[1..])
  }

  /** Any list of such primitives is carried out one by one. */
  lemma {:induction false} ListTaken(ps: seq<Primitive>, log: seq<Event>)
    requires forall p | p in ps :: Legal(p) && TakenWhole(p)
    ensures FeedAll(Parser(Idle, log), EncodeAll(ps)) == Parser(Idle, log + AllMeant(ps))
  {
    if ps == [] {
      assert log + [] == log;
    } else {
      TakenExactly(ps[0], log);
      FeedAllConcat(Parser(Idle, log), Encode(ps[0]), EncodeAll(ps[1..]));
      ListTaken(ps[1..], log + [Meant(ps[0])]);
      Regroup(log, [Meant(ps[0])], AllMeant(ps[1..]));
    }
  }

  // ---------------------------------------------------------------- the two exceptions, in words

  lemma Counts()
    ensures ParameterCount(0x7000_0000) == 3 && ParameterCount(0x4800_0000) == -1 && ParameterCount(0) == 1
    ensures ParameterCount(0x5555_5555) == 4
    ensures Type(0x7000_0000) == 3 && Type(0x4800_0000) == 2 && Type(0) == 0 && Type(0x5555_5555) == 2
  {
  }

  lemma FeedWords(p: Parser, w: Word, ws: seq<Word>)
    requires PhaseOk(p.phase)
    ensures FeedAll(p, [w] + ws) == FeedAll(Feed(p, w), ws)
  {
    assert ([w] + ws)[1..] == ws;
  }

  /** A square of 8 at (0, 0), whole: the interpreter waits for a third word. */
  lemma SquareWaits(log: seq<Event>)
    ensures FeedAll(Parser(Idle, log), [0x7000_0000, 0]) == Parser(Collect([0x7000_0000, 0], 3), log)
  {
    Counts();
    assert [0x7000_0000, 0] == [0x7000_0000] + ([0] + []);
    FeedWords(Parser(Idle, log), 0x7000_0000, [0] + []);
    FeedWords(Feed(Parser(Idle, log), 0x7000_0000), 0, []);
    assert [0x7000_0000] + [0] == [0x7000_0000, 0];
  }

  /** A line through (0, 0) and (0, 0), whole: the header is executed alone, the points are taken
      for two commands that do nothing, and the end mark for the header of a shaded line. */
  lemma LineFallsApart(log: seq<Event>)
    ensures FeedAll(Parser(Idle, log), [0x4800_0000, 0, 0, 0x5555_5555]) ==
            Parser(Collect([0x5555_5555], 4), log + [Execute([0x4800_0000])] + [Execute([0])] + [Execute([0])])
  {
    Counts();
    var one := Parser(Idle, log + [Execute([0x4800_0000])]);
    var two := Parser(Idle, one.log + [Execute([0])]);
    var three := Parser(Idle, two.log + [Execute([0])]);
    assert [0x4800_0000, 0, 0, 0x5555_5555] == [0x4800_0000] + ([0] + ([0] + ([0x5555_5555] + [])));
    FeedWords(Parser(Idle, log), 0x4800_0000, [0] + ([0] + ([0x5555_5555] + [])));
    FeedWords(one, 0, [0] + ([0x5555_5555] + []));
    FeedWords(two, 0, [0x5555_5555] + []);
    FeedWords(three, 0x5555_5555, []);
  }
}
