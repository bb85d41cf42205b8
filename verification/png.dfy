/** PNG line filters: what the writer filters, the standard unfilter restores. */
module Png {
  import opened Options
  import opened Bits
  import opened Seqs
  import Zlib
  import Inflate

  /** The one of a, b, c nearest to a + b - c, the earlier on a tie. */
  function Paeth(a: Byte, b: Byte, c: Byte): (r: Byte)
    ensures r == a || r == b || r == c
    ensures var p := a + b - c;
            && Abs(p - r) <= Abs(p - a) && Abs(p - r) <= Abs(p - b) && Abs(p - r) <= Abs(p - c)
            && (Abs(p - a) == Abs(p - r) ==> r == a)
            && (Abs(p - b) == Abs(p - r) && r != a ==> r == b)
  {
    var p: int := a + b - c;
    var pa, pb, pc := Abs(p - a), Abs(p - b), Abs(p - c);
    if pa <= pb && pa <= pc then a else if pb <= pc then b else c
  }

  // ---------------------------------------------------------------- the standard

  /** The predictors of section 6 of RFC 2083: none, sub, up, average and Paeth, from the bytes to
      the left (a), above (b) and above left (c). */
  function Predict(filter: nat, a: Byte, b: Byte, c: Byte): Byte {
    match filter
    case 1 => a
    case 2 => b
    case 3 =>
      var sum: int := a + b;
      sum / 2
    case 4 => Paeth(a, b, c)
    case _ => 0
  }

  /** The byte one pixel before position i; zero before the row. */
  function Left(row: seq<Byte>, bpp: nat, i: nat): Byte
    requires i <= |row|
  {
    if bpp <= i && bpp > 0 then row[i - bpp] else 0
  }

  /** The first i bytes of a row from its filtered bytes and the row above. */
  function Restored(filter: nat, line: seq<Byte>, prior: seq<Byte>, bpp: nat, i: nat): (raw: seq<Byte>)
    requires i <= |line| == |prior|
    ensures |raw| == i
  {
    if i == 0 then []
    else
      var raw := Restored(filter, line, prior, bpp, i - 1);
      var p: int := Predict(filter, Left(raw, bpp, i - 1), prior[i - 1], Left(prior, bpp, i - 1));
      raw + [(line[i - 1] + p) % 256]
  }

  function Unfilter(filter: nat, line: seq<Byte>, prior: seq<Byte>, bpp: nat): (raw: seq<Byte>)
    requires |line| == |prior|
  {
    Restored(filter, line, prior, bpp, |line|)
  }

  // ---------------------------------------------------------------- filtering

  /** What the filter writes for position i. */
  function Residue(filter: nat, row: seq<Byte>, prior: seq<Byte>, bpp: nat, i: nat): Byte
    requires i < |row| == |prior|
  {
    var p: int := Predict(filter, Left(row, bpp, i), prior[i], Left(prior, bpp, i));
    (row[i] - p) % 256
  }

  predicate Filtered(filter: nat, row: seq<Byte>, prior: seq<Byte>, bpp: nat, line: seq<Byte>) {
    && |line| == |row| == |prior|
    && forall i | 0 <= i < |row| :: line[i] == Residue(filter, row, prior, bpp, i)
  }

  lemma AddBack(x: Byte, p: Byte)
    ensures ((x - p) % 256 + p) % 256 == x
  {
  }

  lemma {:induction false} RestoredIs(filter: nat, row: seq<Byte>, prior: seq<Byte>, bpp: nat, line: seq<Byte>, i: nat)
    requires Filtered(filter, row, prior, bpp, line) && i <= |row|
    ensures Restored(filter, line, prior, bpp, i) == row[..i]
  {
    if i > 0 {
      RestoredIs(filter, row, prior, bpp, line, i - 1);
      var raw := row[..i - 1];
      assert Left(raw, bpp, i - 1) == Left(row, bpp, i - 1);
      AddBack(row[i - 1], Predict(filter, Left(row, bpp, i - 1), prior[i - 1], Left(prior, bpp, i - 1)));
      assert row[..i] == raw + [row[i - 1]];
    }
  }

  /** Unfiltering undoes filtering, for every filter. */
  lemma UnfilterRestores(filter: nat, row: seq<Byte>, prior: seq<Byte>, bpp: nat, line: seq<Byte>)
    requires Filtered(filter, row, prior, bpp, line)
    ensures Unfilter(filter, line, prior, bpp) == row
  {
    RestoredIs(filter, row, prior, bpp, line, |row|);
    assert row[..|row|] == row;
  }

  // ---------------------------------------------------------------- the image in memory

  /** Rows of pixels in a buffer: row r starts stride * r bytes after the origin, or before it if
      the stride is negative. */
  datatype Image = Image(pixels: seq<Byte>, origin: nat, stride: int, width: nat, height: nat, bpp: nat, flip: bool) {
    function LineBytes(): nat {
      width * bpp
    }

    /** Where the y-th row to be written starts. */
    function Start(y: int): int {
      origin + stride * (if flip then height - 1 - y else y)
    }

    predicate Fits(y: int) {
      0 <= Start(y) && Start(y) + LineBytes() <= |pixels|
    }

    ghost predicate Valid() {
      bpp > 0 && width > 0 && forall y {:trigger Fits(y)} | 0 <= y < height :: Fits(y)
    }

    /** The y-th row to be written. */
    function Row(y: int): seq<Byte>
      requires Fits(y)
    {
      pixels[Start(y)..Start(y) + LineBytes()]
    }

    /** The row written before it: zeros before the first. */
    function Prior(y: nat): seq<Byte>
      requires y > 0 ==> Fits(y - 1)
    {
      if y == 0 then seq(LineBytes(), _ => 0) else Row(y - 1)
    }

    /** The image with the stride that is meant: a stride of zero stands for rows without gaps. */
    function Packed(): Image {
      if stride == 0 then this.(stride := LineBytes()) else this
    }

    function SignedStride(): int {
      if flip then -stride else stride
    }

    lemma RowAbove(y: int)
      ensures Start(y) - SignedStride() == Start(y - 1)
    {
      var r := if flip then height - 1 - y else y;
      if flip {
        assert stride * (r + 1) == stride * r + stride;
      } else {
        assert stride * (r - 1) == stride * r - stride;
      }
    }
  }

  /** The writer's own filter numbers: 5 and 6 are average and Paeth with no row above. */
  function Mapped(y: nat, filter: nat): nat
    requires filter < 5
  {
    if y != 0 then filter
    else match filter case 0 => 0 case 1 => 1 case 2 => 0 case 3 => 5 case _ => 6
  }

  /** The first pixel of a row: nothing to its left. */
  function FirstByte(kind: nat, z: Byte, up: Byte): Byte {
    match kind
    case 1 => z
    case 2 => Minus(z, up)
    case 3 => Minus(z, up / 2)
    case 4 => Minus(z, Paeth(0, up, 0))
    case _ => z
  }

  function Minus(z: Byte, p: Byte): Byte {
    (z - p) % 256
  }

  /** Any later byte. */
  function LaterByte(kind: nat, z: Byte, left: Byte, up: Byte, upLeft: Byte): Byte {
    match kind
    case 1 => Minus(z, left)
    case 2 => Minus(z, up)
    case 3 =>
      var sum: int := left + up;
      Minus(z, sum / 2)
    case 4 => Minus(z, Paeth(left, up, upLeft))
    case 5 => Minus(z, left / 2)
    case 6 => Minus(z, Paeth(left, 0, 0))
    case _ => z
  }

  lemma FirstIsResidue(y: nat, filter: nat, row: seq<Byte>, prior: seq<Byte>, bpp: nat, i: nat, up: Byte)
    requires filter < 5 && i < |row| == |prior| && i < bpp
    requires if y == 0 then prior[i] == 0 else prior[i] == up
    ensures (if Mapped(y, filter) == 0 then row[i] else FirstByte(Mapped(y, filter), row[i], up)) ==
            Residue(filter, row, prior, bpp, i)
  {
  }

  lemma LaterIsResidue(y: nat, filter: nat, row: seq<Byte>, prior: seq<Byte>, bpp: nat, i: nat, up: Byte, upLeft: Byte)
    requires filter < 5 && 0 < bpp <= i < |row| == |prior|
    requires if y == 0 then prior[i] == 0 && prior[i - bpp] == 0 else prior[i] == up && prior[i - bpp] == upLeft
    ensures (if Mapped(y, filter) == 0 then row[i]
             else LaterByte(Mapped(y, filter), row[i], row[i - bpp], up, upLeft)) ==
            Residue(filter, row, prior, bpp, i)
  {
  }

  lemma LineHoldsPixel(width: nat, bpp: nat)
    requires width > 0
    ensures bpp <= width * bpp
  {
    assert width * bpp == bpp + (width - 1) * bpp;
  }

  /** The row lies in the buffer from that place on. */
  predicate Buffered(pixels: seq<Byte>, at: int, row: seq<Byte>) {
    0 <= at && at + |row| <= |pixels| && row == pixels[at..at + |row|]
  }

  /** Row y at z and the one above it, a signed stride before; above the first there are zeros. */
  ghost predicate RowsAt(pixels: seq<Byte>, z: int, signedStride: int, y: nat, row: seq<Byte>, prior: seq<Byte>) {
    && |row| == |prior| && Buffered(pixels, z, row)
    && (if y == 0 then forall k | 0 <= k < |prior| :: prior[k] == 0 else Buffered(pixels, z - signedStride, prior))
  }

  method EncodeFirst(pixels: seq<Byte>, z: int, signedStride: int, y: nat, filter: nat, bpp: nat, i: nat,
                     ghost row: seq<Byte>, ghost prior: seq<Byte>)
    returns (b: Byte)
    requires RowsAt(pixels, z, signedStride, y, row, prior) && filter < 5 && i < bpp && i < |row|
    requires Mapped(y, filter) != 0
    ensures b == Residue(filter, row, prior, bpp, i)
  {
    var kind := Mapped(y, filter);
    var up: Byte := 0;
    if kind == 2 || kind == 3 || kind == 4 {
      up := pixels[z + i - signedStride];
    }
    b := FirstByte(kind, pixels[z + i], up);
    FirstIsResidue(y, filter, row, prior, bpp, i, if y == 0 then 0 else prior[i]);
  }

  method EncodeLater(pixels: seq<Byte>, z: int, signedStride: int, y: nat, filter: nat, bpp: nat, i: nat,
                     ghost row: seq<Byte>, ghost prior: seq<Byte>)
    returns (b: Byte)
    requires RowsAt(pixels, z, signedStride, y, row, prior) && filter < 5 && 0 < bpp <= i < |row|
    requires Mapped(y, filter) != 0
    ensures b == Residue(filter, row, prior, bpp, i)
  {
    var kind := Mapped(y, filter);
    var up: Byte, upLeft: Byte := 0, 0;
    if kind == 2 || kind == 3 || kind == 4 {
      up := pixels[z + i - signedStride];
    }
    if kind == 4 {
      upLeft := pixels[z + i - signedStride - bpp];
    }
    b := LaterByte(kind, pixels[z + i], pixels[z + i - bpp], up, upLeft);
    LaterIsResidue(y, filter, row, prior, bpp, i, if y == 0 then 0 else prior[i], if y == 0 then 0 else prior[i - bpp]);
  }

  lemma PlainIsResidue(y: nat, filter: nat, row: seq<Byte>, prior: seq<Byte>, bpp: nat, i: nat)
    requires filter < 5 && i < |row| == |prior| && Mapped(y, filter) == 0
    requires y == 0 ==> prior[i] == 0
    ensures row[i] == Residue(filter, row, prior, bpp, i)
  {
  }

  lemma RowsThere(im: Image, y: nat)
    requires im.Valid() && y < im.height && im.Fits(y) && (y > 0 ==> im.Fits(y - 1))
    ensures RowsAt(im.pixels, im.Start(y), im.SignedStride(), y, im.Row(y), im.Prior(y))
    ensures |im.Row(y)| == im.LineBytes() >= im.bpp
  {
    im.RowAbove(y);
    LineHoldsPixel(im.width, im.bpp);
  }

  /** Fills the line buffer with row y filtered; with no row above, filters 2 to 4 take it as
      zeros. */
  method EncodeLine(im: Image, y: nat, filter: nat, line: array<Byte>)
    requires im.Valid() && y < im.height && filter < 5 && line.Length == im.LineBytes()
    requires im.Fits(y) && (y > 0 ==> im.Fits(y - 1))
    modifies line
    ensures Filtered(filter, im.Row(y), im.Prior(y), im.bpp, line[..])
  {
    RowsThere(im, y);
    EncodeAt(im.pixels, im.Start(y), im.SignedStride(), y, filter, im.bpp, line, im.Row(y), im.Prior(y));
  }

  method EncodeAt(pixels: seq<Byte>, z: int, signedStride: int, y: nat, filter: nat, bpp: nat, line: array<Byte>,
                  ghost row: seq<Byte>, ghost prior: seq<Byte>)
    requires RowsAt(pixels, z, signedStride, y, row, prior) && filter < 5 && line.Length == |row| >= bpp > 0
    modifies line
    ensures Filtered(filter, row, prior, bpp, line[..])
  {
    if Mapped(y, filter) == 0 {
      for i := 0 to line.Length
        invariant forall k | 0 <= k < i :: line[k] == Residue(filter, row, prior, bpp, k)
      {
        PlainIsResidue(y, filter, row, prior, bpp, i);
        line[i] := pixels[z + i];
      }
      return;
    }
    for i := 0 to bpp
      invariant forall k | 0 <= k < i :: line[k] == Residue(filter, row, prior, bpp, k)
    {
      var b := EncodeFirst(pixels, z, signedStride, y, filter, bpp, i, row, prior);
      line[i] := b;
    }
    for i := bpp to line.Length
      invariant forall k | 0 <= k < i :: line[k] == Residue(filter, row, prior, bpp, k)
    {
      var b := EncodeLater(pixels, z, signedStride, y, filter, bpp, i, row, prior);
      line[i] := b;
    }
  }

  // ---------------------------------------------------------------- whole images

  /** Filtered rows, each after the number of its filter. */
  function UnfilterRows(filt: seq<Byte>, lineBytes: nat, bpp: nat, prior: seq<Byte>, rows: nat): Option<seq<Byte>>
    requires |prior| == lineBytes
  {
    if rows == 0 then (if filt == [] then Some([]) else None)
    else if |filt| < 1 + lineBytes || filt[0] > 4 then None
    else
      var row := Unfilter(filt[0], filt[1..1 + lineBytes], prior, bpp);
      match UnfilterRows(filt[1 + lineBytes..], lineBytes, bpp, row, rows - 1)
      case None => None
      case Some(rest) => Some(row + rest)
  }

  /** A row as it is written: the number of its filter, and its filtered bytes. */
  datatype Line = Line(filter: Byte, bytes: seq<Byte>)

  function StreamFrom(lines: seq<Line>, y: nat): seq<Byte>
    decreases |lines| - y
  {
    if y >= |lines| then [] else [lines[y].filter] + lines[y].bytes + StreamFrom(lines, y + 1)
  }

  function FlatFrom(rows: seq<seq<Byte>>, y: nat): seq<Byte>
    decreases |rows| - y
  {
    if y >= |rows| then [] else rows[y] + FlatFrom(rows, y + 1)
  }

  /** The row above row y: zeros above the first. */
  function Above(rows: seq<seq<Byte>>, n: nat, y: nat): seq<Byte>
    requires y <= |rows|
  {
    if y == 0 then seq(n, _ => 0) else rows[y - 1]
  }

  /** Line y is row y, of n bytes, filtered. */
  ghost predicate LineOk(rows: seq<seq<Byte>>, n: nat, bpp: nat, lines: seq<Line>, y: nat)
    requires y < |rows| && y < |lines|
  {
    && lines[y].filter < 5 && |rows[y]| == n && |Above(rows, n, y)| == n
    && Filtered(lines[y].filter, rows[y], Above(rows, n, y), bpp, lines[y].bytes)
  }

  ghost predicate LinesOk(rows: seq<seq<Byte>>, n: nat, bpp: nat, lines: seq<Line>) {
    |lines| <= |rows| &&
    forall y: nat {:trigger LineOk(rows, n, bpp, lines, y)} | y < |lines| :: LineOk(rows, n, bpp, lines, y)
  }

  lemma OneLine(filter: Byte, bytes: seq<Byte>, rest: seq<Byte>)
    ensures var s := [filter] + bytes + rest;
            s[0] == filter && s[1..1 + |bytes|] == bytes && s[1 + |bytes|..] == rest
  {
  }

  lemma UnfilterStep(filt: seq<Byte>, line: Line, rest: seq<Byte>, bpp: nat, row: seq<Byte>, prior: seq<Byte>,
                     rows: nat, tail: seq<Byte>)
    requires filt == [line.filter] + line.bytes + rest && line.filter < 5 && rows > 0
    requires Filtered(line.filter, row, prior, bpp, line.bytes)
    requires UnfilterRows(rest, |row|, bpp, row, rows - 1) == Some(tail)
    ensures UnfilterRows(filt, |row|, bpp, prior, rows) == Some(row + tail)
  {
    OneLine(line.filter, line.bytes, rest);
    UnfilterRestores(line.filter, row, prior, bpp, line.bytes);
  }

  /** Reading the lines from y on gives the rows from y on. */
  lemma {:induction false} RowsRoundTrip(rows: seq<seq<Byte>>, n: nat, bpp: nat, lines: seq<Line>, y: nat)
    requires LinesOk(rows, n, bpp, lines) && |lines| == |rows| && y <= |rows|
    requires |Above(rows, n, y)| == n
    ensures UnfilterRows(StreamFrom(lines, y), n, bpp, Above(rows, n, y), |rows| - y) == Some(FlatFrom(rows, y))
    decreases |rows| - y
  {
    if y < |rows| {
      assert LineOk(rows, n, bpp, lines, y);
      RowsRoundTrip(rows, n, bpp, lines, y + 1);
      UnfilterStep(StreamFrom(lines, y), lines[y], StreamFrom(lines, y + 1), bpp, rows[y], Above(rows, n, y),
                   |rows| - y, FlatFrom(rows, y + 1));
    }
  }

  /** One more line at the end of the stream. */
  lemma {:induction false} StreamSnoc(lines: seq<Line>, line: Line, y: nat)
    requires y <= |lines|
    ensures StreamFrom(lines + [line], y) == StreamFrom(lines, y) + [line.filter] + line.bytes
    decreases |lines| - y
  {
    if y < |lines| {
      StreamSnoc(lines, line, y + 1);
      Regroup([lines[y].filter] + lines[y].bytes, StreamFrom(lines, y + 1), [line.filter] + line.bytes);
    }
  }

  lemma LinesSnoc(rows: seq<seq<Byte>>, n: nat, bpp: nat, lines: seq<Line>, line: Line)
    requires LinesOk(rows, n, bpp, lines) && |lines| < |rows|
    requires line.filter < 5 && |rows[|lines|]| == n && |Above(rows, n, |lines|)| == n
    requires Filtered(line.filter, rows[|lines|], Above(rows, n, |lines|), bpp, line.bytes)
    ensures LinesOk(rows, n, bpp, lines + [line])
  {
    var more := lines + [line];
    forall y: nat | y < |more| ensures LineOk(rows, n, bpp, more, y) {
      if y < |lines| {
        assert LineOk(rows, n, bpp, lines, y);
      }
    }
  }

  /** The rows of an image, in the order in which they are written. */
  function Rows(im: Image): (rows: seq<seq<Byte>>)
    requires im.Valid()
    ensures |rows| == im.height
  {
    seq(im.height, y requires 0 <= y < im.height => assert im.Fits(y); im.Row(y))
  }

  function Pixels(im: Image): seq<Byte>
    requires im.Valid()
  {
    FlatFrom(Rows(im), 0)
  }

  // ---------------------------------------------------------------- which bytes these are

  /** Byte k of row y of n bytes is the k-th byte of the y-th row of the buffer, counted from the
      origin, or from the last row if the image is flipped. */
  predicate ByteInPlace(rows: seq<Byte>, im: Image, n: nat, y: nat, k: nat)
    requires |rows| == im.height * n
  {
    var r := if im.flip then im.height - 1 - y else y;
    var from, to := im.origin + im.stride * r + k, y * n + k;
    0 <= from < |im.pixels| && 0 <= to < |rows| && rows[to] == im.pixels[from]
  }

  /** The rows of an image, top row first: all of its bytes, each in its place. */
  ghost predicate InPlace(rows: seq<Byte>, im: Image) {
    && |rows| == im.height * (im.width * im.bpp)
    && (forall y: nat, k: nat {:trigger ByteInPlace(rows, im, im.width * im.bpp, y, k)} |
          y < im.height && k < im.width * im.bpp :: ByteInPlace(rows, im, im.width * im.bpp, y, k))
  }

  ghost predicate AllOf(rows: seq<seq<Byte>>, n: nat) {
    forall row | row in rows :: |row| == n
  }

  lemma {:induction false} FlatLength(rows: seq<seq<Byte>>, n: nat, y: nat)
    requires AllOf(rows, n) && y <= |rows|
    ensures |FlatFrom(rows, y)| == (|rows| - y) * n
    decreases |rows| - y
  {
    if y < |rows| {
      FlatLength(rows, n, y + 1);
      assert rows[y] in rows;
      assert (|rows| - y) * n == n + (|rows| - y - 1) * n;
    }
  }

  lemma {:induction false} FlatAt(rows: seq<seq<Byte>>, n: nat, from: nat, y: nat, k: nat)
    requires AllOf(rows, n) && from <= y < |rows| && k < n
    ensures |rows[y]| == n && 0 <= (y - from) * n + k < |FlatFrom(rows, from)|
    ensures FlatFrom(rows, from)[(y - from) * n + k] == rows[y][k]
    decreases y - from
  {
    assert rows[from] in rows && rows[y] in rows;
    if from < y {
      FlatAt(rows, n, from + 1, y, k);
      OneMore(y - from, n);
      Past(rows[from], FlatFrom(rows, from + 1), n, (y - from - 1) * n + k);
    } else {
      OneMore(0, n);
    }
  }

  lemma OneMore(m: nat, n: nat)
    ensures m == 0 ==> m * n == 0
    ensures m > 0 ==> m * n == n + (m - 1) * n
  {
  }

  lemma Past(row: seq<Byte>, rest: seq<Byte>, n: nat, i: nat)
    requires |row| == n && i < |rest|
    ensures n + i < |row + rest| && (row + rest)[n + i] == rest[i]
  {
  }

  lemma RowByte(im: Image, y: nat, k: nat)
    requires im.Valid() && y < im.height && k < im.width * im.bpp
    ensures var at := im.origin + im.stride * (if im.flip then im.height - 1 - y else y);
            0 <= at + k < |im.pixels| && k < |Rows(im)[y]| && Rows(im)[y][k] == im.pixels[at + k]
  {
    assert im.Fits(y);
  }

  lemma RowsEven(im: Image, n: nat)
    requires im.Valid() && n == im.width * im.bpp
    ensures AllOf(Rows(im), n)
  {
    forall row | row in Rows(im) ensures |row| == n {
      var y: nat :| y < im.height && Rows(im)[y] == row;
      assert im.Fits(y);
    }
  }

  /** The pixels of an image are its bytes in their places. */
  lemma PixelsInPlace(im: Image)
    requires im.Valid()
    ensures InPlace(Pixels(im), im)
  {
    var n := im.width * im.bpp;
    RowsEven(im, n);
    FlatLength(Rows(im), n, 0);
    forall y: nat, k: nat | y < im.height && k < n ensures ByteInPlace(Pixels(im), im, n, y, k) {
      FlatAt(Rows(im), n, 0, y, k);
      RowByte(im, y, k);
    }
  }

  // ---------------------------------------------------------------- choosing a filter

  function ResidueRow(filter: nat, row: seq<Byte>, prior: seq<Byte>, bpp: nat): seq<Byte>
    requires |row| == |prior|
  {
    seq(|row|, i requires 0 <= i < |row| => Residue(filter, row, prior, bpp, i))
  }

  /** The sum of the bytes' magnitudes, read as signed. */
  function Cost(line: seq<Byte>): nat {
    if line == [] then 0
    else
      var b: int := line[|line| - 1];
      Cost(line[..|line| - 1]) + Abs(if b < 128 then b else b - 256)
  }

  method Estimate(line: array<Byte>) returns (est: nat)
    ensures est == Cost(line[..])
  {
    est := 0;
    for i := 0 to line.Length
      invariant est == Cost(line[..i])
    {
      assert line[..i + 1][..i] == line[..i];
      var b: int := line[i];
      est := est + Abs(if b < 128 then b else b - 256);
    }
    assert line[..line.Length] == line[..];
  }

  /** The cost of a filter on the y-th row. */
  function CostOf(im: Image, y: nat, filter: nat): nat
    requires im.Valid() && y < im.height && im.Fits(y) && (y > 0 ==> im.Fits(y - 1))
  {
    Cost(ResidueRow(filter, im.Row(y), im.Prior(y), im.bpp))
  }

  method Try(im: Image, y: nat, filter: nat, line: array<Byte>) returns (est: nat)
    requires im.Valid() && y < im.height && filter < 5 && line.Length == im.LineBytes()
    requires im.Fits(y) && (y > 0 ==> im.Fits(y - 1))
    modifies line
    ensures est == CostOf(im, y, filter)
  {
    EncodeLine(im, y, filter, line);
    assert line[..] == ResidueRow(filter, im.Row(y), im.Prior(y), im.bpp);
    est := Estimate(line);
  }

  datatype Choice = Choice(filter: nat, cost: nat)

  /** The choice after trying the first n filters. */
  function Chosen(costs: seq<nat>, n: nat): Choice
    requires n <= |costs|
  {
    if n == 0 then Choice(0, 0x7FFF_FFFF)
    else
      var c := Chosen(costs, n - 1);
      if costs[n - 1] < c.cost then Choice(n - 1, costs[n - 1]) else c
  }

  lemma {:induction false} ChosenIs(costs: seq<nat>, n: nat)
    requires n <= |costs|
    ensures var c := Chosen(costs, n);
            && c.cost <= 0x7FFF_FFFF
            && (c == Choice(0, 0x7FFF_FFFF) || (c.filter < n && c.cost == costs[c.filter]))
  {
    if n > 0 {
      ChosenIs(costs, n - 1);
    }
  }

  /** The choice has the least cost, as far as costs stay below 2^31 - 1. */
  lemma {:induction false} ChosenIsLeast(costs: seq<nat>, n: nat, g: nat)
    requires g < n <= |costs| && costs[g] < 0x7FFF_FFFF
    ensures Chosen(costs, n).filter < n
    ensures Chosen(costs, n).cost == costs[Chosen(costs, n).filter] <= costs[g]
  {
    ChosenIs(costs, n);
    if g < n - 1 {
      ChosenIsLeast(costs, n - 1, g);
    } else {
      ChosenIs(costs, n - 1);
    }
  }

  ghost function Costs(im: Image, y: nat): seq<nat>
    requires im.Valid() && y < im.height && im.Fits(y) && (y > 0 ==> im.Fits(y - 1))
  {
    seq(5, g requires 0 <= g < 5 => CostOf(im, y, g))
  }

  method BestFilter(im: Image, y: nat, line: array<Byte>) returns (best: nat)
    requires im.Valid() && y < im.height && line.Length == im.LineBytes()
    requires im.Fits(y) && (y > 0 ==> im.Fits(y - 1))
    modifies line
    ensures best < 5 && best == Chosen(Costs(im, y), 5).filter
  {
    best := 0;
    var least := 0x7FFF_FFFF;
    ghost var costs := Costs(im, y);
    for filter := 0 to 5
      invariant Choice(best, least) == Chosen(costs, filter)
    {
      var est := Try(im, y, filter, line);
      if est < least {
        best, least := filter, est;
      }
    }
    ChosenIs(costs, 5);
  }

  /** The filter of a row: the forced one, or the best. */
  method FilterRow(im: Image, y: nat, force: int, line: array<Byte>) returns (filter: nat)
    requires im.Valid() && y < im.height && line.Length == im.LineBytes()
    requires im.Fits(y) && (y > 0 ==> im.Fits(y - 1))
    modifies line
    ensures filter < 5 && Filtered(filter, im.Row(y), im.Prior(y), im.bpp, line[..])
  {
    if 0 <= force < 5 {
      filter := force;
    } else {
      filter := BestFilter(im, y, line);
    }
    EncodeLine(im, y, filter, line);
  }

  lemma PriorIsAbove(im: Image, y: nat)
    requires im.Valid() && y < im.height
    ensures im.Fits(y) && (y > 0 ==> im.Fits(y - 1))
    ensures Rows(im)[y] == im.Row(y) && Above(Rows(im), im.LineBytes(), y) == im.Prior(y)
  {
    assert im.Fits(y) && (y > 0 ==> im.Fits(y - 1));
  }

  /** Filters every row, with the forced filter or the best one. */
  method FilterImage(im: Image, force: int) returns (filt: seq<Byte>, ghost lines: seq<Line>)
    requires im.Valid()
    ensures |lines| == im.height && LinesOk(Rows(im), im.LineBytes(), im.bpp, lines) && filt == StreamFrom(lines, 0)
  {
    filt, lines := [], [];
    var line := new Byte[im.LineBytes()](_ => 0);
    ghost var rows := Rows(im);
    for y := 0 to im.height
      invariant |lines| == y && LinesOk(rows, line.Length, im.bpp, lines) && filt == StreamFrom(lines, 0)
    {
      PriorIsAbove(im, y);
      var filter := FilterRow(im, y, force, line);
      LinesSnoc(rows, line.Length, im.bpp, lines, Line(filter, line[..]));
      StreamSnoc(lines, Line(filter, line[..]), 0);
      filt := filt + [filter] + line[..];
      lines := lines + [Line(filter, line[..])];
    }
  }

  /** The rows that a reader gets from decoded image data. */
  function ReadRows(decoded: Option<seq<Byte>>, im: Image): Option<seq<Byte>> {
    match decoded
    case None => None
    case Some(filt) => UnfilterRows(filt, im.LineBytes(), im.bpp, seq(im.LineBytes(), _ => 0), im.height)
  }

  lemma FilteredReadsBack(im: Image, filt: seq<Byte>, lines: seq<Line>, decoded: Option<seq<Byte>>)
    requires im.Valid() && |lines| == im.height > 0 && LinesOk(Rows(im), im.LineBytes(), im.bpp, lines)
    requires filt == StreamFrom(lines, 0) && decoded == if filt == [] then None else Some(filt)
    ensures ReadRows(decoded, im) == Some(Pixels(im))
  {
    RowsRoundTrip(Rows(im), im.LineBytes(), im.bpp, lines, 0);
  }

  /** The image data of a PNG file: inflating and unfiltering it gives back every row, in the
      order in which they were to be written. */
  method WriteImageData(image: Image, force: int, quality: int) returns (out: seq<Byte>)
    requires image.Packed().Valid()
    ensures image.height > 0 ==>
              ReadRows(Inflate.Decode(out), image.Packed()) == Some(Pixels(image.Packed()))
    ensures InPlace(Pixels(image.Packed()),
                    if image.stride == 0 then image.(stride := image.width * image.bpp) else image)
  {
    PixelsInPlace(image.Packed());
    var im := image;
    if im.stride == 0 {
      im := im.(stride := im.width * im.bpp);
    }
    var filt, lines := FilterImage(im, force);
    out := Zlib.Compress(filt, quality);
    if im.height > 0 {
      FilteredReadsBack(im, filt, lines, Inflate.Decode(out));
    }
  }
}
