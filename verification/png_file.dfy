/** PNG files: the writer's signature and chunks, and a reader for them. */
module PngFile {
  import opened Options
  import opened Bits
  import Crc
  import Inflate
  import Png

  // ---------------------------------------------------------------- the format

  function Be32(v: nat): seq<Byte> {
    [v / 0x100_0000 % 0x100, v / 0x1_0000 % 0x100, v / 0x100 % 0x100, v % 0x100]
  }

  function FromBe32(b: seq<Byte>): nat
    requires |b| == 4
  {
    var b0: int, b1: int, b2: int, b3: int := b[0], b[1], b[2], b[3];
    0x100_0000 * b0 + 0x1_0000 * b1 + 0x100 * b2 + b3
  }

  lemma Be32RoundTrip(v: nat)
    requires v < 0x1_0000_0000
    ensures FromBe32(Be32(v)) == v
  {
    Shifted(v);
    Digit(v);
    Digit(v / 0x100);
    Digit(v / 0x1_0000);
    assert v / 0x100_0000 < 0x100;
  }

  function Octets(b: seq<Byte>): seq<bv8> {
    seq(|b|, i requires 0 <= i < |b| => b[i] as bv8)
  }

  /** The checksum over the type and the data of a chunk. */
  function Checksum(b: seq<Byte>): seq<Byte> {
    Be32(Crc.Crc32(Octets(b)) as nat)
  }

  function Signature(): seq<Byte> {
    [137, 80, 78, 71, 13, 10, 26, 10]
  }

  /** The types of the three chunks that every image has. */
  function Ihdr(): seq<Byte> {
    [73, 72, 68, 82]
  }

  function Idat(): seq<Byte> {
    [73, 68, 65, 84]
  }

  function Iend(): seq<Byte> {
    [73, 69, 78, 68]
  }

  datatype Chunk = Chunk(tag: seq<Byte>, data: seq<Byte>)

  // ---------------------------------------------------------------- the reader

  datatype Read = Read(chunk: Chunk, rest: seq<Byte>)

  /** The chunk at the front (section 3.2 of RFC 2083), if it is whole and its checksum is right. */
  function ReadChunk(b: seq<Byte>): (r: Option<Read>)
    ensures r.Some? ==> |r.value.rest| < |b|
  {
    if |b| < 12 then None
    else
      var n := FromBe32(b[..4]);
      if |b| < 12 + n || b[8 + n..12 + n] != Checksum(b[4..8 + n]) then None
      else Some(Read(Chunk(b[4..8], b[8..8 + n]), b[12 + n..]))
  }

  /** Chunks whose type begins with a small letter may be skipped. */
  predicate Ancillary(tag: seq<Byte>)
    requires |tag| > 0
  {
    tag[0] / 32 % 2 == 1
  }

  /** The image data of all IDAT chunks up to IEND. */
  function ReadData(b: seq<Byte>, before: seq<Byte>): Option<seq<Byte>>
    decreases |b|
  {
    match ReadChunk(b)
    case None => None
    case Some(r) =>
      if r.chunk.tag == Iend() then Some(before)
      else if r.chunk.tag == Idat() then ReadData(r.rest, before + r.chunk.data)
      else if |r.chunk.tag| > 0 && Ancillary(r.chunk.tag) then ReadData(r.rest, before)
      else None
  }

  /** The components of a pixel by colour type: grey, RGB, grey with alpha, RGB with alpha. */
  function Components(colour: Byte): Option<nat> {
    match colour
    case 0 => Some(1)
    case 2 => Some(3)
    case 4 => Some(2)
    case 6 => Some(4)
    case _ => None
  }

  datatype Picture = Picture(width: nat, height: nat, components: nat, rows: seq<Byte>)

  /** The picture in decoded image data. */
  function Unpack(width: nat, height: nat, n: nat, filt: seq<Byte>): Option<Picture> {
    match Png.UnfilterRows(filt, width * n, n, seq(width * n, _ => 0), height)
    case None => None
    case Some(rows) => Some(Picture(width, height, n, rows))
  }

  /** Header and data of an image with eight bits to a component and no interlacing. */
  function ReadImage(header: Chunk, data: seq<Byte>): Option<Picture> {
    if header.tag != Ihdr() || |header.data| != 13 || header.data[8] != 8 || header.data[10..] != [0, 0, 0] then None
    else
      match Components(header.data[9])
      case None => None
      case Some(n) =>
        match Inflate.Decode(data)
        case None => None
        case Some(filt) => Unpack(FromBe32(header.data[..4]), FromBe32(header.data[4..8]), n, filt)
  }

  function ReadFile(b: seq<Byte>): Option<Picture> {
    if |b| < 8 || b[..8] != Signature() then None
    else
      match ReadChunk(b[8..])
      case None => None
      case Some(header) =>
        match ReadData(header.rest, [])
        case None => None
        case Some(data) => ReadImage(header.chunk, data)
  }

  // ---------------------------------------------------------------- the writer

  function ChunkBytes(c: Chunk): seq<Byte> {
    Be32(|c.data|) + c.tag + c.data + Checksum(c.tag + c.data)
  }

  method WriteChunk(tag: seq<Byte>, data: seq<Byte>) returns (out: seq<Byte>)
    ensures out == ChunkBytes(Chunk(tag, data))
  {
    out := Be32(|data|) + tag + data;
    var crc := Crc.ComputeLiteral(Octets(tag + data));
    out := out + Be32(crc as nat);
  }

  /** A written chunk reads back, whatever follows it. */
  lemma ChunkRoundTrip(c: Chunk, rest: seq<Byte>)
    requires |c.tag| == 4 && |c.data| < 0x1_0000_0000
    ensures ReadChunk(ChunkBytes(c) + rest) == Some(Read(c, rest))
  {
    var n := |c.data|;
    var b := ChunkBytes(c) + rest;
    Be32RoundTrip(n);
    ChunkParts(b, Be32(n), c.tag, c.data, Checksum(c.tag + c.data), rest);
  }

  lemma ChunkParts(b: seq<Byte>, length: seq<Byte>, tag: seq<Byte>, data: seq<Byte>, sum: seq<Byte>, rest: seq<Byte>)
    requires b == length + tag + data + sum + rest && |length| == |tag| == |sum| == 4
    ensures var n := |data|;
            && b[..4] == length && b[4..8] == tag && b[8..8 + n] == data
            && b[4..8 + n] == tag + data && b[8 + n..12 + n] == sum && b[12 + n..] == rest
  {
  }

  function Colour(n: nat): Byte
    requires 1 <= n <= 4
  {
    match n case 1 => 0 case 2 => 4 case 3 => 2 case _ => 6
  }

  function Header(width: nat, height: nat, n: nat): Chunk
    requires 1 <= n <= 4
  {
    Chunk(Ihdr(), Be32(width) + Be32(height) + [8, Colour(n), 0, 0, 0])
  }

  function FileBytes(width: nat, height: nat, n: nat, data: seq<Byte>): seq<Byte>
    requires 1 <= n <= 4
  {
    Signature() + ChunkBytes(Header(width, height, n)) + ChunkBytes(Chunk(Idat(), data)) + ChunkBytes(Chunk(Iend(), []))
  }

  lemma DataStep(b: seq<Byte>, before: seq<Byte>, c: Chunk, rest: seq<Byte>)
    requires ReadChunk(b) == Some(Read(c, rest))
    ensures c.tag == Iend() ==> ReadData(b, before) == Some(before)
    ensures c.tag == Idat() ==> ReadData(b, before) == ReadData(rest, before + c.data)
  {
  }

  lemma EndReads(end: seq<Byte>, before: seq<Byte>)
    requires end == ChunkBytes(Chunk(Iend(), []))
    ensures ReadData(end, before) == Some(before)
  {
    ChunkRoundTrip(Chunk(Iend(), []), []);
    assert end + [] == end;
    DataStep(end, before, Chunk(Iend(), []), []);
  }

  lemma DataRoundTrip(data: seq<Byte>, end: seq<Byte>)
    requires |data| < 0x1_0000_0000 && end == ChunkBytes(Chunk(Iend(), []))
    ensures ReadData(ChunkBytes(Chunk(Idat(), data)) + end, []) == Some(data)
  {
    ChunkRoundTrip(Chunk(Idat(), data), end);
    DataStep(ChunkBytes(Chunk(Idat(), data)) + end, [], Chunk(Idat(), data), end);
    assert [] + data == data;
    EndReads(end, data);
  }

  lemma HeaderRoundTrip(width: nat, height: nat, n: nat, data: seq<Byte>, filt: seq<Byte>)
    requires 1 <= n <= 4 && width < 0x1_0000_0000 && height < 0x1_0000_0000
    requires Inflate.Decode(data) == Some(filt)
    ensures ReadImage(Header(width, height, n), data) == Unpack(width, height, n, filt)
  {
    var d := Header(width, height, n).data;
    Be32RoundTrip(width);
    Be32RoundTrip(height);
    assert d[..4] == Be32(width) && d[4..8] == Be32(height) && d[10..] == [0, 0, 0];
  }

  lemma Parts(b: seq<Byte>, signature: seq<Byte>, header: seq<Byte>, body: seq<Byte>, end: seq<Byte>)
    requires b == signature + header + body + end && |signature| == 8
    ensures |b| >= 8 && b[..8] == signature && b[8..] == header + (body + end)
  {
  }

  lemma FileIs(b: seq<Byte>, header: Chunk, rest: seq<Byte>, data: seq<Byte>)
    requires |b| >= 8 && b[..8] == Signature()
    requires ReadChunk(b[8..]) == Some(Read(header, rest)) && ReadData(rest, []) == Some(data)
    ensures ReadFile(b) == ReadImage(header, data)
  {
  }

  lemma FileRoundTrip(width: nat, height: nat, n: nat, data: seq<Byte>)
    requires 1 <= n <= 4 && |data| < 0x1_0000_0000
    ensures ReadFile(FileBytes(width, height, n, data)) == ReadImage(Header(width, height, n), data)
  {
    var header, body, end := Header(width, height, n), Chunk(Idat(), data), ChunkBytes(Chunk(Iend(), []));
    Parts(FileBytes(width, height, n, data), Signature(), ChunkBytes(header), ChunkBytes(body), end);
    ChunkRoundTrip(header, ChunkBytes(body) + end);
    DataRoundTrip(data, end);
    FileIs(FileBytes(width, height, n, data), header, ChunkBytes(body) + end, data);
  }

  // ---------------------------------------------------------------- the file, byte by byte

  /** Four bytes from place i on, highest first. */
  function Number(b: seq<Byte>, i: nat): nat
    requires i + 4 <= |b|
  {
    var b0: int, b1: int, b2: int, b3: int := b[i], b[i + 1], b[i + 2], b[i + 3];
    ((b0 * 256 + b1) * 256 + b2) * 256 + b3
  }

  /** A chunk from place i on: its length, type and data, and the checksum of type and data. */
  ghost predicate ChunkAt(b: seq<Byte>, i: nat, tag: seq<Byte>, data: seq<Byte>) {
    var n := |data|;
    && i + 12 + n <= |b|
    && Number(b, i) == n && b[i + 4..i + 8] == tag && b[i + 8..i + 8 + n] == data
    && Number(b, i + 8 + n) == Crc.Crc32(Octets(tag + data)) as nat
  }

  lemma NumberIs(v: nat, before: seq<Byte>, rest: seq<Byte>)
    requires v < 0x1_0000_0000
    ensures Number(before + Be32(v) + rest, |before|) == v
  {
    Be32RoundTrip(v);
    var b := before + Be32(v) + rest;
    assert b[|before|..|before| + 4] == Be32(v);
    assert b[|before|] == Be32(v)[0] && b[|before| + 1] == Be32(v)[1];
    assert b[|before| + 2] == Be32(v)[2] && b[|before| + 3] == Be32(v)[3];
  }

  lemma ChunkIs(b: seq<Byte>, before: seq<Byte>, c: Chunk, rest: seq<Byte>)
    requires |c.tag| == 4 && |c.data| < 0x1_0000_0000 && b == before + ChunkBytes(c) + rest
    ensures ChunkAt(b, |before|, c.tag, c.data)
  {
    PartsAt(b, before, c.tag, c.data, Crc.Crc32(Octets(c.tag + c.data)) as nat, rest);
  }

  lemma PartsAt(b: seq<Byte>, before: seq<Byte>, tag: seq<Byte>, data: seq<Byte>, sum: nat, rest: seq<Byte>)
    requires |tag| == 4 && |data| < 0x1_0000_0000 && sum < 0x1_0000_0000
    requires b == before + (Be32(|data|) + tag + data + Be32(sum)) + rest
    ensures var i, n := |before|, |data|;
            && Number(b, i) == n && b[i + 4..i + 8] == tag && b[i + 8..i + 8 + n] == data
            && Number(b, i + 8 + n) == sum
  {
    var upTo := before + Be32(|data|) + tag + data;
    assert b == before + Be32(|data|) + (tag + data + Be32(sum) + rest);
    NumberIs(|data|, before, tag + data + Be32(sum) + rest);
    assert b == upTo + Be32(sum) + rest;
    NumberIs(sum, upTo, rest);
  }

  /** Section 11.2.2 of the PNG specification: size, eight bits to a component, colour type. */
  ghost predicate HeaderIs(h: seq<Byte>, width: nat, height: nat, n: nat) {
    && |h| == 13 && Number(h, 0) == width && Number(h, 4) == height && h[8] == 8
    && h[9] == (if n == 1 then 0 else if n == 2 then 4 else if n == 3 then 2 else 6)
    && h[10] == 0 && h[11] == 0 && h[12] == 0
  }

  /** A PNG file of three chunks: signature, IHDR, IDAT with the given data, and IEND. */
  ghost predicate IsPng(b: seq<Byte>, width: nat, height: nat, n: nat, data: seq<Byte>) {
    && |b| == 57 + |data|
    && b[..8] == [137, 80, 78, 71, 13, 10, 26, 10]
    && HeaderIs(b[16..29], width, height, n)
    && ChunkAt(b, 8, [73, 72, 68, 82], b[16..29])
    && ChunkAt(b, 33, [73, 68, 65, 84], data)
    && b[45 + |data|..] == [0, 0, 0, 0, 73, 69, 78, 68, 0xAE, 0x42, 0x60, 0x82]
  }

  lemma HeaderHolds(width: nat, height: nat, n: nat)
    requires 1 <= n <= 4 && width < 0x1_0000_0000 && height < 0x1_0000_0000
    ensures HeaderIs(Header(width, height, n).data, width, height, n)
  {
    var tail := [8, Colour(n), 0, 0, 0];
    NumberIs(width, [], Be32(height) + tail);
    NumberIs(height, Be32(width), tail);
    assert [] + Be32(width) + (Be32(height) + tail) == Be32(width) + Be32(height) + tail;
  }

  lemma EndIs(letters: seq<bv8>)
    requires letters == Octets(Iend() + [])
    ensures ChunkBytes(Chunk(Iend(), [])) == [0, 0, 0, 0, 73, 69, 78, 68, 0xAE, 0x42, 0x60, 0x82]
  {
    Crc.ChecksumOfEnd(letters);
    EndBytes(Checksum(Iend() + []));
  }

  lemma EndBytes(sum: seq<Byte>)
    requires sum == Be32(0xAE426082)
    ensures Be32(0) + Iend() + [] + sum == [0, 0, 0, 0, 73, 69, 78, 68, 0xAE, 0x42, 0x60, 0x82]
  {
    KnownNumbers();
    assert [0, 0, 0, 0] + [73, 69, 78, 68] + [] + [0xAE, 0x42, 0x60, 0x82] ==
           [0, 0, 0, 0, 73, 69, 78, 68, 0xAE, 0x42, 0x60, 0x82];
  }

  lemma KnownNumbers()
    ensures Be32(0) == [0, 0, 0, 0] && Be32(0xAE426082) == [0xAE, 0x42, 0x60, 0x82]
  {
  }

  lemma FileIsPng(b: seq<Byte>, width: nat, height: nat, n: nat, data: seq<Byte>)
    requires 1 <= n <= 4 && width < 0x1_0000_0000 && height < 0x1_0000_0000 && |data| < 0x1_0000_0000
    requires b == FileBytes(width, height, n, data)
    ensures IsPng(b, width, height, n, data)
  {
    var header, body, end := Header(width, height, n), Chunk(Idat(), data), ChunkBytes(Chunk(Iend(), []));
    HeaderHolds(width, height, n);
    ChunkIs(b, Signature(), header, ChunkBytes(body) + end);
    ChunkIs(b, Signature() + ChunkBytes(header), body, end);
    EndIs(Octets(Iend() + []));
    assert b[16..29] == header.data && b[45 + |data|..] == end;
  }

  /** Unpacking what was filtered gives the rows. */
  lemma UnpackIs(im: Png.Image, data: seq<Byte>)
    requires im.Valid() && Png.ReadRows(Inflate.Decode(data), im) == Some(Png.Pixels(im))
    ensures Inflate.Decode(data).Some?
    ensures Unpack(im.width, im.height, im.bpp, Inflate.Decode(data).value) ==
            Some(Picture(im.width, im.height, im.bpp, Png.Pixels(im)))
  {
  }

  /** The PNG file of an image: reading it gives back the image's size, its components and every
      row in the order in which they were to be written. Lengths are 32 bits wide. */
  method WriteFile(image: Png.Image, force: int, quality: int) returns (out: seq<Byte>)
    requires image.Packed().Valid() && 1 <= image.bpp <= 4
    requires image.width < 0x8000_0000 && image.height < 0x8000_0000
    ensures image.height > 0 && |out| < 0x1_0000_0000 ==>
              ReadFile(out) == Some(Picture(image.width, image.height, image.bpp, Png.Pixels(image.Packed())))
    ensures Png.InPlace(Png.Pixels(image.Packed()),
                        if image.stride == 0 then image.(stride := image.width * image.bpp) else image)
    ensures |out| < 0x1_0000_0000 ==> exists data :: IsPng(out, image.width, image.height, image.bpp, data)
  {
    var data := Png.WriteImageData(image, force, quality);
    out := Signature();
    var header := WriteChunk(Ihdr(), Be32(image.width) + Be32(image.height) + [8, Colour(image.bpp), 0, 0, 0]);
    var body := WriteChunk(Idat(), data);
    var end := WriteChunk(Iend(), []);
    out := out + header + body + end;
    assert out == FileBytes(image.width, image.height, image.bpp, data);
    if |out| < 0x1_0000_0000 {
      FileIsPng(out, image.width, image.height, image.bpp, data);
    }
    if image.height > 0 && |out| < 0x1_0000_0000 {
      FileRoundTrip(image.width, image.height, image.bpp, data);
      UnpackIs(image.Packed(), data);
      HeaderRoundTrip(image.width, image.height, image.bpp, data, Inflate.Decode(data).value);
    }
  }
}
