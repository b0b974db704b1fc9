/** WAV files (sidecar/audio.js): written as 16 kHz mono PCM, read by scanning for the data chunk. */
module WavFile {
  import opened Outcomes
  import opened FrameBuffer

  const RIFF: Bytes := [0x52, 0x49, 0x46, 0x46]
  const WAVE: Bytes := [0x57, 0x41, 0x56, 0x45]
  const FMT: Bytes := [0x66, 0x6D, 0x74, 0x20]
  const DATA: Bytes := [0x64, 0x61, 0x74, 0x61]
  const TWO32: nat := 0x1_0000_0000

  const NOT_WAV: nat := 1
  const NO_DATA: nat := 2
  const OUT_OF_RANGE: nat := 3

  function U16(n: nat): Bytes
    requires n < 0x1_0000
  {
    [n % 0x100, n / 0x100]
  }

  function U32(n: nat): Bytes
    requires n < TWO32
  {
    [n % 0x100, n / 0x100 % 0x100, n / 0x1_0000 % 0x100, n / 0x100_0000]
  }

  function U32At(buf: Bytes, off: nat): nat
    requires off + 4 <= |buf|
  {
    buf[off] as int + buf[off + 1] as int * 0x100 + buf[off + 2] as int * 0x1_0000 + buf[off + 3] as int * 0x100_0000
  }

  lemma U32ReadsBack(n: nat, buf: Bytes, off: nat)
    requires n < TWO32 && off + 4 <= |buf| && buf[off..off + 4] == U32(n)
    ensures U32At(buf, off) == n
  {
    var four := buf[off..off + 4];
    assert buf[off] == four[0] && buf[off + 1] == four[1] && buf[off + 2] == four[2] && buf[off + 3] == four[3];
    assert n / 0x100 == n / 0x1_0000 * 0x100 + n / 0x100 % 0x100;
    assert n / 0x1_0000 == n / 0x100_0000 * 0x100 + n / 0x1_0000 % 0x100;
  }

  /** The 'ascii' decoder drops the high bit of every byte, so a tag matches modulo 128. */
  predicate TagAt(buf: Bytes, off: nat, tag: Bytes) {
    off + |tag| <= |buf| && forall i :: 0 <= i < |tag| ==> buf[off + i] % 128 == tag[i]
  }

  // ---------- writing ----------

  /** The fmt chunk of 16 kHz mono 16-bit PCM, after its id and size. */
  function Format(): (f: Bytes)
    ensures |f| == 16
  {
    U16(1) + U16(1) + U32(16000) + U32(32000) + U16(2) + U16(16)
  }

  function FormatChunk(): (c: Bytes)
    ensures |c| == 24
  {
    FMT + U32(16) + Format()
  }

  function DataChunk(body: Bytes): Bytes
    requires |body| < TWO32
  {
    DATA + U32(|body|) + body
  }

  /** The header writer refuses sizes that do not fit 32 bits. */
  function Write(buffers: seq<Bytes>): Result<Bytes> {
    var data := Concat(buffers);
    if 36 + |data| >= TWO32 then Err(OUT_OF_RANGE)
    else Ok(RIFF + U32(36 + |data|) + WAVE + (FormatChunk() + DataChunk(data)))
  }

  // ---------- reading ----------

  /** The offset of the chunk after the one at `off`, which is padded to an even length. */
  function NextChunk(buf: Bytes, off: nat): (next: nat)
    requires off + 8 <= |buf|
    ensures next > off
  {
    var size := U32At(buf, off + 4);
    off + 8 + size + size % 2
  }

  /** The data chunk the scan from `off` finds. */
  function FindData(buf: Bytes, off: nat): Option<nat>
    decreases |buf| - off
  {
    if off + 8 > |buf| then None
    else if TagAt(buf, off, DATA) then Some(off)
    else FindData(buf, NextChunk(buf, off))
  }

  /** `slice`, which stops at the end of the buffer. */
  function Slice(buf: Bytes, from: nat, to: nat): Bytes
    requires from <= |buf| && from <= to
  {
    if to <= |buf| then buf[from..to] else buf[from..]
  }

  function Body(buf: Bytes, off: nat): Bytes
    requires off + 8 <= |buf|
  {
    Slice(buf, off + 8, off + 8 + U32At(buf, off + 4))
  }

  lemma {:induction false} FoundIsInside(buf: Bytes, off: nat)
    ensures FindData(buf, off).Some? ==> FindData(buf, off).value + 8 <= |buf|
    decreases |buf| - off
  {
    if off + 8 <= |buf| && !TagAt(buf, off, DATA) { FoundIsInside(buf, NextChunk(buf, off)); }
  }

  function Read(buf: Bytes): Result<Bytes> {
    if !TagAt(buf, 0, RIFF) || !TagAt(buf, 8, WAVE) then Err(NOT_WAV)
    else
      FoundIsInside(buf, 12);
      match FindData(buf, 12)
      case None => Err(NO_DATA)
      case Some(off) => Ok(Body(buf, off))
  }

  /** readWav16k: the scan terminates on every byte string. */
  method ReadWav(buf: Bytes) returns (r: Result<Bytes>)
    ensures r == Read(buf)
  {
    if !TagAt(buf, 0, RIFF) || !TagAt(buf, 8, WAVE) { return Err(NOT_WAV); }
    var off := 12;
    while off + 8 <= |buf|
      invariant FindData(buf, 12) == FindData(buf, off)
      decreases |buf| - off
    {
      var size := U32At(buf, off + 4);
      if TagAt(buf, off, DATA) { return Ok(Slice(buf, off + 8, off + 8 + size)); }
      off := off + 8 + size + size % 2;
    }
    r := Err(NO_DATA);
  }

  // ---------- what the scan finds ----------

  /** The chunk boundaries a reader passes, starting at `off`. */
  ghost predicate IsScan(buf: Bytes, offs: seq<nat>) {
    && offs != []
    && (forall i :: 0 <= i < |offs| ==> offs[i] + 8 <= |buf|)
    && (forall i :: 0 < i < |offs| ==> offs[i] == NextChunk(buf, offs[i - 1]))
  }

  /** It is the first data chunk: every earlier chunk has another id. */
  ghost predicate IsFirstData(buf: Bytes, offs: seq<nat>) {
    && IsScan(buf, offs)
    && TagAt(buf, offs[|offs| - 1], DATA)
    && forall i :: 0 <= i < |offs| - 1 ==> !TagAt(buf, offs[i], DATA)
  }

  lemma {:induction false} ScanIsExact(buf: Bytes, off: nat, offs: seq<nat>)
    requires IsFirstData(buf, offs) && offs[0] == off
    ensures FindData(buf, off) == Some(offs[|offs| - 1])
    decreases |offs|
  {
    if |offs| > 1 {
      assert !TagAt(buf, offs[0], DATA);
      ScanIsExact(buf, offs[1], offs[1..]);
    }
  }

  lemma {:induction false} ScanIsFirst(buf: Bytes, off: nat) returns (offs: seq<nat>)
    requires FindData(buf, off).Some?
    ensures IsFirstData(buf, offs) && offs[0] == off && FindData(buf, off) == Some(offs[|offs| - 1])
    decreases |buf| - off
  {
    if TagAt(buf, off, DATA) {
      offs := [off];
    } else {
      var rest := ScanIsFirst(buf, NextChunk(buf, off));
      offs := [off] + rest;
      assert forall i :: 0 < i < |offs| ==> offs[i] == rest[i - 1];
    }
  }

  /** On every RIFF/WAVE byte string the reader answers with the first data chunk, and refuses exactly
      when there is none. */
  lemma ReadIsTheFirstDataChunk(buf: Bytes)
    requires TagAt(buf, 0, RIFF) && TagAt(buf, 8, WAVE)
    ensures Read(buf).Ok? <==> exists offs :: IsFirstData(buf, offs) && offs[0] == 12
    ensures forall offs :: IsFirstData(buf, offs) && offs[0] == 12 ==> Read(buf) == Ok(Body(buf, offs[|offs| - 1]))
  {
    if Read(buf).Ok? {
      var offs := ScanIsFirst(buf, 12);
    }
    forall offs | IsFirstData(buf, offs) && offs[0] == 12 ensures Read(buf) == Ok(Body(buf, offs[|offs| - 1])) {
      ScanIsExact(buf, 12, offs);
    }
  }

  // ---------- round trips ----------

  datatype Chunk = Chunk(id: Bytes, body: Bytes)

  predicate ValidChunk(c: Chunk) {
    |c.id| == 4 && |c.body| < TWO32
  }

  function Encode(c: Chunk): Bytes
    requires ValidChunk(c)
  {
    c.id + U32(|c.body|) + c.body + if |c.body| % 2 == 1 then [0] else []
  }

  function EncodeAll(cs: seq<Chunk>): Bytes
    requires forall i :: 0 <= i < |cs| ==> ValidChunk(cs[i])
  {
    if cs == [] then [] else Encode(cs[0]) + EncodeAll(cs[1..])
  }

  /** A chunk starts at `off` and is followed by `rest`. */
  lemma ChunkAt(buf: Bytes, off: nat, c: Chunk, rest: Bytes)
    requires ValidChunk(c) && off <= |buf| && buf[off..] == Encode(c) + rest
    ensures off + 8 <= |buf| && U32At(buf, off + 4) == |c.body|
    ensures NextChunk(buf, off) == off + |Encode(c)| <= |buf| && buf[NextChunk(buf, off)..] == rest
    ensures TagAt(buf, off, DATA) <==> TagAt(c.id, 0, DATA)
    ensures Body(buf, off) == c.body
  {
    var t := buf[off..];
    assert t[..4] == c.id && t[4..8] == U32(|c.body|);
    assert buf[off + 4..off + 8] == t[4..8];
    U32ReadsBack(|c.body|, buf, off + 4);
    assert forall i :: 0 <= i < 4 ==> buf[off + i] == t[i] == c.id[i];
    var n := |Encode(c)|;
    assert t[n..] == rest && buf[off + n..] == t[n..];
    assert t[8..8 + |c.body|] == c.body && buf[off + 8..off + 8 + |c.body|] == t[8..8 + |c.body|];
  }

  lemma {:induction false} SkipsOtherChunks(buf: Bytes, off: nat, before: seq<Chunk>, data: Chunk, rest: Bytes)
    requires (forall i :: 0 <= i < |before| ==> ValidChunk(before[i]) && !TagAt(before[i].id, 0, DATA))
    requires ValidChunk(data) && TagAt(data.id, 0, DATA)
    requires off <= |buf| && buf[off..] == EncodeAll(before) + (Encode(data) + rest)
    ensures FindData(buf, off).Some? && FindData(buf, off).value + 8 <= |buf|
    ensures Body(buf, FindData(buf, off).value) == data.body
    decreases |before|
  {
    if before == [] {
      assert buf[off..] == Encode(data) + rest;
      ChunkAt(buf, off, data, rest);
    } else {
      var tail := EncodeAll(before[1..]) + (Encode(data) + rest);
      assert buf[off..] == Encode(before[0]) + tail;
      ChunkAt(buf, off, before[0], tail);
      SkipsOtherChunks(buf, NextChunk(buf, off), before[1..], data, rest);
    }
  }

  /** Twelve bytes of RIFF header, then the chunks. */
  lemma HeaderMatches(size: Bytes, tail: Bytes)
    requires |size| == 4
    ensures TagAt(RIFF + size + WAVE + tail, 0, RIFF) && TagAt(RIFF + size + WAVE + tail, 8, WAVE)
    ensures (RIFF + size + WAVE + tail)[12..] == tail
  {
    var buf := RIFF + size + WAVE + tail;
    assert buf[..4] == RIFF && buf[8..12] == WAVE;
    assert forall i :: 0 <= i < 4 ==> buf[i] == buf[..4][i] && buf[8 + i] == buf[8..12][i];
  }

  /** Any RIFF/WAVE file: whatever chunks come before the data chunk, padded or not, and whatever comes
      after it, the reader returns the data chunk's body. */
  lemma {:induction false} ReadInvertsEncoding(size: Bytes, before: seq<Chunk>, data: Chunk, rest: Bytes)
    requires |size| == 4
    requires (forall i :: 0 <= i < |before| ==> ValidChunk(before[i]) && !TagAt(before[i].id, 0, DATA))
    requires ValidChunk(data) && TagAt(data.id, 0, DATA)
    ensures Read(RIFF + size + WAVE + (EncodeAll(before) + (Encode(data) + rest))) == Ok(data.body)
  {
    var tail := EncodeAll(before) + (Encode(data) + rest);
    HeaderMatches(size, tail);
    SkipsOtherChunks(RIFF + size + WAVE + tail, 12, before, data, rest);
  }

  lemma ReadsWritten(size: Bytes, body: Bytes)
    requires |size| == 4 && |body| < TWO32
    ensures Read(RIFF + size + WAVE + (FormatChunk() + DataChunk(body))) == Ok(body)
  {
    var tail := FormatChunk() + DataChunk(body);
    var buf := RIFF + size + WAVE + tail;
    HeaderMatches(size, tail);
    assert Encode(Chunk(FMT, Format())) == FormatChunk();
    ChunkAt(buf, 12, Chunk(FMT, Format()), DataChunk(body));
    assert FMT[0] != DATA[0];
    UnpaddedDataAt(buf, NextChunk(buf, 12), body);
  }

  /** The round trip: writing succeeds exactly when the payload fits the 32-bit size field, and reading
      what was written returns the concatenated buffers. */
  lemma {:induction false} WavRoundTrip(buffers: seq<Bytes>)
    ensures Write(buffers).Ok? <==> 36 + |Concat(buffers)| < TWO32
    ensures Write(buffers).Ok? ==> Read(Write(buffers).value) == Ok(Concat(buffers))
  {
    var body := Concat(buffers);
    if 36 + |body| < TWO32 {
      ReadsWritten(U32(36 + |body|), body);
      hide Read, Concat, FormatChunk, DataChunk, U32;
    }
  }

  /** A final data chunk is read back even though the writer leaves out its padding. */
  lemma UnpaddedDataAt(buf: Bytes, off: nat, body: Bytes)
    requires off <= |buf| && |body| < TWO32 && buf[off..] == DATA + U32(|body|) + body
    ensures FindData(buf, off) == Some(off) && off + 8 <= |buf| && Body(buf, off) == body
  {
    var t := buf[off..];
    assert t[4..8] == U32(|body|) && buf[off + 4..off + 8] == t[4..8];
    U32ReadsBack(|body|, buf, off + 4);
    assert forall i :: 0 <= i < 4 ==> buf[off + i] == t[i] == DATA[i];
    assert t[8..] == body && buf[off + 8..] == t[8..];
  }

  function U16At(buf: Bytes, off: nat): nat
    requires off + 2 <= |buf|
  {
    buf[off] as int + buf[off + 1] as int * 0x100
  }

  lemma U16ReadsBack(n: nat, buf: Bytes, off: nat)
    requires n < 0x1_0000 && off + 2 <= |buf| && buf[off..off + 2] == U16(n)
    ensures U16At(buf, off) == n
  {
    var two := buf[off..off + 2];
    assert buf[off] == two[0] && buf[off + 1] == two[1];
  }

  lemma WrittenLayout(size: Bytes, body: Bytes)
    requires |size| == 4 && |body| < TWO32
    ensures var f := RIFF + size + WAVE + (FormatChunk() + DataChunk(body));
      && |f| == 44 + |body| && f[..4] == RIFF && f[4..8] == size && f[8..12] == WAVE && f[12..16] == FMT
      && f[16..20] == U32(16) && f[20..22] == U16(1) && f[22..24] == U16(1) && f[24..28] == U32(16000)
      && f[28..32] == U32(32000) && f[32..34] == U16(2) && f[34..36] == U16(16)
      && f[36..40] == DATA && f[40..44] == U32(|body|) && f[44..] == body
  {
    var f := RIFF + size + WAVE + (FormatChunk() + DataChunk(body));
    assert f[12..36] == FormatChunk() && f[36..] == DataChunk(body);
    var c := FormatChunk();
    assert c[..4] == FMT && c[4..8] == U32(16) && c[8..] == Format();
    assert forall i, j :: 0 <= i <= j <= 24 ==> f[12 + i..12 + j] == c[i..j];
    assert f[40..44] == DataChunk(body)[4..8] && f[36..40] == DataChunk(body)[..4];
    hide FormatChunk, Format, DataChunk;
    FormatLayout(c);
  }

  lemma FormatLayout(c: Bytes)
    requires c == FormatChunk()
    ensures c[8..10] == U16(1) && c[10..12] == U16(1) && c[12..16] == U32(16000)
    ensures c[16..20] == U32(32000) && c[20..22] == U16(2) && c[22..24] == U16(16)
  {
  }

  /** What the header of a written file says: uncompressed mono of 16 bits at 16 kHz, rates and alignment that fit,
      and the sizes of the file and of its data. */
  lemma {:induction false} HeaderTells(buffers: seq<Bytes>)
    requires Write(buffers).Ok?
    ensures var f := Write(buffers).value;
      && |f| == 44 + |Concat(buffers)|
      && U32At(f, 4) == |f| - 8 && U32At(f, 16) == 16 && U32At(f, 40) == |f| - 44
      && U16At(f, 20) == 1
      && var channels, rate, bits := U16At(f, 22), U32At(f, 24), U16At(f, 34);
      && channels == 1 && rate == 16000 && bits == 16
      && U16At(f, 32) == channels * bits / 8 && U32At(f, 28) == rate * channels * bits / 8
      && f[44..] == Concat(buffers)
  {
    var body := Concat(buffers);
    WrittenLayout(U32(36 + |body|), body);
    var f := Write(buffers).value;
    hide Write, FormatChunk, Format, DataChunk, U32, U16, U32At, U16At, Concat;
    FieldsReadBack(f, |body|);
  }

  lemma FieldsReadBack(f: Bytes, len: nat)
    requires 36 + len < TWO32 && |f| >= 44
    requires f[4..8] == U32(36 + len) && f[16..20] == U32(16) && f[20..22] == U16(1) && f[22..24] == U16(1)
    requires f[24..28] == U32(16000) && f[28..32] == U32(32000) && f[32..34] == U16(2) && f[34..36] == U16(16)
    requires f[40..44] == U32(len)
    ensures U32At(f, 4) == 36 + len && U32At(f, 16) == 16 && U32At(f, 24) == 16000 && U32At(f, 28) == 32000
    ensures U32At(f, 40) == len
    ensures U16At(f, 20) == 1 && U16At(f, 22) == 1 && U16At(f, 32) == 2 && U16At(f, 34) == 16
  {
    hide U32, U16, U32At, U16At;
    U32ReadsBack(36 + len, f, 4); U32ReadsBack(16, f, 16); U32ReadsBack(16000, f, 24);
    U32ReadsBack(32000, f, 28); U32ReadsBack(len, f, 40);
    U16ReadsBack(1, f, 20); U16ReadsBack(1, f, 22); U16ReadsBack(2, f, 32); U16ReadsBack(16, f, 34);
  }

  /** writeWav16k: the header is filled field by field. */
  method WriteWav(buffers: seq<Bytes>) returns (r: Result<Bytes>)
    ensures r == Write(buffers)
  {
    var data: Bytes := [];
    for i := 0 to |buffers|
      invariant data + Concat(buffers[i..]) == Concat(buffers)
    {
      assert buffers[i..][1..] == buffers[i + 1..];
      data := data + buffers[i];
    }
    assert data == Concat(buffers);
    if 36 + |data| >= TWO32 { return Err(OUT_OF_RANGE); }
    var header := new Byte[44](_ => 0);
    FillRiff(header, 36 + |data|);
    FillFormat(header);
    FillData(header, |data|);
    assert header[..0] == [] && header[..44] == header[..];
    r := Ok(header[..] + data);
    Regroup(RIFF + U32(36 + |data|) + WAVE, FormatChunk(), DATA + U32(|data|), data);
  }

  lemma Regroup(a: Bytes, b: Bytes, c: Bytes, d: Bytes)
    ensures a + b + c + d == a + (b + (c + d))
  {
  }

  method FillRiff(header: array<Byte>, size: nat)
    requires header.Length == 44 && size < TWO32
    modifies header
    ensures header[..12] == RIFF + U32(size) + WAVE
  {
    Put(header, 0, RIFF);
    Put(header, 4, U32(size));
    Put(header, 8, WAVE);
    assert [] + RIFF == RIFF;
  }

  method FillFormat(header: array<Byte>)
    requires header.Length == 44
    modifies header
    ensures header[..36] == old(header[..12]) + FormatChunk()
  {
    Put(header, 12, FMT);
    Put(header, 16, U32(16));
    Put(header, 20, U16(1));
    Put(header, 22, U16(1));
    Put(header, 24, U32(16000));
    Put(header, 28, U32(32000));
    Put(header, 32, U16(2));
    Put(header, 34, U16(16));
    Regroup8(old(header[..12]), FMT, U32(16), U16(1), U16(1), U32(16000), U32(32000), U16(2), U16(16));
  }

  lemma Regroup8(p: Bytes, a: Bytes, b: Bytes, c: Bytes, d: Bytes, e: Bytes, f: Bytes, g: Bytes, h: Bytes)
    ensures p + a + b + c + d + e + f + g + h == p + (a + b + (c + d + e + f + g + h))
  {
    assert p + a + b == p + (a + b);
    Assoc6(p + (a + b), c, d, e, f, g, h);
    assert p + (a + b) + (c + d + e + f + g + h) == p + (a + b + (c + d + e + f + g + h));
  }

  lemma Assoc6(p: Bytes, c: Bytes, d: Bytes, e: Bytes, f: Bytes, g: Bytes, h: Bytes)
    ensures p + c + d + e + f + g + h == p + (c + d + e + f + g + h)
  {
    assert p + c + d == p + (c + d);
    assert p + (c + d) + e == p + (c + d + e);
    assert p + (c + d + e) + f == p + (c + d + e + f);
    assert p + (c + d + e + f) + g == p + (c + d + e + f + g);
    assert p + (c + d + e + f + g) + h == p + (c + d + e + f + g + h);
  }

  method FillData(header: array<Byte>, size: nat)
    requires header.Length == 44 && size < TWO32
    modifies header
    ensures header[..44] == old(header[..36]) + (DATA + U32(size))
  {
    Put(header, 36, DATA);
    Put(header, 40, U32(size));
    assert old(header[..36]) + DATA + U32(size) == old(header[..36]) + (DATA + U32(size));
  }

  /** One field of the header, written in place. */
  method Put(header: array<Byte>, at: nat, bytes: Bytes)
    requires at + |bytes| <= header.Length
    modifies header
    ensures header[..at + |bytes|] == old(header[..at]) + bytes
    ensures header[at + |bytes|..] == old(header[at + |bytes|..])
  {
    for i := 0 to |bytes|
      invariant header[..at + i] == old(header[..at]) + bytes[..i]
      invariant forall j :: at + i <= j < header.Length ==> header[j] == old(header[j])
    {
      header[at + i] := bytes[i];
    }
  }

  /** Frames of 16-bit samples at 16 kHz that last `frameMs` milliseconds. */
  lemma SplitSizes(buf: Bytes, frameMs: nat)
    requires frameMs > 0
    ensures forall k :: 0 <= k < |Frames(buf, 32 * frameMs)| ==>
              |Frames(buf, 32 * frameMs)[k]| * 1000 == 16000 * 2 * frameMs
  {
    FramesAreTheStream(buf, 32 * frameMs);
  }

  /** splitIntoFrames: complete frames of `frameMs` milliseconds, the rest is left out. */
  method SplitIntoFrames(buf: Bytes, frameMs: nat) returns (frames: seq<Bytes>)
    requires frameMs > 0
    ensures frames == Frames(buf, 32 * frameMs)
    ensures forall k :: 0 <= k < |frames| ==> |frames[k]| * 1000 == 16000 * 2 * frameMs
  {
    var frameBytes := 32 * frameMs;
    frames := [];
    var i := 0;
    while i + frameBytes <= |buf|
      invariant i <= |buf| && frames + Frames(buf[i..], frameBytes) == Frames(buf, frameBytes)
      decreases |buf| - i
    {
      assert buf[i..][..frameBytes] == buf[i..i + frameBytes] && buf[i..][frameBytes..] == buf[i + frameBytes..];
      frames := frames + [buf[i..i + frameBytes]];
      i := i + frameBytes;
    }
    assert frames + [] == frames;
    hide Frames;
    SplitSizes(buf, frameMs);
  }
}
