/**
 The WAV reader of the fdk-aac example programs: a walk over the chunks of a
 RIFF file, then reads bounded by the length of the "data" chunk.  Reading past
 the end yields all-ones bits, as or-ing in EOF does; file offsets are wide
 enough for every 32-bit length.
 */
module WavReader {
  import opened Basics

  const RIFF: Bytes := [82, 73, 70, 70]
  const WAVE: Bytes := [87, 65, 86, 69]
  const FMT: Bytes := [102, 109, 116, 32]
  const DATA: Bytes := [100, 97, 116, 97]

  const UINT32: int := 0x1_0000_0000
  const STREAMING: int := 0x7fff_0000
  const EXTENSIBLE: int := 0xfffe

  datatype Header = Header(format: int, channels: int, sampleRate: int, byteRate: int, blockAlign: int, bits: int)

  /** The reader: file position, header fields, bytes of audio left. */
  datatype Reader = Reader(pos: nat, header: Header, dataLength: nat, streamed: bool)

  const Fresh := Reader(0, Header(0, 0, 0, 0, 0, 0), 0, false)

  // ----- Reading bytes and numbers -----

  /** The bytes a read of `n` gets. */
  function Avail(file: Bytes, pos: nat, n: nat): (r: Bytes)
    ensures |r| <= n && (pos + n <= |file| ==> r == file[pos..pos + n])
    ensures |r| > 0 ==> pos + |r| <= |file|
    ensures forall i :: 0 <= i < |r| ==> r[i] == file[pos + i]
    ensures |r| < n ==> pos + |r| >= |file|
  {
    if pos >= |file| then [] else file[pos..Min(pos + n, |file|)]
  }

  function AllOnes(n: nat): nat { if n == 0 then 0 else 255 + 256 * AllOnes(n - 1) }

  /** A little-endian number of `n` bytes; missing bytes read as ones. */
  function Little(b: Bytes, n: nat): nat {
    if n == 0 then 0 else if b == [] then AllOnes(n) else b[0] as int + 256 * Little(b[1..], n - 1)
  }

  /** Storing a 32-bit value in an `int`. */
  function Signed(x: int): int { if x >= 0x8000_0000 then x - UINT32 else x }

  function Number(file: Bytes, pos: nat, n: nat): nat { Little(Avail(file, pos, n), n) }

  function Past(file: Bytes, pos: nat, n: nat): nat { pos + |Avail(file, pos, n)| }

  /** `skip` reads and drops; its count is an `int`. */
  function Skipped(file: Bytes, pos: nat, n: int): nat { if n < 0 || n >= 0x8000_0000 then pos else Past(file, pos, n) }

  // ----- One subchunk -----

  /** After one round of the inner loop: go on, leave the loop, or return at once. */
  datatype Round = Continue(r: Reader, dataPos: nat, length: int)
                 | Stop(r: Reader, dataPos: nat, length: int)
                 | Return(r: Reader, dataPos: nat)

  /** The first 16 bytes of "fmt ". */
  function BasicHeader(file: Bytes, pos: nat): (r: (Header, nat))
    ensures pos <= r.1
  {
    var p1 := Past(file, pos, 2);
    var p2 := Past(file, p1, 2);
    var p3 := Past(file, p2, 4);
    var p4 := Past(file, p3, 4);
    var p5 := Past(file, p4, 2);
    (Header(Number(file, pos, 2), Number(file, p1, 2), Signed(Number(file, p2, 4)),
            Signed(Number(file, p3, 4)), Number(file, p4, 2), Number(file, p5, 2)), Past(file, p5, 2))
  }

  function FormatChunk(file: Bytes, r: Reader, dataPos: nat, size: int, rest: int): Round {
    if size < 16 then Stop(r, dataPos, rest)
    else
      var (h, p) := BasicHeader(file, r.pos);
      if h.format != EXTENSIBLE then
        Continue(r.(header := h, pos := Skipped(file, p, size - 16)), dataPos, rest - size)
      else if size < 28 then Stop(r.(header := h, pos := p), dataPos, rest)
      else
        var q := Skipped(file, p, 8);
        var h' := h.(format := Signed(Number(file, q, 4)));
        Continue(r.(header := h', pos := Skipped(file, Past(file, q, 4), size - 28)), dataPos, rest - size)
  }

  function SubChunk(file: Bytes, r: Reader, dataPos: nat, length: int): (next: Round)
    requires length >= 8
    ensures next.Continue? ==> next.length < length
    ensures r.pos <= next.r.pos
  {
    var tag := Avail(file, r.pos, 4);
    var p := r.pos + |tag|;
    if |tag| < 4 then Stop(r.(pos := p), dataPos, length)
    else
      var size, q, rest := Number(file, p, 4), Past(file, p, 4), length - 8;
      if rest < size then Stop(r.(pos := q), dataPos, rest)
      else if tag == FMT then FormatChunk(file, r.(pos := q), dataPos, size, rest)
      else if tag == DATA then
        if size == 0 || r.streamed then Return(r.(pos := q, dataLength := size, streamed := true), q)
        else Continue(r.(pos := q + size, dataLength := size), q, rest - size)
      else Continue(r.(pos := Skipped(file, q, size)), dataPos, rest - size)
  }

  /** The inner loop; `Stop` when it runs out of length too. */
  function SubChunks(file: Bytes, r: Reader, dataPos: nat, length: int): (end: Round)
    ensures !end.Continue? && r.pos <= end.r.pos
    decreases length
  {
    if length < 8 then Stop(r, dataPos, length)
    else
      var next := SubChunk(file, r, dataPos, length);
      if next.Continue? then SubChunks(file, next.r, next.dataPos, next.length) else next
  }

  /** One round of the outer loop; `length` plays no part in its result. */
  function TopChunk(file: Bytes, r: Reader, dataPos: nat): (next: Round)
    ensures next.Continue? ==> r.pos < |file| && r.pos < next.r.pos
  {
    var tag := Avail(file, r.pos, 4);
    var p := r.pos + |tag|;
    if |tag| < 4 then Stop(r.(pos := p), dataPos, 0)
    else
      var declared, q := Number(file, p, 4), Past(file, p, 4);
      var stream := declared == 0 || declared >= STREAMING;
      var length := if stream then UINT32 - 1 else declared;
      var s := r.(streamed := r.streamed || stream);
      if tag != RIFF || length < 4 then Continue(s.(pos := q + length), dataPos, 0)
      else
        var tag2 := Avail(file, q, 4);
        var w := q + |tag2|;
        if tag2 != WAVE then Continue(s.(pos := w + (length - 4)), dataPos, 0)
        else
          var end := SubChunks(file, s.(pos := w), dataPos, length - 4);
          if end.Return? then end
          else Continue(end.r.(pos := end.r.pos + if end.length > 0 then end.length else 0), end.dataPos, 0)
  }

  /** The outer loop, and the final seek to the audio. */
  function Open(file: Bytes, r: Reader, dataPos: nat): Reader
    decreases |file| - r.pos
  {
    match TopChunk(file, r, dataPos)
    case Continue(r', dataPos', _) => Open(file, r', dataPos')
    case Return(r', _) => r'
    case Stop(r', dataPos', _) => r'.(pos := dataPos')
  }

  function OpenFile(file: Bytes): Reader { Open(file, Fresh, 0) }

  // ----- Writing RIFF -----

  function Encode(x: int, n: nat): (b: Bytes)
    requires 0 <= x
    ensures |b| == n
  {
    if n == 0 then [] else [(x % 256) as Byte] + Encode(x / 256, n - 1)
  }

  function Power(n: nat): nat { if n == 0 then 1 else 256 * Power(n - 1) }

  lemma {:induction false} LittleEncode(x: int, n: nat)
    requires 0 <= x < Power(n)
    ensures Little(Encode(x, n), n) == x
  {
    if n > 0 {
      LittleEncode(x / 256, n - 1);
      assert Encode(x, n)[1..] == Encode(x / 256, n - 1);
    }
  }

  lemma Power4()
    ensures Power(2) == 0x1_0000 && Power(4) == UINT32
  {
    assert Power(1) == 256 && Power(2) == 256 * Power(1) && Power(3) == 256 * Power(2) && Power(4) == 256 * Power(3);
  }

  /** Where the file ends inside a number, the bits that are missing read as ones. */
  lemma {:induction false} MissingBytesAreOnes(b: Bytes, n: nat)
    requires |b| <= n
    ensures Little(b, n) == Little(b, |b|) + Power(n) - Power(|b|)
  {
    if n > 0 {
      MissingBytesAreOnes(if b == [] then [] else b[1..], n - 1);
    }
  }

  /** A 32-bit value stored in an `int` is the same number modulo 2^32. */
  lemma SignedWraps(x: int)
    requires 0 <= x < UINT32
    ensures -0x8000_0000 <= Signed(x) < 0x8000_0000 && Signed(x) % UINT32 == x
  {
  }

  /** A chunk of two gigabytes or more is not skipped, because the counter of the skipping loop is an `int`: the walk goes on
      inside it. */
  lemma HugeChunkIsEntered(file: Bytes, r: Reader, dataPos: nat, length: int, tag: Bytes, size: int)
    requires |tag| == 4 && tag != FMT && tag != DATA && 0x8000_0000 <= size < UINT32 && size <= length - 8
    requires Holds(file, r.pos, tag) && Holds(file, r.pos + 4, Encode(size, 4))
    ensures SubChunk(file, r, dataPos, length) == Continue(r.(pos := r.pos + 8), dataPos, length - 8 - size)
  {
    hide Little, Encode, Power;
    Power4();
    LittleEncode(size, 4);
    FieldAt(file, r.pos + 4, Encode(size, 4), 0, 4);
    assert Encode(size, 4)[0..4] == Encode(size, 4);
  }

  datatype Chunk = Chunk(tag: Bytes, body: Bytes)

  /** A chunk with its length, and the pad byte RIFF asks for after an odd body. */
  function Written(c: Chunk): Bytes {
    c.tag + (Encode(|c.body|, 4) + (c.body + if |c.body| % 2 == 0 then [] else [0]))
  }

  function WrittenAll(cs: seq<Chunk>): Bytes {
    if cs == [] then [] else Written(cs[0]) + WrittenAll(cs[1..])
  }

  /** A RIFF/WAVE file whose outer chunk declares `declared` bytes. */
  function WavFile(declared: int, payload: Bytes): Bytes
    requires 0 <= declared
  {
    RIFF + (Encode(declared, 4) + (WAVE + payload))
  }

  // ----- What a chunk means -----

  predicate GoodFormat(body: Bytes) {
    |body| >= 16 && (Little(body[0..2], 2) == EXTENSIBLE ==> |body| >= 28)
  }

  function HeaderOf(body: Bytes): Header
    requires GoodFormat(body)
  {
    var format := Little(body[0..2], 2);
    Header(if format == EXTENSIBLE then Signed(Little(body[24..28], 4)) else format,
           Little(body[2..4], 2), Signed(Little(body[4..8], 4)),
           Signed(Little(body[8..12], 4)), Little(body[12..14], 2), Little(body[14..16], 2))
  }

  /** A chunk the reader can take: short enough, a usable "fmt ", audio that is there. */
  ghost predicate Good(c: Chunk, streamed: bool) {
    && |c.tag| == 4 && |c.body| < 0x8000_0000
    && (c.tag == FMT ==> GoodFormat(c.body))
    && (c.tag == DATA ==> |c.body| > 0 && !streamed)
  }

  /** Reader and audio position after a chunk that starts at `r.pos`. */
  function Effect(c: Chunk, r: Reader): Reader
    requires c.tag == FMT ==> GoodFormat(c.body)
  {
    var r' := r.(pos := r.pos + 8 + |c.body|);
    if c.tag == FMT then r'.(header := HeaderOf(c.body))
    else if c.tag == DATA then r'.(dataLength := |c.body|) else r'
  }

  function DataPosAfter(c: Chunk, r: Reader, dataPos: nat): nat { if c.tag == DATA then r.pos + 8 else dataPos }

  lemma NumberAt(file: Bytes, pos: nat, n: nat)
    requires pos + n <= |file|
    ensures Number(file, pos, n) == Little(file[pos..pos + n], n) && Past(file, pos, n) == pos + n
  {
  }

  lemma SkippedAt(file: Bytes, pos: nat, n: nat)
    requires pos + n <= |file| && n < 0x8000_0000
    ensures Skipped(file, pos, n) == pos + n
  {
  }

  /** `body` stands at `pos`. */
  ghost predicate Holds(file: Bytes, pos: nat, body: Bytes) { pos + |body| <= |file| && file[pos..pos + |body|] == body }

  lemma FieldAt(file: Bytes, pos: nat, body: Bytes, a: nat, n: nat)
    requires Holds(file, pos, body) && a + n <= |body|
    ensures Number(file, pos + a, n) == Little(body[a..a + n], n) && Past(file, pos + a, n) == pos + a + n
  {
    NumberAt(file, pos + a, n);
    hide Little, Avail;
    var whole := file[pos..pos + |body|];
    forall j | pos + a <= j < pos + a + n ensures file[j] == body[j - pos] {
      assert whole[j - pos] == file[j];
    }
    assert file[pos + a..pos + a + n] == body[a..a + n];
  }

  lemma BasicHeaderAt(file: Bytes, pos: nat, body: Bytes)
    requires |body| >= 16 && Holds(file, pos, body)
    ensures BasicHeader(file, pos) ==
            (Header(Little(body[0..2], 2), Little(body[2..4], 2), Signed(Little(body[4..8], 4)),
                    Signed(Little(body[8..12], 4)), Little(body[12..14], 2), Little(body[14..16], 2)), pos + 16)
  {
    hide Little, Number, Past, Holds, Signed;
    FieldAt(file, pos, body, 0, 2);
    FieldAt(file, pos, body, 2, 2);
    FieldAt(file, pos, body, 4, 4);
    FieldAt(file, pos, body, 8, 4);
    FieldAt(file, pos, body, 12, 2);
    FieldAt(file, pos, body, 14, 2);
  }

  lemma PlainFormatReads(file: Bytes, r: Reader, dataPos: nat, body: Bytes, rest: int)
    requires GoodFormat(body) && |body| < 0x8000_0000 && Holds(file, r.pos, body)
    requires Little(body[0..2], 2) != EXTENSIBLE
    ensures FormatChunk(file, r, dataPos, |body|, rest) ==
            Continue(r.(header := HeaderOf(body), pos := r.pos + |body|), dataPos, rest - |body|)
  {
    hide BasicHeader, Little, Number, Past, Skipped, Signed;
    BasicHeaderAt(file, r.pos, body);
    SkippedAt(file, r.pos + 16, |body| - 16);
  }

  lemma ExtensibleFormatReads(file: Bytes, r: Reader, dataPos: nat, body: Bytes, rest: int)
    requires GoodFormat(body) && |body| < 0x8000_0000 && Holds(file, r.pos, body)
    requires Little(body[0..2], 2) == EXTENSIBLE
    ensures FormatChunk(file, r, dataPos, |body|, rest) ==
            Continue(r.(header := HeaderOf(body), pos := r.pos + |body|), dataPos, rest - |body|)
  {
    hide BasicHeader, Little, Number, Past, Skipped, Signed;
    BasicHeaderAt(file, r.pos, body);
    SkippedAt(file, r.pos + 16, 8);
    FieldAt(file, r.pos, body, 24, 4);
    SkippedAt(file, r.pos + 28, |body| - 28);
  }

  lemma FormatChunkReads(file: Bytes, r: Reader, dataPos: nat, body: Bytes, rest: int)
    requires GoodFormat(body) && |body| < 0x8000_0000 && Holds(file, r.pos, body)
    ensures FormatChunk(file, r, dataPos, |body|, rest) ==
            Continue(r.(header := HeaderOf(body), pos := r.pos + |body|), dataPos, rest - |body|)
  {
    hide FormatChunk, HeaderOf, Holds, Little;
    if Little(body[0..2], 2) == EXTENSIBLE {
      ExtensibleFormatReads(file, r, dataPos, body, rest);
    } else {
      PlainFormatReads(file, r, dataPos, body, rest);
    }
  }

  /** One round of the inner loop takes one written chunk, and position plus remaining length stays put. */
  lemma SubChunkReads(file: Bytes, r: Reader, dataPos: nat, length: int, c: Chunk)
    requires Good(c, r.streamed) && 8 + |c.body| <= length
    requires Holds(file, r.pos, c.tag) && Holds(file, r.pos + 4, Encode(|c.body|, 4)) && Holds(file, r.pos + 8, c.body)
    ensures SubChunk(file, r, dataPos, length) ==
            Continue(Effect(c, r), DataPosAfter(c, r, dataPos), length - 8 - |c.body|)
    ensures Effect(c, r).pos + (length - 8 - |c.body|) == r.pos + length
  {
    hide Little, Encode, FormatChunk, GoodFormat, HeaderOf, Number, Past, Skipped;
    ChunkStart(file, r.pos, c);
    if c.tag == FMT {
      FormatChunkReads(file, r.(pos := r.pos + 8), dataPos, c.body, length - 8);
    } else if c.tag != DATA {
      SkippedAt(file, r.pos + 8, |c.body|);
    }
  }

  lemma ChunkStart(file: Bytes, pos: nat, c: Chunk)
    requires |c.tag| == 4 && |c.body| < 0x8000_0000
    requires Holds(file, pos, c.tag) && Holds(file, pos + 4, Encode(|c.body|, 4))
    ensures Avail(file, pos, 4) == c.tag && Number(file, pos + 4, 4) == |c.body| && Past(file, pos + 4, 4) == pos + 8
  {
    hide Little, Encode;
    Power4();
    LittleEncode(|c.body|, 4);
    FieldAt(file, pos + 4, Encode(|c.body|, 4), 0, 4);
    assert Encode(|c.body|, 4)[0..4] == Encode(|c.body|, 4);
  }

  // ----- A list of chunks -----

  /** Reader after a list of chunks, each of even length. */
  function EffectAll(cs: seq<Chunk>, r: Reader): Reader
    requires forall c :: c in cs ==> c.tag == FMT ==> GoodFormat(c.body)
  {
    if cs == [] then r else EffectAll(cs[1..], Effect(cs[0], r))
  }

  function DataPosAfterAll(cs: seq<Chunk>, r: Reader, dataPos: nat): nat
    requires forall c :: c in cs ==> c.tag == FMT ==> GoodFormat(c.body)
  {
    if cs == [] then dataPos else DataPosAfterAll(cs[1..], Effect(cs[0], r), DataPosAfter(cs[0], r, dataPos))
  }

  ghost predicate AllGood(cs: seq<Chunk>, streamed: bool) { forall c :: c in cs ==> Good(c, streamed) }

  ghost predicate AllEven(cs: seq<Chunk>) { forall c :: c in cs ==> |c.body| % 2 == 0 }

  lemma WrittenParts(file: Bytes, pos: nat, c: Chunk, tail: Bytes)
    requires pos <= |file| && |c.tag| == 4 && file[pos..] == Written(c) + tail
    ensures Holds(file, pos, c.tag) && Holds(file, pos + 4, Encode(|c.body|, 4)) && Holds(file, pos + 8, c.body)
    ensures file[pos + 8 + |c.body|..] == (if |c.body| % 2 == 0 then [] else [0]) + tail
  {
    var size, pad := Encode(|c.body|, 4), if |c.body| % 2 == 0 then [] else [0];
    hide Encode;
    var after := file[pos..];
    assert after == c.tag + (size + (c.body + pad)) + tail;
    Slice(file, pos, 0, 4);
    Slice(file, pos, 4, 8);
    Slice(file, pos, 8, 8 + |c.body|);
    assert after[0..4] == c.tag;
    assert after[4..8] == size;
    assert after[8..8 + |c.body|] == c.body;
    assert file[pos + 8 + |c.body|..] == after[8 + |c.body|..] == pad + tail;
  }

  lemma Slice(file: Bytes, pos: nat, a: nat, b: nat)
    requires pos <= |file| && a <= b <= |file| - pos
    ensures file[pos..][a..b] == file[pos + a..pos + b]
  {
  }

  /** The inner loop reads through any run of even chunks as if they were not there, but for their effects. */
  lemma {:induction false} ChunksRead(file: Bytes, r: Reader, dataPos: nat, length: int, cs: seq<Chunk>, tail: Bytes)
    requires AllGood(cs, r.streamed) && AllEven(cs) && r.pos <= |file|
    requires file[r.pos..] == WrittenAll(cs) + tail && |WrittenAll(cs)| <= length
    ensures var r' := EffectAll(cs, r);
            && r'.pos <= |file| && file[r'.pos..] == tail && r'.streamed == r.streamed
            && r'.pos == r.pos + |WrittenAll(cs)|
            && SubChunks(file, r, dataPos, length) ==
               SubChunks(file, r', DataPosAfterAll(cs, r, dataPos), length - |WrittenAll(cs)|)
    decreases |cs|
  {
    hide Written, SubChunk, Effect, Encode, GoodFormat;
    if cs == [] {
      assert WrittenAll(cs) + tail == tail;
    } else {
      var c, rest := cs[0], WrittenAll(cs[1..]);
      assert c in cs && Good(c, r.streamed);
      assert WrittenAll(cs) + tail == Written(c) + (rest + tail);
      OneChunkRead(file, r, dataPos, length, c, rest + tail);
      ChunksRead(file, Effect(c, r), DataPosAfter(c, r, dataPos), length - 8 - |c.body|, cs[1..], tail);
    }
  }

  lemma OneChunkRead(file: Bytes, r: Reader, dataPos: nat, length: int, c: Chunk, tail: Bytes)
    requires Good(c, r.streamed) && |c.body| % 2 == 0 && r.pos <= |file|
    requires file[r.pos..] == Written(c) + tail && |Written(c)| <= length
    ensures |Written(c)| == 8 + |c.body| && Effect(c, r).pos == r.pos + 8 + |c.body| <= |file|
    ensures file[Effect(c, r).pos..] == tail && Effect(c, r).streamed == r.streamed
    ensures SubChunk(file, r, dataPos, length) == Continue(Effect(c, r), DataPosAfter(c, r, dataPos), length - 8 - |c.body|)
  {
    assert |Written(c)| == 8 + |c.body| && [] + tail == tail;
    WrittenParts(file, r.pos, c, tail);
    SubChunkReads(file, r, dataPos, length, c);
  }

  /** The body of the last chunk with a tag. */
  function LastWith(tag: Bytes, cs: seq<Chunk>): Option<Bytes> {
    if cs == [] then None
    else
      var later := LastWith(tag, cs[1..]);
      if later.Some? then later else if cs[0].tag == tag then Some(cs[0].body) else None
  }

  lemma FirstChunkHolds(file: Bytes, pos: nat, c: Chunk, tail: Bytes)
    requires pos <= |file| && |c.tag| == 4 && |c.body| % 2 == 0 && file[pos..] == Written(c) + tail
    ensures Holds(file, pos + 8, c.body) && pos + 8 + |c.body| <= |file| && file[pos + 8 + |c.body|..] == tail
  {
    WrittenParts(file, pos, c, tail);
    assert [] + tail == tail;
  }

  /** What a list of chunks leaves in the reader. */
  lemma {:induction false} EffectsOf(file: Bytes, r: Reader, dataPos: nat, cs: seq<Chunk>, tail: Bytes)
    requires AllGood(cs, r.streamed) && AllEven(cs) && r.pos <= |file| && file[r.pos..] == WrittenAll(cs) + tail
    ensures var r', fmt, data := EffectAll(cs, r), LastWith(FMT, cs), LastWith(DATA, cs);
            && r'.header == (if fmt.None? then r.header else if GoodFormat(fmt.value) then HeaderOf(fmt.value) else r.header)
            && (fmt.Some? ==> GoodFormat(fmt.value))
            && r'.dataLength == (if data.None? then r.dataLength else |data.value|)
            && (data.None? ==> DataPosAfterAll(cs, r, dataPos) == dataPos)
            && (data.Some? ==> Holds(file, DataPosAfterAll(cs, r, dataPos), data.value) && 0 < |data.value| < 0x8000_0000)
    decreases |cs|
  {
    hide Written, HeaderOf, Encode, GoodFormat, Holds;
    if cs != [] {
      var c, rest := cs[0], WrittenAll(cs[1..]);
      assert c in cs && Good(c, r.streamed);
      assert WrittenAll(cs) + tail == Written(c) + (rest + tail);
      FirstChunkHolds(file, r.pos, c, rest + tail);
      EffectsOf(file, Effect(c, r), DataPosAfter(c, r, dataPos), cs[1..], tail);
    }
  }

  // ----- Opening what was written -----

  lemma WavFileParts(declared: int, payload: Bytes)
    requires 0 <= declared
    ensures var file := WavFile(declared, payload);
            && |file| == 12 + |payload| && file[0..4] == RIFF && file[4..8] == Encode(declared, 4)
            && file[8..12] == WAVE && file[12..] == payload
  {
    hide Encode;
  }

  /** The outer loop at a RIFF/WAVE chunk. */
  lemma OpenReachesChunks(declared: int, payload: Bytes)
    requires 4 <= declared < UINT32 || declared == 0
    ensures var file := WavFile(declared, payload);
            var stream := declared == 0 || declared >= STREAMING;
            var end := SubChunks(file, Fresh.(pos := 12, streamed := stream), 0, (if stream then UINT32 - 1 else declared) - 4);
            && |file| == 12 + |payload| && file[12..] == payload
            && OpenFile(file) == if end.Return? then end.r
                                 else Open(file, end.r.(pos := end.r.pos + if end.length > 0 then end.length else 0), end.dataPos)
  {
    hide SubChunks, Little, Encode, Past, Number, WavFile, Power;
    var file := WavFile(declared, payload);
    WavFileParts(declared, payload);
    Power4();
    LittleEncode(declared, 4);
    NumberAt(file, 4, 4);
  }

  lemma OpenAtEnd(file: Bytes, r: Reader, dataPos: nat)
    requires r.pos == |file|
    ensures Open(file, r, dataPos) == r.(pos := dataPos)
  {
  }

  /** A file that is one chunk, but not RIFF or not of the form WAVE, is skipped: no header, no audio, whatever it holds. */
  lemma OtherFilesAreSkipped(tag: Bytes, form: Bytes, declared: int, payload: Bytes)
    requires |tag| == 4 && |form| == 4 && (tag != RIFF || form != WAVE)
    requires 4 + |payload| <= declared < STREAMING
    ensures OpenFile(tag + (Encode(declared, 4) + (form + payload))) == Fresh
  {
    hide SubChunks, Little, Encode, Past, Number, Power;
    var size := Encode(declared, 4);
    var file := tag + (size + (form + payload));
    assert file[0..4] == tag && file[4..8] == size && file[8..12] == form;
    Power4();
    LittleEncode(declared, 4);
    NumberAt(file, 4, 4);
    var end := Fresh.(pos := 8 + declared);
    assert TopChunk(file, Fresh, 0) == Continue(end, 0, 0);
    hide TopChunk;
    StopsPastEnd(file, end, 0);
  }

  lemma StopsPastEnd(file: Bytes, r: Reader, dataPos: nat)
    requires r.pos >= |file|
    ensures Open(file, r, dataPos) == r.(pos := dataPos)
  {
  }

  /** The last chunk may be odd: its pad byte is skipped as the rest of the RIFF chunk. */
  lemma LastChunkReads(file: Bytes, r: Reader, dataPos: nat, c: Chunk)
    requires Good(c, r.streamed) && r.pos <= |file| && file[r.pos..] == Written(c)
    ensures SubChunks(file, r, dataPos, |Written(c)|) ==
            Stop(Effect(c, r), DataPosAfter(c, r, dataPos), |c.body| % 2)
    ensures Effect(c, r).pos + |c.body| % 2 == |file|
    ensures c.tag == DATA ==> Holds(file, r.pos + 8, c.body)
  {
    hide SubChunk, HeaderOf, GoodFormat, Encode;
    assert |Written(c)| == 8 + |c.body| + |c.body| % 2;
    assert Written(c) + [] == Written(c);
    WrittenParts(file, r.pos, c, []);
    SubChunkReads(file, r, dataPos, |Written(c)|, c);
  }

  /** Opening a file of good chunks, all but the last of even length: the last "fmt " gives the header, and the reader
      stands at the audio of the last "data", which it knows the length of. */
  lemma OpenRecovers(front: seq<Chunk>, last: Chunk)
    requires AllGood(front, false) && AllEven(front) && Good(last, false)
    requires 4 + |WrittenAll(front)| + |Written(last)| < STREAMING
    ensures var payload := WrittenAll(front) + Written(last);
            var file := WavFile(4 + |payload|, payload);
            var r := OpenFile(file);
            var fmt := if last.tag == FMT then Some(last.body) else LastWith(FMT, front);
            var data := if last.tag == DATA then Some(last.body) else LastWith(DATA, front);
            && !r.streamed
            && (fmt.Some? ==> GoodFormat(fmt.value) && r.header == HeaderOf(fmt.value))
            && (data.Some? ==> r.dataLength == |data.value| < 0x8000_0000 && Holds(file, r.pos, data.value))
            && (fmt.None? ==> r.header == Fresh.header) && (data.None? ==> r.dataLength == 0 && r.pos == 0)
  {
    hide HeaderOf, GoodFormat, Written, SubChunks, WavFile, Open, Holds;
    var payload := WrittenAll(front) + Written(last);
    var file := WavFile(4 + |payload|, payload);
    var r := Fresh.(pos := 12);
    OpenReachesChunks(4 + |payload|, payload);
    ChunksRead(file, r, 0, |payload|, front, Written(last));
    EffectsOf(file, r, 0, front, Written(last));
    var r', dp := EffectAll(front, r), DataPosAfterAll(front, r, 0);
    LastChunkReads(file, r', dp, last);
    var end := Effect(last, r');
    OpenAtEnd(file, end.(pos := |file|), DataPosAfter(last, r', dp));
  }

  /** The first fields of a "fmt " body, as they stand. */
  function PlainFields(body: Bytes): Header
    requires |body| >= 16
  {
    Header(Little(body[0..2], 2), Little(body[2..4], 2), Signed(Little(body[4..8], 4)),
           Signed(Little(body[8..12], 4)), Little(body[12..14], 2), Little(body[14..16], 2))
  }

  /** A "fmt " chunk that is too short ends the walk; if it is extensible, its fields have been taken all the same. */
  lemma ShortFormatStops(file: Bytes, r: Reader, dataPos: nat, body: Bytes, tail: Bytes)
    requires !GoodFormat(body) && r.pos <= |file| && file[r.pos..] == Written(Chunk(FMT, body)) + tail
    ensures |file| - r.pos >= 8
    ensures SubChunk(file, r, dataPos, |file| - r.pos) ==
            if |body| < 16 then Stop(r.(pos := r.pos + 8), dataPos, |file| - r.pos - 8)
            else Stop(r.(pos := r.pos + 24, header := PlainFields(body)), dataPos, |file| - r.pos - 8)
  {
    hide Little, Encode, Number, Past, BasicHeader, Signed;
    var c := Chunk(FMT, body);
    assert |Written(c)| >= 8 + |body|;
    WrittenParts(file, r.pos, c, tail);
    ChunkStart(file, r.pos, c);
    if |body| >= 16 { BasicHeaderAt(file, r.pos + 8, body); }
  }

  /** In a file with such a chunk, what comes before it counts and what comes after it does not. */
  lemma ShortFormatHidesRest(front: seq<Chunk>, body: Bytes, tail: Bytes)
    requires AllGood(front, false) && AllEven(front) && !GoodFormat(body)
    requires 4 + |WrittenAll(front)| + |Written(Chunk(FMT, body))| + |tail| < STREAMING
    ensures var payload := WrittenAll(front) + (Written(Chunk(FMT, body)) + tail);
            var file := WavFile(4 + |payload|, payload);
            var r, fmt, data := OpenFile(file), LastWith(FMT, front), LastWith(DATA, front);
            && !r.streamed && (fmt.Some? ==> GoodFormat(fmt.value))
            && r.header == (if |body| >= 16 then PlainFields(body)
                            else if fmt.Some? && GoodFormat(fmt.value) then HeaderOf(fmt.value) else Fresh.header)
            && r.dataLength == (if data.Some? then |data.value| else 0)
            && (if data.Some? then Holds(file, r.pos, data.value) else r.pos == 0)
  {
    hide HeaderOf, GoodFormat, PlainFields, Written, SubChunk, WavFile, Open, Holds;
    var rest := Written(Chunk(FMT, body)) + tail;
    var payload := WrittenAll(front) + rest;
    var file := WavFile(4 + |payload|, payload);
    var r := Fresh.(pos := 12);
    OpenReachesChunks(4 + |payload|, payload);
    ChunksRead(file, r, 0, |payload|, front, rest);
    EffectsOf(file, r, 0, front, rest);
    var r', dp := EffectAll(front, r), DataPosAfterAll(front, r, 0);
    ShortFormatStops(file, r', dp, body, tail);
    var end := SubChunks(file, r', dp, |file| - r'.pos);
    StopsPastEnd(file, end.r.(pos := end.r.pos + end.length), dp);
  }

  /** A stream: the outer length is unknown, or the "data" chunk does not say how long it is. */
  lemma OpenRecoversStream(declared: int, front: seq<Chunk>, size: int, audio: Bytes)
    requires 4 <= declared < UINT32 || declared == 0
    requires var stream := declared == 0 || declared >= STREAMING;
             && AllGood(front, stream) && AllEven(front) && (stream || size == 0)
             && 0 <= size < 0x8000_0000 && 12 + |WrittenAll(front)| + size < (if stream then UINT32 - 1 else declared) + 1
    ensures var file := WavFile(declared, WrittenAll(front) + (DATA + (Encode(size, 4) + audio)));
            var r := OpenFile(file);
            && r.streamed && r.pos <= |file| && file[r.pos..] == audio
            && (LastWith(FMT, front).Some? ==>
                  GoodFormat(LastWith(FMT, front).value) && r.header == HeaderOf(LastWith(FMT, front).value))
  {
    hide HeaderOf, GoodFormat, Written, SubChunks, WavFile, Open, Encode;
    var tail := DATA + (Encode(size, 4) + audio);
    var payload := WrittenAll(front) + tail;
    var file := WavFile(declared, payload);
    var stream := declared == 0 || declared >= STREAMING;
    var length := (if stream then UINT32 - 1 else declared) - 4;
    var r := Fresh.(pos := 12, streamed := stream);
    OpenReachesChunks(declared, payload);
    ChunksRead(file, r, 0, length, front, tail);
    EffectsOf(file, r, 0, front, tail);
    StreamStarts(file, EffectAll(front, r), DataPosAfterAll(front, r, 0), length - |WrittenAll(front)|, size, audio);
  }

  lemma StreamStarts(file: Bytes, r: Reader, dataPos: nat, length: int, size: int, audio: Bytes)
    requires 0 <= size < 0x8000_0000 && (r.streamed || size == 0) && 8 + size <= length
    requires r.pos <= |file| && file[r.pos..] == DATA + (Encode(size, 4) + audio)
    ensures SubChunks(file, r, dataPos, length) == Return(r.(pos := r.pos + 8, dataLength := size, streamed := true), r.pos + 8)
    ensures r.pos + 8 <= |file| && file[r.pos + 8..] == audio
  {
    hide Encode, Little, Past, Number;
    var after, code := file[r.pos..], Encode(size, 4);
    Slice(file, r.pos, 0, 4);
    Slice(file, r.pos, 4, 8);
    assert after[0..4] == DATA && after[4..8] == code && after[8..] == audio;
    assert file[r.pos + 8..] == after[8..];
    Power4();
    LittleEncode(size, 4);
    NumberAt(file, r.pos + 4, 4);
  }

  // ----- Reading the audio -----

  /** `wav_read_data`: at most what is left, unless the length is not known. */
  function ReadData(file: Bytes, r: Reader, n: nat): (Reader, Bytes) {
    var m := if n > r.dataLength && !r.streamed then r.dataLength else n;
    var got := Avail(file, r.pos, m);
    (r.(pos := r.pos + |got|, dataLength := (r.dataLength - m) % UINT32), got)
  }

  /** The bytes of a sequence of reads, one after another. */
  function ReadAll(file: Bytes, r: Reader, sizes: seq<nat>): Bytes
    decreases |sizes|
  {
    if sizes == [] then []
    else
      var (r', got) := ReadData(file, r, sizes[0]);
      got + ReadAll(file, r', sizes[1..])
  }

  function Sum(sizes: seq<nat>): nat { if sizes == [] then 0 else sizes[0] + Sum(sizes[1..]) }

  lemma OneRead(file: Bytes, r: Reader, n: nat, audio: Bytes)
    requires !r.streamed && r.dataLength == |audio| < UINT32 && Holds(file, r.pos, audio)
    ensures var m := Min(n, |audio|);
            var (r', got) := ReadData(file, r, n);
            && got == audio[..m] && !r'.streamed
            && r'.dataLength == |audio| - m && Holds(file, r'.pos, audio[m..])
  {
    hide Holds, Avail;
    var m := Min(n, |audio|);
    FieldBytes(file, r.pos, audio, 0, m);
    FieldBytes(file, r.pos, audio, m, |audio| - m);
    assert audio[0..m] == audio[..m] && audio[m..m + (|audio| - m)] == audio[m..];
  }

  /** Reads of any sizes deliver the audio in order, and no byte more. */
  lemma {:induction false} ReadsDeliverAudio(file: Bytes, r: Reader, sizes: seq<nat>, audio: Bytes)
    requires !r.streamed && r.dataLength == |audio| < UINT32 && Holds(file, r.pos, audio)
    ensures ReadAll(file, r, sizes) == audio[..Min(Sum(sizes), |audio|)]
    decreases |sizes|
  {
    hide Holds, ReadData;
    if sizes != [] {
      OneRead(file, r, sizes[0], audio);
      var m := Min(sizes[0], |audio|);
      ReadsDeliverAudio(file, ReadData(file, r, sizes[0]).0, sizes[1..], audio[m..]);
      var k := Min(Sum(sizes[1..]), |audio| - m);
      assert audio[..m] + audio[m..][..k] == audio[..m + k];
    }
  }

  lemma FieldBytes(file: Bytes, pos: nat, body: Bytes, a: nat, n: nat)
    requires Holds(file, pos, body) && a + n <= |body|
    ensures Holds(file, pos + a, body[a..a + n]) && Avail(file, pos + a, n) == body[a..a + n]
  {
    var whole := file[pos..pos + |body|];
    forall j | pos + a <= j < pos + a + n ensures file[j] == body[j - pos] {
      assert whole[j - pos] == file[j];
    }
    assert file[pos + a..pos + a + n] == body[a..a + n];
  }

  lemma OneStreamRead(file: Bytes, r: Reader, n: nat)
    requires r.streamed && r.pos <= |file|
    ensures var m := Min(n, |file| - r.pos);
            var (r', got) := ReadData(file, r, n);
            got == file[r.pos..r.pos + m] && r'.streamed && r'.pos == r.pos + m
  {
  }

  /** Reads of a stream deliver the rest of the file. */
  lemma {:induction false} ReadsDeliverStream(file: Bytes, r: Reader, sizes: seq<nat>)
    requires r.streamed && r.pos <= |file|
    ensures ReadAll(file, r, sizes) == file[r.pos..r.pos + Min(Sum(sizes), |file| - r.pos)]
    decreases |sizes|
  {
    hide ReadData;
    if sizes != [] {
      OneStreamRead(file, r, sizes[0]);
      ReadsDeliverStream(file, ReadData(file, r, sizes[0]).0, sizes[1..]);
      var m := Min(sizes[0], |file| - r.pos);
      var k := Min(Sum(sizes[1..]), |file| - r.pos - m);
      assert file[r.pos..r.pos + m] + file[r.pos + m..r.pos + m + k] == file[r.pos..r.pos + m + k];
    }
  }

  // ----- The whole trip -----

  /** The "fmt " body for a header; an extensible one has eight more bytes and the format once more. */
  function FormatBody(h: Header, extension: Option<Bytes>, extra: Bytes): Bytes
    requires 0 <= h.format && 0 <= h.channels && 0 <= h.sampleRate && 0 <= h.byteRate && 0 <= h.blockAlign && 0 <= h.bits
  {
    Encode(if extension.Some? then EXTENSIBLE else h.format, 2) + (Encode(h.channels, 2) + (Encode(h.sampleRate, 4) +
      (Encode(h.byteRate, 4) + (Encode(h.blockAlign, 2) + (Encode(h.bits, 2) +
        if extension.Some? then extension.value + (Encode(h.format, 4) + extra) else extra)))))
  }

  ghost predicate Representable(h: Header, extension: Option<Bytes>) {
    && 0 <= h.channels < 0x1_0000 && 0 <= h.sampleRate < 0x8000_0000 && 0 <= h.byteRate < 0x8000_0000
    && 0 <= h.blockAlign < 0x1_0000 && 0 <= h.bits < 0x1_0000
    && (extension.None? ==> 0 <= h.format < 0x1_0000 && h.format != EXTENSIBLE)
    && (extension.Some? ==> 0 <= h.format < 0x8000_0000 && |extension.value| == 8)
  }

  /** The number at offset `a` of a body that starts with `before`. */
  lemma EncodedField(body: Bytes, a: nat, x: int, n: nat, after: Bytes)
    requires a <= |body| && 0 <= x < Power(n) && body[a..] == Encode(x, n) + after
    ensures a + n <= |body| && Little(body[a..a + n], n) == x && body[a + n..] == after
  {
    hide Little, Power;
    LittleEncode(x, n);
    assert body[a..][..n] == Encode(x, n);
    assert body[a..a + n] == body[a..][..n] && body[a + n..] == body[a..][n..];
  }

  lemma HeaderReadsBack(h: Header, extension: Option<Bytes>, extra: Bytes)
    requires Representable(h, extension)
    ensures GoodFormat(FormatBody(h, extension, extra)) && HeaderOf(FormatBody(h, extension, extra)) == h
  {
    hide Little, Encode, Power;
    Power4();
    var body := FormatBody(h, extension, extra);
    var t6 := if extension.Some? then extension.value + (Encode(h.format, 4) + extra) else extra;
    var t5 := Encode(h.bits, 2) + t6;
    var t4 := Encode(h.blockAlign, 2) + t5;
    var t3 := Encode(h.byteRate, 4) + t4;
    var t2 := Encode(h.sampleRate, 4) + t3;
    var t1 := Encode(h.channels, 2) + t2;
    assert body[0..] == body;
    EncodedField(body, 0, if extension.Some? then EXTENSIBLE else h.format, 2, t1);
    EncodedField(body, 2, h.channels, 2, t2);
    EncodedField(body, 4, h.sampleRate, 4, t3);
    EncodedField(body, 8, h.byteRate, 4, t4);
    EncodedField(body, 12, h.blockAlign, 2, t5);
    EncodedField(body, 14, h.bits, 2, t6);
    if extension.Some? {
      assert body[24..] == body[16..][8..];
      assert t6[8..] == Encode(h.format, 4) + extra;
      EncodedField(body, 24, h.format, 4, extra);
    }
  }

  /** Any RIFF/WAVE file of good chunks, all but the last of even length, in any order: header and audio come back,
      and reads of any sizes deliver exactly the audio. */
  lemma WavRoundTrip(front: seq<Chunk>, last: Chunk, h: Header, extension: Option<Bytes>, extra: Bytes,
                     audio: Bytes, sizes: seq<nat>)
    requires AllGood(front, false) && AllEven(front) && Good(last, false)
    requires 4 + |WrittenAll(front)| + |Written(last)| < STREAMING
    requires Representable(h, extension)
    requires (if last.tag == FMT then Some(last.body) else LastWith(FMT, front)) == Some(FormatBody(h, extension, extra))
    requires (if last.tag == DATA then Some(last.body) else LastWith(DATA, front)) == Some(audio)
    ensures var payload := WrittenAll(front) + Written(last);
            var file := WavFile(4 + |payload|, payload);
            var r := OpenFile(file);
            && r.header == h && r.dataLength == |audio|
            && ReadAll(file, r, sizes) == audio[..Min(Sum(sizes), |audio|)]
  {
    hide GoodFormat, HeaderOf, FormatBody, Written, WavFile, OpenFile, ReadAll, Holds;
    HeaderReadsBack(h, extension, extra);
    OpenRecovers(front, last);
    var payload := WrittenAll(front) + Written(last);
    var file := WavFile(4 + |payload|, payload);
    ReadsDeliverAudio(file, OpenFile(file), sizes, audio);
  }

  lemma {:induction false} EncodePrefix(x: int, n: nat)
    requires 0 <= x
    ensures Encode(x, n + 1)[..n] == Encode(x, n)
  {
    if n > 0 {
      EncodePrefix(x / 256, n - 1);
      var tail := Encode(x / 256, n);
      assert Encode(x, n + 1) == [(x % 256) as Byte] + tail;
      assert ([(x % 256) as Byte] + tail)[..n] == [(x % 256) as Byte] + tail[..n - 1];
    }
  }

  /** An odd chunk before the audio does harm: its pad byte is taken for the start of the next tag, and the audio is
      never found. */
  lemma OddChunkHidesAudio(front: seq<Chunk>, odd: Chunk, audio: Bytes)
    requires AllGood(front, false) && AllEven(front) && LastWith(DATA, front).None?
    requires Good(odd, false) && |odd.body| % 2 == 1 && odd.tag != DATA
    requires 0 < |audio| < 0x100_0000
    requires 4 + |WrittenAll(front)| + |Written(odd)| + |Written(Chunk(DATA, audio))| < STREAMING
    ensures var payload := WrittenAll(front) + (Written(odd) + Written(Chunk(DATA, audio)));
            OpenFile(WavFile(4 + |payload|, payload)).dataLength == 0
  {
    hide HeaderOf, GoodFormat, SubChunks, WavFile, Open, Written;
    var tail := Written(odd) + Written(Chunk(DATA, audio));
    var payload := WrittenAll(front) + tail;
    var file := WavFile(4 + |payload|, payload);
    var r := Fresh.(pos := 12);
    OpenReachesChunks(4 + |payload|, payload);
    ChunksRead(file, r, 0, |payload|, front, tail);
    EffectsOf(file, r, 0, front, tail);
    var r', dp := EffectAll(front, r), DataPosAfterAll(front, r, 0);
    OddThenData(file, r', dp, odd, audio);
    var end := SubChunks(file, r', dp, |tail|);
    OpenAtEnd(file, end.r.(pos := |file|), end.dataPos);
  }

  lemma OddThenData(file: Bytes, r: Reader, dataPos: nat, odd: Chunk, audio: Bytes)
    requires Good(odd, r.streamed) && |odd.body| % 2 == 1 && odd.tag != DATA && 0 < |audio| < 0x100_0000
    requires r.pos <= |file| && file[r.pos..] == Written(odd) + Written(Chunk(DATA, audio))
    ensures var end := SubChunks(file, r, dataPos, |Written(odd)| + |Written(Chunk(DATA, audio))|);
            end.Stop? && end.length > 0 && end.r.pos + end.length == |file| && end.r.dataLength == r.dataLength
  {
    hide SubChunk, HeaderOf, GoodFormat, Encode, Little;
    var data := Chunk(DATA, audio);
    var length := |Written(odd)| + |Written(data)|;
    assert |Written(odd)| == 9 + |odd.body| && |Written(data)| == 8 + |audio| + |audio| % 2;
    WrittenParts(file, r.pos, odd, Written(data));
    SubChunkReads(file, r, dataPos, length, odd);
    var p := r.pos + 8 + |odd.body|;
    MisreadTag(file, Effect(odd, r), dataPos, 1 + |Written(data)|, audio);
  }

  /** The pad byte and the "data" header, read as a tag and a length. */
  lemma MisreadHead(file: Bytes, pos: nat, audio: Bytes)
    requires pos <= |file| && file[pos..] == [0] + Written(Chunk(DATA, audio))
    ensures Avail(file, pos, 4) == [0, 100, 97, 116] && Past(file, pos + 4, 4) == pos + 8
    ensures Number(file, pos + 4, 4) == Little([97] + Encode(|audio|, 4)[..3], 4)
    ensures |file| == pos + 9 + |audio| + |audio| % 2
  {
    hide Encode, Little, Past, Number;
    var code, rest := Encode(|audio|, 4), audio + if |audio| % 2 == 0 then [] else [0];
    assert Written(Chunk(DATA, audio)) == DATA + (code + rest);
    PaddedStart(file[pos..], code, rest);
    Slice(file, pos, 0, 4);
    Slice(file, pos, 4, 8);
    NumberAt(file, pos + 4, 4);
  }

  lemma PaddedStart(after: Bytes, code: Bytes, rest: Bytes)
    requires |code| == 4 && after == [0] + (DATA + (code + rest))
    ensures after[0..4] == [0, 100, 97, 116] && after[4..8] == [97] + code[..3]
  {
    assert forall i :: 0 <= i < 3 ==> after[5 + i] == code[i];
  }

  lemma MisreadTag(file: Bytes, r: Reader, dataPos: nat, length: int, audio: Bytes)
    requires 0 < |audio| < 0x100_0000 && r.pos <= |file|
    requires file[r.pos..] == [0] + Written(Chunk(DATA, audio)) && length == 1 + |Written(Chunk(DATA, audio))|
    ensures length >= 8 && SubChunk(file, r, dataPos, length) == Stop(r.(pos := r.pos + 8), dataPos, length - 8)
    ensures r.pos + length == |file|
  {
    hide Encode, Little, Past, Number, FormatChunk;
    MisreadHead(file, r.pos, audio);
    ShiftedLength(|audio|);
  }

  lemma ShiftedLength(n: nat)
    requires n < 0x100_0000
    ensures Little([97] + Encode(n, 4)[..3], 4) == 97 + 256 * n
  {
    EncodePrefix(n, 3);
    assert Power(0) == 1 && Power(1) == 256 && Power(2) == 0x1_0000 && Power(3) == 0x100_0000;
    LittleEncode(n, 3);
    hide Encode;
    var b := [97] + Encode(n, 3);
    assert b[0] == 97 && b[1..] == Encode(n, 3);
    assert Little(b, 4) == 97 + 256 * Little(b[1..], 3);
  }

  // ----- No later data position is the right one -----

  /** What the inner loop takes for the audio is what it took before, or lies beyond where it started. */
  lemma {:induction false} SubChunksLater(file: Bytes, r: Reader, dataPos: nat, length: int)
    ensures var end := SubChunks(file, r, dataPos, length);
            && (end.dataPos == dataPos || end.dataPos > r.pos) && (end.Return? ==> end.r.pos > r.pos)
    decreases length
  {
    hide FormatChunk, SubChunk, Number, Past;
    if length >= 8 {
      SubChunkLater(file, r, dataPos, length);
      var next := SubChunk(file, r, dataPos, length);
      if next.Continue? { SubChunksLater(file, next.r, next.dataPos, next.length); }
    }
  }

  lemma SubChunkLater(file: Bytes, r: Reader, dataPos: nat, length: int)
    requires length >= 8
    ensures var next := SubChunk(file, r, dataPos, length);
            && (next.dataPos == dataPos || next.dataPos > r.pos) && (next.Return? ==> next.r.pos > r.pos)
  {
    hide Number, BasicHeader;
  }

  lemma {:induction false} OpenLater(file: Bytes, r: Reader, dataPos: nat)
    ensures Open(file, r, dataPos).pos == dataPos || Open(file, r, dataPos).pos > r.pos
    decreases |file| - r.pos
  {
    TopChunkLater(file, r, dataPos);
    hide TopChunk;
    var next := TopChunk(file, r, dataPos);
    if next.Continue? { OpenLater(file, next.r, next.dataPos); }
  }

  lemma TopChunkLater(file: Bytes, r: Reader, dataPos: nat)
    ensures var next := TopChunk(file, r, dataPos);
            && (next.dataPos == dataPos || next.dataPos > r.pos) && (next.Return? ==> next.r.pos > r.pos)
            && (next.Stop? ==> next.dataPos == dataPos)
  {
    hide SubChunks, Number;
    var q := Past(file, r.pos + |Avail(file, r.pos, 4)|, 4);
    var declared := Number(file, r.pos + |Avail(file, r.pos, 4)|, 4);
    var stream := declared == 0 || declared >= STREAMING;
    var s := r.(streamed := r.streamed || stream, pos := q + |Avail(file, q, 4)|);
    SubChunksLater(file, s, dataPos, (if stream then UINT32 - 1 else declared) - 4);
  }

  /** Past the misread header the reader is past the start of the audio. */
  lemma MisreadOverruns(file: Bytes, r: Reader, dataPos: nat, length: int, audio: Bytes)
    requires 0 < |audio| && length < STREAMING && r.pos <= |file|
    requires file[r.pos..] == [0] + Written(Chunk(DATA, audio)) && length == 1 + |Written(Chunk(DATA, audio))|
    ensures length >= 8 && r.pos + length == |file|
    ensures var next := SubChunk(file, r, dataPos, length);
            && next.dataPos == dataPos
            && ((next.Stop? && next.r.pos + next.length == |file|) || (next.Continue? && next.r.pos > r.pos + 9))
  {
    hide Encode, Little, Past, Number, FormatChunk;
    MisreadHead(file, r.pos, audio);
    TagByteFirst(Encode(|audio|, 4)[..3]);
    var size := Number(file, r.pos + 4, 4);
    if size <= length - 8 { SkippedAt(file, r.pos + 8, size); }
  }

  lemma TagByteFirst(b: Bytes)
    ensures Little([97] + b, 4) >= 97
  {
    assert ([97] + b)[0] == 97;
  }

  /** Whatever the misread header leads to, the reader never stands at the audio. */
  lemma AudioNeverFound(front: seq<Chunk>, odd: Chunk, audio: Bytes)
    requires AllGood(front, false) && AllEven(front) && LastWith(DATA, front).None?
    requires Good(odd, false) && |odd.body| % 2 == 1 && odd.tag != DATA && 0 < |audio|
    requires 4 + |WrittenAll(front)| + |Written(odd)| + |Written(Chunk(DATA, audio))| < STREAMING
    ensures var payload := WrittenAll(front) + (Written(odd) + Written(Chunk(DATA, audio)));
            var file := WavFile(4 + |payload|, payload);
            var start := |file| - |audio| - |audio| % 2;
            OpenFile(file).pos == 0 || OpenFile(file).pos > start
  {
    hide HeaderOf, GoodFormat, SubChunks, WavFile, Open, Written;
    var tail := Written(odd) + Written(Chunk(DATA, audio));
    var payload := WrittenAll(front) + tail;
    var file := WavFile(4 + |payload|, payload);
    var r := Fresh.(pos := 12);
    OpenReachesChunks(4 + |payload|, payload);
    ChunksRead(file, r, 0, |payload|, front, tail);
    EffectsOf(file, r, 0, front, tail);
    OddThenAnyData(file, EffectAll(front, r), 0, odd, audio);
    var end := SubChunks(file, r, 0, |payload|);
    if !end.Return? {
      OpenLater(file, end.r.(pos := end.r.pos + if end.length > 0 then end.length else 0), end.dataPos);
    }
  }

  lemma OddThenAnyData(file: Bytes, r: Reader, dataPos: nat, odd: Chunk, audio: Bytes)
    requires Good(odd, r.streamed) && |odd.body| % 2 == 1 && odd.tag != DATA && 0 < |audio|
    requires |Written(odd)| + |Written(Chunk(DATA, audio))| < STREAMING
    requires r.pos <= |file| && file[r.pos..] == Written(odd) + Written(Chunk(DATA, audio))
    ensures var end := SubChunks(file, r, dataPos, |Written(odd)| + |Written(Chunk(DATA, audio))|);
            var start := |file| - |audio| - |audio| % 2;
            && (end.dataPos == dataPos || end.dataPos > start)
            && (end.Return? ==> end.r.pos > start)
            && (end.Stop? ==> end.r.pos + (if end.length > 0 then end.length else 0) > start)
  {
    hide SubChunk, HeaderOf, GoodFormat, Encode, Little;
    var data := Chunk(DATA, audio);
    var length := |Written(odd)| + |Written(data)|;
    assert |Written(odd)| == 9 + |odd.body| && |Written(data)| == 8 + |audio| + |audio| % 2;
    WrittenParts(file, r.pos, odd, Written(data));
    SubChunkReads(file, r, dataPos, length, odd);
    MisreadOverruns(file, Effect(odd, r), dataPos, 1 + |Written(data)|, audio);
    var next := SubChunk(file, Effect(odd, r), dataPos, 1 + |Written(data)|);
    if next.Continue? { SubChunksLater(file, next.r, dataPos, next.length); }
  }
}
