/**
 The WAV reader as the program runs it: a stdio stream with its position and
 end-of-file flag, and a structure whose fields the chunk walk fills in.
 */
module WavHandle {
  import opened Basics
  import opened WavReader

  /** How one round of the inner loop ended. */
  datatype Kind = Go | Leave | Done

  class WavHandle {
    const file: Bytes
    var pos: nat
    var eof: bool
    var header: Header
    var dataLength: nat
    var streamed: bool

    ghost function View(): Reader
      reads this
    {
      Reader(pos, header, dataLength, streamed)
    }

    /** The flag is raised only at the end of the file. */
    ghost predicate Valid()
      reads this
    {
      eof ==> pos >= |file|
    }

    constructor (file: Bytes)
      ensures this.file == file && Valid() && View() == Fresh
    {
      this.file := file;
      pos, eof, header, dataLength, streamed := 0, false, Fresh.header, 0, false;
    }

    /** `fgetc`; `None` is EOF. */
    method GetChar() returns (c: Option<Byte>)
      requires Valid()
      modifies `pos, `eof
      ensures Valid() && eof == (old(eof) || c.None?)
      ensures c.Some? <==> old(pos) < |file|
      ensures c.Some? ==> c.value == file[old(pos)] && pos == old(pos) + 1
      ensures c.None? ==> pos == old(pos)
    {
      if pos < |file| {
        c := Some(file[pos]);
        pos := pos + 1;
      } else {
        eof := true;
        c := None;
      }
    }

    /** `fseek` forward from the current position clears the flag. */
    method Seek(offset: nat)
      modifies `pos, `eof
      ensures Valid() && pos == old(pos) + offset
    {
      pos := pos + offset;
      eof := false;
    }

    /** `read_tag`: four bytes, or fewer and the flag raised. */
    method ReadTag() returns (tag: Bytes)
      requires Valid()
      modifies `pos, `eof
      ensures Valid() && tag == Avail(file, old(pos), 4) && pos == old(pos) + |tag|
      ensures eof <==> |tag| < 4
    {
      tag := [];
      for i := 0 to 4
        invariant Valid() && tag == Avail(file, old(pos), i) && pos == old(pos) + |tag|
        invariant |tag| < i ==> eof
        invariant |tag| == i ==> eof == old(eof)
      {
        var c := GetChar();
        if c.Some? {
          tag := tag + [c.value];
        }
      }
    }

    /** `read_int16` and `read_int32`: each byte is shifted into place; EOF, being -1, sets all higher bits. */
    method ReadInt(n: nat) returns (value: nat)
      requires Valid()
      modifies `pos, `eof
      ensures Valid() && value == Number(file, old(pos), n) && old(pos) <= pos == Past(file, old(pos), n)
    {
      hide Little, AllOnes, Avail;
      ghost var all := Avail(file, pos, n);
      var v, scale, ended, i := 0, 1, false, 0;
      LittleStep(all, n, 0, 0, 1);
      while i < n
        invariant 0 <= i <= n && Valid()
        invariant pos == old(pos) + if i <= |all| then i else |all|
        invariant ended <==> i > |all|
        invariant !ended ==> v + scale * Little(all[i..], n - i) == Little(all, n)
        invariant ended ==> v == Little(all, n)
      {
        if !ended { LittleStep(all, n, i, v, scale); }
        var c := GetChar();
        if c.Some? {
          v := v + scale * c.value as int;
          scale := scale * 256;
        } else if !ended {
          v := v + scale * AllOnes(n - i);
          ended := true;
        }
        i := i + 1;
      }
      if !ended { LittleStep(all, n, n, v, scale); }
      value := v;
    }

    /** `skip`: its counter is an `int`. */
    method Skip(count: nat)
      requires Valid() && count < UINT32
      modifies `pos, `eof
      ensures Valid() && pos == Skipped(file, old(pos), count)
    {
      if count >= 0x8000_0000 {
        return;
      }
      for i := 0 to count
        invariant Valid() && pos == Past(file, old(pos), i)
      {
        var c := GetChar();
      }
    }

    /** The fields of "fmt ", in file order. */
    method ReadHeader()
      requires Valid()
      modifies `pos, `eof, `header
      ensures Valid() && (header, pos) == BasicHeader(file, old(pos))
    {
      hide Number, Past;
      var format := ReadInt(2);
      var channels := ReadInt(2);
      var sampleRate := ReadInt(4);
      var byteRate := ReadInt(4);
      var blockAlign := ReadInt(2);
      var bits := ReadInt(2);
      header := Header(format, channels, Signed(sampleRate), Signed(byteRate), blockAlign, bits);
    }

    method ReadFormatChunk(size: nat, rest: nat) returns (kind: Kind, length: nat)
      requires Valid() && size <= rest < UINT32
      modifies `pos, `eof, `header
      ensures Valid() && kind != Done
      ensures forall dataPos :: FormatChunk(file, old(View()), dataPos, size, rest) ==
                if kind == Go then Continue(View(), dataPos, length) else Stop(View(), dataPos, length)
    {
      hide BasicHeader, Number, Past, Skipped;
      if size < 16 {
        return Leave, rest;
      }
      ReadHeader();
      if header.format == EXTENSIBLE {
        if size < 28 {
          return Leave, rest;
        }
        Skip(8);
        var format := ReadInt(4);
        header := header.(format := Signed(format));
        Skip(size - 28);
      } else {
        Skip(size - 16);
      }
      kind, length := Go, rest - size;
    }

    /** One round of the inner loop. */
    method ReadSubChunk(dataPos: nat, length: nat) returns (kind: Kind, dataPos': nat, length': nat)
      requires Valid() && 8 <= length < UINT32
      modifies this
      ensures Valid()
      ensures SubChunk(file, old(View()), dataPos, length) ==
              match kind
              case Go => Continue(View(), dataPos', length')
              case Leave => Stop(View(), dataPos', length')
              case Done => Return(View(), dataPos')
    {
      hide FormatChunk, Number, Past, Skipped, Avail;
      kind, dataPos', length' := Leave, dataPos, length;
      var tag := ReadTag();
      if eof {
        return;
      }
      var size := ReadInt(4);
      var rest := length - 8;
      length' := rest;
      if rest < size {
        return;
      }
      if tag == FMT {
        kind, length' := ReadFormatChunk(size, rest);
      } else if tag == DATA {
        dataPos' := pos;
        dataLength := size;
        if dataLength == 0 || streamed {
          streamed := true;
          kind := Done;
          return;
        }
        Seek(size);
        kind, length' := Go, rest - size;
      } else {
        Skip(size);
        kind, length' := Go, rest - size;
      }
    }

    /** The inner loop. */
    method ReadSubChunks(dataPos: nat, length: nat) returns (done: bool, dataPos': nat, length': nat)
      requires Valid() && length < UINT32
      modifies this
      ensures Valid() && old(pos) <= pos
      ensures SubChunks(file, old(View()), dataPos, length) ==
              if done then Return(View(), dataPos') else Stop(View(), dataPos', length')
    {
      hide SubChunk;
      done, dataPos', length' := false, dataPos, length;
      while length' >= 8
        invariant Valid() && old(pos) <= pos && length' <= length
        invariant SubChunks(file, old(View()), dataPos, length) == SubChunks(file, View(), dataPos', length')
        decreases length'
      {
        var kind;
        kind, dataPos', length' := ReadSubChunk(dataPos', length');
        if kind != Go {
          done := kind == Done;
          return;
        }
      }
    }

    /** One round of the outer loop: go on, return at once, or stop at the end of the file. */
    method ReadChunk(dataPos: nat) returns (kind: Kind, dataPos': nat)
      requires Valid()
      modifies this
      ensures Valid()
      ensures TopChunk(file, old(View()), dataPos) ==
              match kind
              case Go => Continue(View(), dataPos', 0)
              case Leave => Stop(View(), dataPos', 0)
              case Done => Return(View(), dataPos')
    {
      hide SubChunks, Number, Past, Avail;
      kind, dataPos' := Leave, dataPos;
      var tag := ReadTag();
      if eof {
        return;
      }
      kind := Go;
      var length: nat := ReadInt(4);
      if length == 0 || length >= STREAMING {
        streamed := true;
        length := UINT32 - 1;
      }
      if tag != RIFF || length < 4 {
        Seek(length);
        return;
      }
      var tag2 := ReadTag();
      length := length - 4;
      if tag2 != WAVE {
        Seek(length);
        return;
      }
      var done;
      done, dataPos', length := ReadSubChunks(dataPos, length);
      if done {
        kind := Done;
        return;
      }
      if length > 0 {
        Seek(length);
      }
    }

    /** `wav_read_open` on an opened file. */
    method OpenWav()
      requires Valid() && View() == Fresh
      modifies this
      ensures Valid() && View() == OpenFile(file)
    {
      hide TopChunk;
      var dataPos := 0;
      while true
        invariant Valid() && Open(file, View(), dataPos) == OpenFile(file)
        decreases |file| - pos
      {
        var kind;
        kind, dataPos := ReadChunk(dataPos);
        if kind == Done {
          return;
        }
        if kind == Leave {
          break;
        }
      }
      pos := dataPos;
      eof := false;
    }

    /** `wav_get_header`; `ok` tells a usable header from none. */
    method GetHeader() returns (h: Header, length: nat, ok: bool)
      ensures h == header && length == dataLength && (ok <==> header.format != 0 && header.sampleRate != 0)
    {
      h, length := header, dataLength;
      ok := header.format != 0 && header.sampleRate != 0;
    }

    /** `wav_read_data`. */
    method Read(n: nat) returns (data: Bytes)
      requires Valid()
      modifies this
      ensures Valid() && (View(), data) == ReadData(file, old(View()), n)
    {
      var length := n;
      if length > dataLength && !streamed {
        length := dataLength;
      }
      data := Avail(file, pos, length);
      pos := pos + |data|;
      eof := eof || |data| < length;
      dataLength := (dataLength - length) % UINT32;
    }
  }

  /** A caller's use of the reader on a written file: opening, asking for the header and reading in pieces of any
      sizes gives back what was written. */
  method ReadBack(file: Bytes, sizes: seq<nat>, ghost front: seq<Chunk>, ghost last: Chunk, ghost h: Header,
                  ghost extension: Option<Bytes>, ghost extra: Bytes, ghost audio: Bytes)
    returns (header: Header, length: nat, ok: bool, data: Bytes)
    requires AllGood(front, false) && AllEven(front) && Good(last, false)
    requires 4 + |WrittenAll(front)| + |Written(last)| < STREAMING
    requires Representable(h, extension)
    requires (if last.tag == FMT then Some(last.body) else LastWith(FMT, front)) == Some(FormatBody(h, extension, extra))
    requires (if last.tag == DATA then Some(last.body) else LastWith(DATA, front)) == Some(audio)
    requires file == WavFile(4 + |WrittenAll(front)| + |Written(last)|, WrittenAll(front) + Written(last))
    ensures header == h && length == |audio| && (ok <==> h.format != 0 && h.sampleRate != 0)
    ensures data == audio[..Min(Sum(sizes), |audio|)]
  {
    hide AllGood, AllEven, Good, Written, WrittenAll, Representable, FormatBody, LastWith, WavFile, OpenFile, ReadData, Sum;
    WavRoundTrip(front, last, h, extension, extra, audio, sizes);
    var handle := new WavHandle(file);
    handle.OpenWav();
    header, length, ok := handle.GetHeader();
    data := [];
    ghost var start := handle.View();
    for i := 0 to |sizes|
      invariant handle.Valid() && handle.file == file
      invariant data + ReadAll(file, handle.View(), sizes[i..]) == ReadAll(file, start, sizes)
    {
      var got := handle.Read(sizes[i]);
      assert sizes[i..][1..] == sizes[i + 1..];
      data := data + got;
    }
  }

  /** Peeling byte `i` off a little-endian number. */
  lemma LittleStep(all: Bytes, n: nat, i: nat, value: int, scale: int)
    requires |all| <= n && i <= n
    ensures i == 0 ==> all[i..] == all
    ensures i == n ==> Little(all[if i <= |all| then i else |all|..], 0) == 0
    ensures i < n && i < |all| ==>
      value + scale * Little(all[i..], n - i) == value + scale * all[i] as int + scale * 256 * Little(all[i + 1..], n - i - 1)
    ensures i < n && i >= |all| ==> Little(all[|all|..], n - i) == AllOnes(n - i)
  {
    if i < n && i < |all| {
      assert all[i..][1..] == all[i + 1..];
      var b, rest := all[i] as int, Little(all[i + 1..], n - i - 1);
      assert scale * (b + 256 * rest) == scale * b + scale * 256 * rest;
    }
  }
}
