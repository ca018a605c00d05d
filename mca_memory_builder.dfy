/** The in-memory region file builder of the test suite (McaMemoryBuilder.kt).

    Each chunk becomes the NBT long tag `InhabitedTime` with its value,
    compressed by the chosen method and framed as a record: a 4-byte
    big-endian length, the method byte and the compressed bytes, zero-padded
    to whole sectors.  The record's slot gets a location word and the time
    of the build (the clock is a parameter).  The builder lays the records
    out exactly as `McaWriter` does, so the image it returns is
    `RegionImage.Image` of its writes and the reader finds every chunk's
    `InhabitedTime` again. */
module MemoryBuilder {
  import opened Bytes
  import opened Wrappers
  import opened Codecs
  import opened RegionImage
  import Entry
  import Lz4Block
  import Patterns
  import Reader
  import RandomAccess
  import Writer

  datatype CompressionKind = RAW | ZLIB | GZIP | LZ4

  datatype MemChunk = MemChunk(index: int32, inhabited: int64, kind: CompressionKind)

  /** Why a build throws. */
  datatype BuildError =
    | OutOfMemory            // the byte streams outgrow the largest JVM array
    | BadPosition(pos: int)  // `ByteBuffer.position` outside 0..4096
    | BufferOverflow         // `putInt` with fewer than four bytes left

  /** `inhabitedTag`: tag type 4, the 2-byte big-endian length of the name,
      the name and the big-endian value. */
  function InhabitedTag(value: int64): (r: seq<byte>)
    ensures |r| == |Patterns.PREFIX| + 8
  {
    [Patterns.LONG_TAG] + [0x00, |Patterns.NAME| as byte] + Patterns.NAME + Int64ToBE(value)
  }

  /** The tag holds the searched prefix at its start, so the scan of
      `InhabitedTimePattern` finds exactly the value it was built with. */
  lemma InhabitedTagFound(value: int64)
    ensures Patterns.FindInhabited(InhabitedTag(value)) == Some(value)
  {
    var tag := InhabitedTag(value);
    assert tag[..|Patterns.PREFIX|] == Patterns.PREFIX;
    assert tag[|Patterns.PREFIX|..|Patterns.PREFIX| + 8] == Int64ToBE(value);
    Int64BERoundTrip(value);
    Patterns.FindInhabitedFirst(tag, 0);
  }

  /** The LZ4 frame of `compress`: token `0x20`, the compressor's output, the
      original length and the masked xxHash32 of the data. */
  function Lz4Frame(c: Codecs, data: seq<byte>): seq<byte>
  {
    Lz4Block.Block(0x20, c.lz4Compress(data), |data|, Lz4Block.Checksum(c, data))
  }

  /** `compress`: the method byte and the compressed bytes. */
  function Compress(c: Codecs, kind: CompressionKind, data: seq<byte>): (r: (byte, seq<byte>))
    ensures Entry.CompressionOf(Signed8(r.0)) == Some(MethodOf(kind))
  {
    match kind
    case RAW => (3, data)
    case ZLIB => (2, c.deflate(data))
    case GZIP => (1, c.gzip(data))
    case LZ4 => (4, Lz4Frame(c, data))
  }

  /** The reader's method for each kind the builder writes. */
  function MethodOf(kind: CompressionKind): Entry.CompressionMethod
  {
    match kind
    case RAW => Entry.RAW
    case ZLIB => Entry.ZLIB
    case GZIP => Entry.GZIP
    case LZ4 => Entry.LZ4
  }

  /** The foreign decoder undoes the foreign encoder on `data`: what the
      round trip through a region file needs of the codecs.  Stored bytes
      need nothing. */
  predicate Inverts(c: Codecs, kind: CompressionKind, data: seq<byte>)
  {
    match kind
    case RAW => true
    case ZLIB => c.inflate(c.deflate(data)) == Some(data)
    case GZIP => c.gunzip(c.gzip(data)) == Some(data)
    case LZ4 => |data| < TWO_31 && |c.lz4Compress(data)| < TWO_31 && c.lz4Decompress(c.lz4Compress(data), |data|) == Some(data)
  }

  /** The record of one chunk: `putInt(1 + body.size)`, the method byte, the body. */
  function RecordBytes(m: byte, body: seq<byte>): (r: seq<byte>)
    ensures |r| == 5 + |body|
  {
    Int32ToBE(1 + |body|) + [m] + body
  }

  /** The record `buildMca` writes for a chunk. */
  function ChunkRecord(c: Codecs, ch: MemChunk): seq<byte>
  {
    var (m, body) := Compress(c, ch.kind, InhabitedTag(ch.inhabited));
    RecordBytes(m, body)
  }

  /** `(System.currentTimeMillis() / 1000).toInt()` for a clock reading. */
  function Stamp(millis: int64): int32
  {
    ToInt32(TruncDiv(millis, 1000))
  }

  /** One step of the build after the writes `ws`: the record for index
      `idx` goes at the end of the data unless the streams would outgrow
      the largest array, and the slot is `c.index * 4` in `Int` arithmetic,
      refused by `position` outside 0..4096 and by `putInt` past 4092. */
  function StepOf(ws: seq<Put>, idx: int32, rec: seq<byte>, millis: int64): Result<Put, BuildError>
  {
    if 8192 + |Body(ws)| + |Padded(rec)| > INT32_MAX then Err(OutOfMemory)
    else
      var pos := ToInt32(idx * 4);
      if pos < 0 || pos > 4096 then Err(BadPosition(pos))
      else if pos > 4092 then Err(BufferOverflow)
      else Ok(Put(pos / 4, Stamp(millis), rec))
  }

  /** The writes of `buildMca` for `chunks`, the `k`-th chunk stamped with
      the `k`-th clock reading; the first refused chunk ends the build. */
  function PutsOf(c: Codecs, chunks: seq<MemChunk>, clock: nat -> int64): Result<seq<Put>, BuildError>
  {
    if chunks == [] then Ok([])
    else
      var n := |chunks| - 1;
      match PutsOf(c, chunks[..n], clock)
      case Err(e) => Err(e)
      case Ok(ws) =>
        match StepOf(ws, chunks[n].index, ChunkRecord(c, chunks[n]), clock(n))
        case Err(e) => Err(e)
        case Ok(w) => Ok(ws + [w])
  }

  /** The result of `buildMca`. */
  function BuiltImage(c: Codecs, chunks: seq<MemChunk>, clock: nat -> int64): Result<seq<byte>, BuildError>
  {
    match PutsOf(c, chunks, clock)
    case Err(e) => Err(e)
    case Ok(ws) => Ok(Image(ws))
  }

  // ---------------------------------------------------------------------
  // The builder's buffers.

  /** The locals `buildMca` and `buildSingleEntryMca` fill: the two header
      arrays behind their `ByteBuffer`s, the data stream and `offsetBytes`.
      The ghost writes record every `writeOne` so far. */
  class RegionBuffers {
    const loc: array<byte>
    const time: array<byte>
    var data: seq<byte>
    var offsetBytes: int32
    ghost var puts: seq<Put>

    /** The header arrays hold the tables of the writes, the stream their
      padded records, and `offsetBytes` the end of the image. */
    ghost predicate Valid()
      reads this, loc, time
    {
      && loc.Length == 4096 && time.Length == 4096 && loc != time
      && 8192 + |Body(puts)| <= INT32_MAX
      && loc[..] == TableBytes(LocWords(TablesAfter(puts).offsets, TablesAfter(puts).sizes))
      && time[..] == TableBytes(TablesAfter(puts).timestamps)
      && data == Body(puts)
      && offsetBytes == 8192 + |Body(puts)|
    }

    constructor ()
      ensures Valid() && puts == [] && fresh(loc) && fresh(time)
    {
      loc := new byte[4096](_ => 0);
      time := new byte[4096](_ => 0);
      data := [];
      offsetBytes := 8192;
      puts := [];
      new;
      EmptyImage();
      assert Image([]) == Zeros(8192);
      assert loc[..] == Zeros(8192)[..4096];
      assert time[..] == Zeros(8192)[4096..8192];
    }

    /** `writeOne(idx, m, b)`, or one iteration of `buildMca`'s loop.  The
      builder throws on a refused step and its buffers are dropped, so the
      checks come first here. */
    method WriteOne(idx: int32, m: byte, b: seq<byte>, millis: int64) returns (r: Result<(), BuildError>)
      requires Valid()
      modifies this, loc, time
      ensures Valid()
      ensures var s := StepOf(old(puts), idx, RecordBytes(m, b), millis);
        && (r.Ok? <==> s.Ok?)
        && (r.Err? ==> r.error == s.error && puts == old(puts))
        && (r.Ok? ==> puts == old(puts) + [s.value])
    {
      var rec := Int32ToBE(1 + |b|) + [m] + b;
      var written := 4 + 1 + |b|;
      var pad := (4096 - written % 4096) % 4096;
      assert written + pad == |Padded(rec)|;
      if 8192 + |data| + written + pad > INT32_MAX {
        return Err(OutOfMemory);
      }
      var pos := ToInt32(idx * 4);
      if pos < 0 || pos > 4096 {
        return Err(BadPosition(pos));
      }
      if pos > 4092 {
        return Err(BufferOverflow);
      }
      Slot(idx, pos);
      Append(rec, pos / 4, Stamp(millis));
      r := Ok(());
    }

    /** The accepted step: the padded record goes on the stream, the slot's
      words into the two header arrays, and `offsetBytes` moves on. */
    method Append(rec: seq<byte>, slot: Entry.SlotIndex, stamp: int32)
      requires Valid()
      requires 8192 + |Body(puts)| + |Padded(rec)| <= INT32_MAX
      modifies this, loc, time
      ensures Valid()
      ensures puts == old(puts) + [Put(slot, stamp, rec)]
    {
      ghost var ws0, w := puts, Put(slot, stamp, rec);
      ghost var t0 := TablesAfter(ws0);
      var size := |Padded(rec)|;
      var offSectors := offsetBytes / 4096;
      var sizeSectors := size / 4096;
      var v := offSectors * 256 + sizeSectors % 256;
      WordOf(offsetBytes, size);
      PutWords(t0, slot, v, stamp);
      WritePadded(rec);
      puts := ws0 + [w];
      AppendedState(ws0, w, loc[..], time[..], data, offsetBytes);
    }

    /** `loc.position(index * 4); loc.putInt(v)` and `time.position(index * 4);
      time.putInt(now)`: the slot's words in the two header arrays. */
    method PutWords(ghost t0: Reader.Tables, slot: Entry.SlotIndex, v: int32, stamp: int32)
      requires t0.Full() && loc.Length == 4096 && time.Length == 4096 && loc != time
      requires loc[..] == TableBytes(LocWords(t0.offsets, t0.sizes)) && time[..] == TableBytes(t0.timestamps)
      modifies loc, time
      ensures loc[..] == TableBytes(LocWords(t0.offsets, t0.sizes)[slot := v])
      ensures time[..] == TableBytes(t0.timestamps[slot := stamp])
    {
      PutWord(loc, LocWords(t0.offsets, t0.sizes), slot, v);
      PutWord(time, t0.timestamps, slot, stamp);
    }

    /** `data.write(lenBuf)`, the method byte and the body (here `rec`), the
      zero padding, and `offsetBytes += written + pad`. */
    method WritePadded(rec: seq<byte>)
      requires offsetBytes + |Padded(rec)| <= INT32_MAX
      modifies this
      ensures puts == old(puts)
      ensures data == old(data) + Padded(rec)
      ensures offsetBytes == old(offsetBytes) + |Padded(rec)|
    {
      data := data + rec;
      var written := |rec|;
      var pad := (4096 - written % 4096) % 4096;
      assert pad == Pad(written);
      if pad > 0 {
        data := data + Zeros(pad);
      } else {
        assert Zeros(pad) == [];
      }
      offsetBytes := offsetBytes + written + pad;
    }

    /** `out.write(header); out.write(data)`: the finished region file. */
    method Finish() returns (out: seq<byte>)
      requires Valid()
      ensures out == Image(puts)
    {
      out := loc[..] + time[..] + data;
    }
  }

  /** The builder's buffers after one more accepted write are those of the
      writes so far followed by that write. */
  lemma AppendedState(ws0: seq<Put>, w: Put, locBytes: seq<byte>, timeBytes: seq<byte>, d: seq<byte>, off: int)
    requires 8192 + |Body(ws0)| + |Padded(w.bytes)| <= INT32_MAX
    requires var t0 := TablesAfter(ws0);
      locBytes == TableBytes(LocWords(t0.offsets, t0.sizes)[w.index := LocWord(8192 + |Body(ws0)|, |Padded(w.bytes)|)])
    requires timeBytes == TableBytes(TablesAfter(ws0).timestamps[w.index := w.modified])
    requires d == Body(ws0) + Padded(w.bytes) && off == 8192 + |Body(ws0)| + |Padded(w.bytes)|
    ensures var t1 := TablesAfter(ws0 + [w]);
      && locBytes == TableBytes(LocWords(t1.offsets, t1.sizes)) && timeBytes == TableBytes(t1.timestamps)
      && d == Body(ws0 + [w]) && off == 8192 + |Body(ws0 + [w])| <= INT32_MAX
  {
    TablesWords(ws0, w);
  }

  /** The header words and the data after one more accepted write. */
  lemma TablesWords(ws: seq<Put>, w: Put)
    requires 8192 + |Body(ws)| + |Padded(w.bytes)| <= INT32_MAX
    ensures var t0, t1 := TablesAfter(ws), TablesAfter(ws + [w]);
      var off, size := 8192 + |Body(ws)|, |Padded(w.bytes)|;
      && LocWords(t1.offsets, t1.sizes) == LocWords(t0.offsets, t0.sizes)[w.index := LocWord(off, size)]
      && t1.timestamps == t0.timestamps[w.index := w.modified]
      && Body(ws + [w]) == Body(ws) + Padded(w.bytes)
  {
    var t0, t1 := TablesAfter(ws), TablesAfter(ws + [w]);
    var off, size := 8192 + |Body(ws)|, |Padded(w.bytes)|;
    assert ToInt32(off) == off && ToInt32(size) == size;
    Writer.TablesStep(ws, w);
    var o1, s1 := t0.offsets[w.index := off], t0.sizes[w.index := size];
    assert t1.offsets == o1 && t1.sizes == s1;
    LocWordsStep(t0.offsets, t0.sizes, w.index, off, size);
  }

  /** `c.index * 4` passed by `position` and `putInt` is four times a slot. */
  lemma Slot(idx: int32, pos: int)
    requires pos == ToInt32(idx * 4) && 0 <= pos <= 4092
    ensures pos % 4 == 0 && 0 <= pos / 4 < 1024 && pos == 4 * (pos / 4)
  {
    var k := (pos - idx * 4) / TWO_32;
    assert pos == idx * 4 + k * TWO_32;
    assert pos == 4 * (idx + k * 0x4000_0000);
  }

  /** Without wrap-around, `(offSectors shl 8) or (sizeSectors and 0xFF)` is
      the location word of `McaWriter`. */
  lemma WordOf(off: int, size: int)
    requires 0 <= off <= INT32_MAX && 0 <= size <= INT32_MAX
    ensures (off / 4096) * 256 + (size / 4096) % 256 == LocWord(off, size)
  {
    assert off / 4096 <= 0x8_0000;
    assert (off / 4096) * 256 <= 0x800_0000;
  }

  /** The location words after a write to slot `i`. */
  lemma LocWordsStep(offsets: seq<int32>, sizes: seq<int32>, i: Entry.SlotIndex, off: int32, size: int32)
    requires |offsets| == 1024 && |sizes| == 1024
    ensures LocWords(offsets[i := off], sizes[i := size]) == LocWords(offsets, sizes)[i := LocWord(off, size)]
  {
  }

  /** `position(4 * i)` and `putInt(v)` on a header array holding the words
      `words`: the array then holds `words` with word `i` replaced. */
  method PutWord(buf: array<byte>, ghost words: seq<int32>, i: nat, v: int32)
    requires buf.Length == 4096 && |words| == 1024 && i < 1024
    requires buf[..] == TableBytes(words)
    modifies buf
    ensures buf[..] == TableBytes(words[i := v])
  {
    Writer.PutInt(buf, 4 * i, v);
    forall k | 0 <= k < 4096
      ensures buf[k] == TableBytes(words[i := v])[k]
    {
      if 4 * i <= k < 4 * i + 4 {
        assert buf[k] == buf[4 * i..4 * i + 4][k - 4 * i];
        assert k / 4 == i && k % 4 == k - 4 * i;
      } else {
        assert k / 4 != i;
      }
    }
    assert buf[..] == TableBytes(words[i := v]);
  }

  /** `buildMca`: one record per chunk, in order, and the two tables in front. */
  method BuildMca(c: Codecs, regionX: int32, regionZ: int32, chunks: seq<MemChunk>, clock: nat -> int64)
    returns (r: Result<seq<byte>, BuildError>)
    ensures r == BuiltImage(c, chunks, clock)
  {
    var buffers := new RegionBuffers();
    for k := 0 to |chunks|
      invariant buffers.Valid()
      invariant PutsOf(c, chunks[..k], clock) == Ok(buffers.puts)
    {
      var ch := chunks[k];
      var (m, body) := Compress(c, ch.kind, InhabitedTag(ch.inhabited));
      var step := buffers.WriteOne(ch.index, m, body, clock(k));
      assert chunks[..k + 1][..k] == chunks[..k];
      if step.Err? {
        PutsStops(c, chunks, clock, k);
        return Err(step.error);
      }
    }
    assert chunks[..|chunks|] == chunks;
    var out := buffers.Finish();
    r := Ok(out);
  }

  /** A refused chunk fails the whole build with its error. */
  lemma {:induction false} PutsStops(c: Codecs, chunks: seq<MemChunk>, clock: nat -> int64, k: nat)
    requires k < |chunks|
    requires PutsOf(c, chunks[..k + 1], clock).Err?
    ensures PutsOf(c, chunks, clock) == Err(PutsOf(c, chunks[..k + 1], clock).error)
    decreases |chunks| - k
  {
    if k + 1 < |chunks| {
      var n := |chunks| - 1;
      assert chunks[..n][..k + 1] == chunks[..k + 1];
      PutsStops(c, chunks[..n], clock, k);
    } else {
      assert chunks[..k + 1] == chunks;
    }
  }

  /** `buildSingleEntryMca`: a one-chunk `buildMca`. */
  method BuildSingleEntryMca(c: Codecs, regionX: int32, regionZ: int32, index: int32, inhabited: int64,
                             kind: CompressionKind, clock: nat -> int64)
    returns (r: Result<seq<byte>, BuildError>)
    ensures r == BuiltImage(c, [MemChunk(index, inhabited, kind)], clock)
  {
    var payload := InhabitedTag(inhabited);
    var (m, body) := Compress(c, kind, payload);
    var buffers := new RegionBuffers();
    var step := buffers.WriteOne(index, m, body, clock(0));
    ghost var chunks := [MemChunk(index, inhabited, kind)];
    ghost var s := StepOf([], index, RecordBytes(m, body), clock(0));
    assert chunks[..0] == [] && PutsOf(c, [], clock) == Ok([]);
    assert ChunkRecord(c, chunks[0]) == RecordBytes(m, body);
    assert PutsOf(c, chunks, clock) == if s.Err? then Err(s.error) else Ok([] + [s.value]);
    if step.Err? {
      return Err(step.error);
    }
    assert buffers.puts == [] + [s.value];
    var out := buffers.Finish();
    r := Ok(out);
  }

  // ---------------------------------------------------------------------
  // Reading a built file back.

  /** A successful build writes one record per chunk, in order, for the slot
      `index * 4 / 4` (in `Int` arithmetic) with its clock reading. */
  lemma {:induction false} PutsShape(c: Codecs, chunks: seq<MemChunk>, clock: nat -> int64)
    requires PutsOf(c, chunks, clock).Ok?
    ensures var ws := PutsOf(c, chunks, clock).value;
      && |ws| == |chunks|
      && 8192 + |Body(ws)| <= INT32_MAX
      && forall k :: 0 <= k < |ws| ==> ChunkPut(c, chunks[k], clock(k), ws[k])
  {
    if chunks != [] {
      var n := |chunks| - 1;
      var pre := chunks[..n];
      PutsShape(c, pre, clock);
      var ws := PutsOf(c, pre, clock).value;
      var s := StepOf(ws, chunks[n].index, ChunkRecord(c, chunks[n]), clock(n));
      assert PutsOf(c, chunks, clock) == Ok(ws + [s.value]);
      var w := s.value;
      StepPut(c, chunks[n], clock(n), ws);
      Writer.TablesStep(ws, w);
      ShapeStep(c, chunks, clock, ws, w);
    }
  }

  lemma ShapeStep(c: Codecs, chunks: seq<MemChunk>, clock: nat -> int64, ws: seq<Put>, w: Put)
    requires |chunks| == |ws| + 1
    requires forall k :: 0 <= k < |ws| ==> ChunkPut(c, chunks[..|ws|][k], clock(k), ws[k])
    requires ChunkPut(c, chunks[|ws|], clock(|ws|), w)
    ensures forall k :: 0 <= k < |ws| + 1 ==> ChunkPut(c, chunks[k], clock(k), (ws + [w])[k])
  {
    forall k | 0 <= k < |ws| + 1
      ensures ChunkPut(c, chunks[k], clock(k), (ws + [w])[k])
    {
      if k < |ws| {
        assert chunks[k] == chunks[..|ws|][k];
      }
    }
  }

  /** Write `w` is the one chunk `ch` gives with the clock at `millis`. */
  ghost predicate ChunkPut(c: Codecs, ch: MemChunk, millis: int64, w: Put)
  {
    && w.bytes == ChunkRecord(c, ch)
    && w.modified == Stamp(millis)
    && 4 * w.index == ToInt32(ch.index * 4)
  }

  lemma StepPut(c: Codecs, ch: MemChunk, millis: int64, ws: seq<Put>)
    requires StepOf(ws, ch.index, ChunkRecord(c, ch), millis).Ok?
    ensures ChunkPut(c, ch, millis, StepOf(ws, ch.index, ChunkRecord(c, ch), millis).value)
    ensures 8192 + |Body(ws)| + |Padded(ChunkRecord(c, ch))| <= INT32_MAX
  {
    Slot(ch.index, ToInt32(ch.index * 4));
  }

  /** Every record the builder frames reads back whole, and decodes to its
      payload whenever the foreign codecs invert each other on it.  It is
      never an external record. */
  lemma RecordAt(c: Codecs, kind: CompressionKind, payload: seq<byte>, data: seq<byte>, start: int)
    requires |data| <= INT32_MAX
    requires Entry.SerializedAt(data, start) == Ok(RecordBytes(Compress(c, kind, payload).0, Compress(c, kind, payload).1))
    ensures Entry.IsExternalAt(data, start) == Ok(false)
    ensures Inverts(c, kind, payload) ==> Entry.AllDataAt(c, data, start) == Ok(payload)
  {
    var (m, body) := Compress(c, kind, payload);
    RecordPayload(c, m, body, data, start);
    if kind == LZ4 && Inverts(c, kind, payload) {
      Lz4Block.CompressedBlockRoundTrip(c, payload);
    }
  }

  /** The payload `dataBytes` reads from a framed record is its body. */
  lemma RecordPayload(c: Codecs, m: byte, body: seq<byte>, data: seq<byte>, start: int)
    requires |data| <= INT32_MAX
    requires Entry.CompressionOf(Signed8(m)).Some? && Entry.CompressionOf(Signed8(m)) != Some(Entry.CUSTOM)
    requires Entry.SerializedAt(data, start) == Ok(RecordBytes(m, body))
    ensures Entry.IsExternalAt(data, start) == Ok(Entry.IsExternalMethod(Entry.CompressionOf(Signed8(m)).value))
    ensures Entry.DataBytesAt(c, data, start) == Ok((Entry.CompressionOf(Signed8(m)).value, body, None))
  {
    var rec := RecordBytes(m, body);
    var p := ToInt32(start);
    Entry.SerializedLayout(data, start);
    RecordHeader(m, body);
    HeaderLocal(data, rec, p);
    Entry.DataBytesPlain(c, data, start);
    WindowSlice(data, rec, p, 5, |rec|);
    assert rec[5..] == body;
  }

  /** The header of a record the builder frames: its length prefix is
      `1 + |body|` and its method the one `m` names. */
  lemma RecordHeader(m: byte, body: seq<byte>)
    requires 5 + |body| <= INT32_MAX
    requires Entry.CompressionOf(Signed8(m)).Some? && Entry.CompressionOf(Signed8(m)) != Some(Entry.CUSTOM)
    ensures Entry.HeaderAt(RecordBytes(m, body), 0)
      == Ok((Entry.Header(1 + |body|, Entry.CompressionOf(Signed8(m)).value, None), 5))
    ensures SelfContained(RecordBytes(m, body))
  {
    var rec := RecordBytes(m, body);
    assert rec[0..4] == Int32ToBE(1 + |body|);
    Int32BERoundTrip(1 + |body|);
    assert rec[4] == m;
    assert Entry.SerializedAt(rec, 0) == Ok(rec[0..|rec|]);
    assert rec[0..|rec|] == rec;
  }

  /** The entry `e` of a built file is the chunk `ch`, stamped at `millis`:
      same slot, same timestamp, and (when the codecs invert each other on
      the tag) the chunk's tag read back and its time deciding the pattern. */
  ghost predicate ReadsBackAs(c: Codecs, ch: MemChunk, millis: int64, data: seq<byte>, e: Entry.McaEntry,
                              threshold: int64, removeUnknown: bool)
  {
    && 4 * e.index == ToInt32(ch.index * 4)
    && e.modified == Stamp(millis)
    && (Inverts(c, ch.kind, InhabitedTag(ch.inhabited)) ==>
          && Entry.AllDataAt(c, data, e.start) == Ok(InhabitedTag(ch.inhabited))
          && Patterns.InhabitedMatchesAt(c, threshold, removeUnknown, data, e.start) == Ok(ch.inhabited >= threshold))
  }

  /** A built file lists exactly the slots of the chunks it was given.
      Every listed entry reads back the last chunk written to its slot, and
      the `InhabitedTime` of that chunk, read back through the entry,
      decides `InhabitedTimePattern` (when the codecs invert each other on
      the tag); conversely every chunk's slot is listed.  The premise bounds
      each record to the 255 sectors a location word can describe. */
  lemma {:induction false} BuiltReadsBack(c: Codecs, chunks: seq<MemChunk>, clock: nat -> int64,
                                          file: RandomAccess.MemoryAccess, x: int32, z: int32,
                                          threshold: int64, removeUnknown: bool)
    requires PutsOf(c, chunks, clock).Ok?
    requires forall k :: 0 <= k < |chunks| ==> |Padded(ChunkRecord(c, chunks[k]))| <= 255 * 4096
    requires file.data == Image(PutsOf(c, chunks, clock).value)
    ensures Reader.HeaderOf(file.data).Ok?
    ensures forall e :: e in Reader.EntriesOf(file, Reader.HeaderOf(file.data).value, x, z) ==>
      exists k ::
        && 0 <= k < |chunks|
        && ReadsBackAs(c, chunks[k], clock(k), file.data, e, threshold, removeUnknown)
        && (forall l :: k < l < |chunks| ==> ToInt32(chunks[l].index * 4) != 4 * e.index)
    ensures forall k :: 0 <= k < |chunks| ==>
      exists e :: e in Reader.EntriesOf(file, Reader.HeaderOf(file.data).value, x, z) && 4 * e.index == ToInt32(chunks[k].index * 4)
  {
    var ws := PutsOf(c, chunks, clock).value;
    BuiltRecords(c, chunks, clock);
    ImageHeader(ws);
    var es := Reader.EntriesOf(file, TablesAfter(ws), x, z);
    forall e | e in es
      ensures exists k ::
        && 0 <= k < |chunks|
        && ReadsBackAs(c, chunks[k], clock(k), file.data, e, threshold, removeUnknown)
        && (forall l :: k < l < |chunks| ==> ToInt32(chunks[l].index * 4) != 4 * e.index)
    {
      EntryIsLastChunk(c, chunks, clock, file, x, z, e, threshold, removeUnknown);
    }
    forall k | 0 <= k < |chunks|
      ensures exists e :: e in es && 4 * e.index == ToInt32(chunks[k].index * 4)
    {
      ChunkSlotListed(c, chunks, clock, file, x, z, k);
    }
  }

  /** A listed entry of a built file reads back the last chunk written to
      its slot. */
  lemma EntryIsLastChunk(c: Codecs, chunks: seq<MemChunk>, clock: nat -> int64,
                         file: RandomAccess.MemoryAccess, x: int32, z: int32, e: Entry.McaEntry,
                         threshold: int64, removeUnknown: bool)
    requires PutsOf(c, chunks, clock).Ok?
    requires forall k :: 0 <= k < |chunks| ==> |Padded(ChunkRecord(c, chunks[k]))| <= 255 * 4096
    requires file.data == Image(PutsOf(c, chunks, clock).value)
    requires e in Reader.EntriesOf(file, TablesAfter(PutsOf(c, chunks, clock).value), x, z)
    ensures exists k ::
      && 0 <= k < |chunks|
      && ReadsBackAs(c, chunks[k], clock(k), file.data, e, threshold, removeUnknown)
      && (forall l :: k < l < |chunks| ==> ToInt32(chunks[l].index * 4) != 4 * e.index)
  {
    var ws := PutsOf(c, chunks, clock).value;
    BuiltRecords(c, chunks, clock);
    ImageOfEntry(file, ws, x, z, e);
    var k := LastPut(ws, e.index).value;
    assert ChunkPut(c, chunks[k], clock(k), ws[k]);
    EntryOfChunk(c, chunks[k], clock(k), file.data, e, threshold, removeUnknown);
    forall l | k < l < |chunks|
      ensures ToInt32(chunks[l].index * 4) != 4 * e.index
    {
      assert ChunkPut(c, chunks[l], clock(l), ws[l]);
    }
  }

  /** The slot of every chunk given to the builder is listed. */
  lemma ChunkSlotListed(c: Codecs, chunks: seq<MemChunk>, clock: nat -> int64,
                        file: RandomAccess.MemoryAccess, x: int32, z: int32, k: nat)
    requires PutsOf(c, chunks, clock).Ok?
    requires forall k :: 0 <= k < |chunks| ==> |Padded(ChunkRecord(c, chunks[k]))| <= 255 * 4096
    requires file.data == Image(PutsOf(c, chunks, clock).value)
    requires k < |chunks|
    ensures exists e ::
      && e in Reader.EntriesOf(file, TablesAfter(PutsOf(c, chunks, clock).value), x, z)
      && 4 * e.index == ToInt32(chunks[k].index * 4)
  {
    var ws := PutsOf(c, chunks, clock).value;
    BuiltRecords(c, chunks, clock);
    ImageEntries(file, ws, x, z);
    var es := Reader.EntriesOf(file, TablesAfter(ws), x, z);
    assert ChunkPut(c, chunks[k], clock(k), ws[k]);
    var i: Entry.SlotIndex := ws[k].index;
    assert LastPut(ws, i).Some?;
    var e :| e in es && e.index == i;
  }

  /** The writes of a successful build fit a region file and each record
      reads back whole. */
  lemma BuiltRecords(c: Codecs, chunks: seq<MemChunk>, clock: nat -> int64)
    requires PutsOf(c, chunks, clock).Ok?
    requires forall k :: 0 <= k < |chunks| ==> |Padded(ChunkRecord(c, chunks[k]))| <= 255 * 4096
    ensures |PutsOf(c, chunks, clock).value| == |chunks|
    ensures var ws := PutsOf(c, chunks, clock).value;
      && Representable(ws)
      && (forall k :: 0 <= k < |ws| ==> SelfContained(ws[k].bytes) && ChunkPut(c, chunks[k], clock(k), ws[k]))
  {
    var ws := PutsOf(c, chunks, clock).value;
    PutsShape(c, chunks, clock);
    forall k | 0 <= k < |ws|
      ensures SelfContained(ws[k].bytes) && |Padded(ws[k].bytes)| <= 255 * 4096
    {
      var ch := chunks[k];
      assert ChunkPut(c, ch, clock(k), ws[k]);
      var cr := Compress(c, ch.kind, InhabitedTag(ch.inhabited));
      var m, body := cr.0, cr.1;
      assert ws[k].bytes == RecordBytes(m, body);
      RecordInBody(ws, k);
      assert 5 + |body| <= INT32_MAX;
      assert Entry.CompressionOf(Signed8(m)) == Some(MethodOf(ch.kind)) != Some(Entry.CUSTOM);
      RecordHeader(m, body);
    }
  }

  /** An entry whose record is the chunk's record reads back as the chunk. */
  lemma EntryOfChunk(c: Codecs, ch: MemChunk, millis: int64, data: seq<byte>, e: Entry.McaEntry,
                     threshold: int64, removeUnknown: bool)
    requires |data| <= INT32_MAX
    requires Entry.SerializedAt(data, e.start) == Ok(ChunkRecord(c, ch))
    requires e.modified == Stamp(millis) && 4 * e.index == ToInt32(ch.index * 4)
    ensures ReadsBackAs(c, ch, millis, data, e, threshold, removeUnknown)
  {
    RecordAt(c, ch.kind, InhabitedTag(ch.inhabited), data, e.start);
    InhabitedTagFound(ch.inhabited);
  }
}
