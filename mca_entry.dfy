/** One chunk record of a region file (McaEntry.kt).

    A record sits at a sector offset of the region file: a 4-byte big-endian
    length `L`, a method byte, for the custom method a 2-byte name length and
    the name, and then the payload.  An entry holds a reference to the cursor
    of the file it came from; every read seeks that shared cursor, so the
    reading operations `modify` it.  What each read returns is a function of
    the file's (immutable) bytes, stated by the `...At` functions below. */
module Entry {
  import opened Bytes
  import opened Wrappers
  import opened Codecs
  import Lz4Block
  import opened RandomAccess

  datatype CompressionMethod = GZIP | ZLIB | RAW | LZ4 | CUSTOM | EXT_GZIP | EXT_ZLIB | EXT_RAW | EXT_LZ4

  /** A slot of the 32 x 32 chunk grid of a region. */
  type SlotIndex = i: int | 0 <= i < 1024

  datatype EntryError =
    | ReadOutOfRange              // System.arraycopy past the end of the buffer
    | UnknownCompression(methodByte: int)
    | NegativeSize                // `ByteArray(n)` with `n < 0`
    | InflateFailed               // InflaterInputStream threw
    | GunzipFailed                // GZIPInputStream threw
    | Lz4Failed(cause: Lz4Block.Lz4Error)
    | IndexOutOfBounds(index: int) // an `IntArray` index outside 0..1023

  /** The `when` on the signed method byte; `None` is the `else -> throw`. */
  function CompressionOf(b: int): Option<CompressionMethod>
  {
    if b == 1 then Some(GZIP)
    else if b == 2 then Some(ZLIB)
    else if b == 3 then Some(RAW)
    else if b == 4 then Some(LZ4)
    else if b == 127 then Some(CUSTOM)
    else if b == -127 then Some(EXT_GZIP)
    else if b == -126 then Some(EXT_ZLIB)
    else if b == -125 then Some(EXT_RAW)
    else if b == -124 then Some(EXT_LZ4)
    else None
  }

  /** The signed method byte a record stores for each method: the external
      variants are the plain codes with the high bit set (`0x80 | code`). */
  function MethodCode(m: CompressionMethod): int
  {
    match m
    case GZIP => 1
    case ZLIB => 2
    case RAW => 3
    case LZ4 => 4
    case CUSTOM => 127
    case EXT_GZIP => -127
    case EXT_ZLIB => -126
    case EXT_RAW => -125
    case EXT_LZ4 => -124
  }

  /** The method byte as stored in the file (unsigned). */
  function MethodByte(m: CompressionMethod): (r: byte)
    ensures Signed8(r) == MethodCode(m)
  {
    MethodCode(m) % 256
  }

  /** The mapping of the `when` is a bijection between the nine codes and
      the nine methods; every other byte is refused. */
  lemma CompressionCodes(b: int, m: CompressionMethod)
    ensures CompressionOf(b) == Some(m) <==> b == MethodCode(m)
  {
  }

  predicate IsExternalMethod(m: CompressionMethod)
  {
    m == EXT_GZIP || m == EXT_ZLIB || m == EXT_RAW || m == EXT_LZ4
  }

  /** The result of `readHeader`: the length prefix, the method and, for the
      custom method, the bytes of its name (`String(nameBytes)` is not decoded). */
  datatype Header = Header(len: int32, compression: CompressionMethod, custom: Option<seq<byte>>)

  /** A 2-byte unsigned big-endian length at `p` followed by that many bytes,
      and the cursor after them. */
  function NameAt(data: seq<byte>, p: int): (r: Result<(seq<byte>, int), EntryError>)
    ensures r.Ok? <==> 0 <= p && p + 2 <= |data| && p + 2 + BE(data[p..p + 2]) <= |data|
    ensures r.Ok? ==> var (name, q) := r.value;
      |name| == BE(data[p..p + 2]) && q == p + 2 + |name| && name == data[p + 2..q]
  {
    if !(0 <= p && p + 2 <= |data|) then Err(ReadOutOfRange)
    else
      var n := BE(data[p..p + 2]);
      if p + 2 + n > |data| then Err(ReadOutOfRange)
      else Ok((data[p + 2..p + 2 + n], p + 2 + n))
  }

  /** `readHeader` after `seek` moved the cursor to `p`: the header and where
      the cursor is left. */
  function HeaderAt(data: seq<byte>, p: int): Result<(Header, int), EntryError>
  {
    if !(0 <= p && p + 5 <= |data|) then Err(ReadOutOfRange)
    else
      var len := Int32BE(data[p..p + 4]);
      var methodByte := Signed8(data[p + 4]);
      match CompressionOf(methodByte)
      case None => Err(UnknownCompression(methodByte))
      case Some(m) =>
        if m != CUSTOM then Ok((Header(len, m, None), p + 5))
        else
          match NameAt(data, p + 5)
          case Err(e) => Err(e)
          case Ok((name, q)) => Ok((Header(len, m, Some(name)), q))
  }

  /** `serializedBytes`: the `4 + L` bytes of the record, read from its start. */
  function SerializedAt(data: seq<byte>, start: int): Result<seq<byte>, EntryError>
  {
    var p := ToInt32(start);
    match HeaderAt(data, p)
    case Err(e) => Err(e)
    case Ok((h, _)) =>
      var total := ToInt32(4 + h.len);
      if total < 0 then Err(NegativeSize)
      else if p + total > |data| then Err(ReadOutOfRange)
      else Ok(data[p..p + total])
  }

  /** The payload read of `dataBytes`: seek `pos`, then `ByteArray(dataLen)`
      and `readFully`. */
  function PayloadAt(data: seq<byte>, pos: int, dataLen: int32): Result<seq<byte>, EntryError>
  {
    var q := ToInt32(pos);
    if dataLen < 0 then Err(NegativeSize)
    else if !(0 <= q && q + dataLen <= |data|) then Err(ReadOutOfRange)
    else Ok(data[q..q + dataLen])
  }

  /** `dataBytes`: the method, the payload and the custom name.  For the custom
      method the source reads a second name field at the cursor `readHeader`
      left behind (just after the first name), skips it, and then sizes the
      payload by the decoded length of the first name. */
  function DataBytesAt(c: Codecs, data: seq<byte>, start: int): Result<(CompressionMethod, seq<byte>, Option<seq<byte>>), EntryError>
  {
    match HeaderAt(data, ToInt32(start))
    case Err(e) => Err(e)
    case Ok((h, cur)) =>
      if h.compression == CUSTOM then
        match NameAt(data, cur)
        case Err(e) => Err(e)
        case Ok((skipped, _)) =>
          var customLen := ToInt32(2 + (if h.custom.Some? then c.nameLength(h.custom.value) else 0));
          match PayloadAt(data, start + 5 + 2 + |skipped|, ToInt32(h.len - 1 - customLen))
          case Err(e) => Err(e)
          case Ok(payload) => Ok((h.compression, payload, h.custom))
      else
        match PayloadAt(data, start + 5, ToInt32(h.len - 1))
        case Err(e) => Err(e)
        case Ok(payload) => Ok((h.compression, payload, h.custom))
  }

  /** `allDataUncompressed`: the payload decoded by its method; the custom and
      external methods give no bytes. */
  function AllDataAt(c: Codecs, data: seq<byte>, start: int): Result<seq<byte>, EntryError>
  {
    match DataBytesAt(c, data, start)
    case Err(e) => Err(e)
    case Ok((m, payload, _)) =>
      match m
      case RAW => Ok(payload)
      case ZLIB => (match c.inflate(payload) case None => Err(InflateFailed) case Some(d) => Ok(d))
      case GZIP => (match c.gunzip(payload) case None => Err(GunzipFailed) case Some(d) => Ok(d))
      case LZ4 => (match Lz4Block.DecodeFrame(c, payload) case Err(e) => Err(Lz4Failed(e)) case Ok(d) => Ok(d))
      case _ => Ok([])
  }

  /** `isExternal`: whether the header names one of the four external methods. */
  function IsExternalAt(data: seq<byte>, start: int): Result<bool, EntryError>
  {
    match HeaderAt(data, ToInt32(start))
    case Err(e) => Err(e)
    case Ok((h, _)) => Ok(IsExternalMethod(h.compression))
  }

  /** A global chunk coordinate: `region * 32 + local` as a Kotlin `Int`. */
  function GlobalCoord(region: int32, local: int): int32
  {
    ToInt32(region * 32 + local)
  }

  /** A chunk record of a region file, with the file it is read from. */
  datatype McaEntry = McaEntry(
    file: MemoryAccess,
    start: int64,
    length: int32,
    index: SlotIndex,
    modified: int32,
    regionX: int32,
    regionZ: int32)
  {
    function RegionIndex(): SlotIndex { index }
    function XPos(): int { index % 32 }
    function ZPos(): int { index / 32 }
    /** `regionX * 32 + xPos()` in 32-bit arithmetic. */
    function GlobalX(): int32 { GlobalCoord(regionX, XPos()) }
    function GlobalZ(): int32 { GlobalCoord(regionZ, ZPos()) }
    function ModifiedTime(): int32 { modified }

    /** `readHeader`: seek to the record and read its header through the cursor. */
    method ReadHeader() returns (r: Result<Header, EntryError>)
      modifies file
      ensures r.Ok? <==> HeaderAt(file.data, ToInt32(start)).Ok?
      ensures r.Ok? ==> (r.value == HeaderAt(file.data, ToInt32(start)).value.0
                      && file.pos == HeaderAt(file.data, ToInt32(start)).value.1)
      ensures r.Err? ==> r.error == HeaderAt(file.data, ToInt32(start)).error
    {
      file.Seek(start);
      var header := new byte[5];
      var ok := file.ReadFully(header);
      if !ok {
        return Err(ReadOutOfRange);
      }
      assert header[0..4] == file.data[file.pos - 5..file.pos - 1];
      var len := Int32BE(header[0..4]);
      var methodByte := Signed8(header[4]);
      var m := CompressionOf(methodByte);
      if m.None? {
        return Err(UnknownCompression(methodByte));
      }
      var custom: Option<seq<byte>> := None;
      if m.value == CUSTOM {
        var name := ReadName();
        if name.Err? {
          return Err(name.error);
        }
        custom := Some(name.value);
      }
      r := Ok(Header(len, m.value, custom));
    }

    /** A 2-byte length and that many bytes, read at the cursor. */
    method ReadName() returns (r: Result<seq<byte>, EntryError>)
      modifies file
      ensures var n := NameAt(file.data, old(file.pos));
        && (r.Ok? <==> n.Ok?)
        && (r.Ok? ==> r.value == n.value.0 && file.pos == n.value.1)
        && (r.Err? ==> r.error == n.error)
    {
      var nameLenBuf := new byte[2];
      var ok := file.ReadFully(nameLenBuf);
      if !ok {
        return Err(ReadOutOfRange);
      }
      var n := BE(nameLenBuf[..]);
      var nameBytes := new byte[n];
      ok := file.ReadFully(nameBytes);
      if !ok {
        return Err(ReadOutOfRange);
      }
      r := Ok(nameBytes[..]);
    }

    /** `serializedBytes`. */
    method SerializedBytes() returns (r: Result<seq<byte>, EntryError>)
      modifies file
      ensures r == SerializedAt(file.data, start)
    {
      var h := ReadHeader();
      if h.Err? {
        return Err(h.error);
      }
      var total := ToInt32(4 + h.value.len);
      file.Seek(start);
      if total < 0 {
        return Err(NegativeSize);
      }
      var out := new byte[total];
      var ok := file.ReadFully(out);
      if !ok {
        return Err(ReadOutOfRange);
      }
      r := Ok(out[..]);
    }

    /** `dataBytes`, with the second read of the custom name field. */
    method DataBytes(c: Codecs) returns (r: Result<(CompressionMethod, seq<byte>, Option<seq<byte>>), EntryError>)
      modifies file
      ensures r == DataBytesAt(c, file.data, start)
    {
      var h := ReadHeader();
      if h.Err? {
        return Err(h.error);
      }
      var Header(len, m, custom) := h.value;
      var pos := start + 5;
      if m == CUSTOM {
        var skipped := ReadName();
        if skipped.Err? {
          return Err(skipped.error);
        }
        pos := pos + 2 + |skipped.value|;
      }
      var customLen := if m == CUSTOM then ToInt32(2 + (if custom.Some? then c.nameLength(custom.value) else 0)) else 0;
      var payload := ReadPayload(pos, ToInt32(len - 1 - customLen));
      if payload.Err? {
        return Err(payload.error);
      }
      r := Ok((m, payload.value, custom));
    }

    /** The payload read of `dataBytes`: seek, allocate, `readFully`. */
    method ReadPayload(pos: int, dataLen: int32) returns (r: Result<seq<byte>, EntryError>)
      modifies file
      ensures r == PayloadAt(file.data, pos, dataLen)
    {
      file.Seek(pos);
      if dataLen < 0 {
        return Err(NegativeSize);
      }
      var buf := new byte[dataLen];
      var ok := file.ReadFully(buf);
      if !ok {
        return Err(ReadOutOfRange);
      }
      r := Ok(buf[..]);
    }

    /** `allDataUncompressed`. */
    method AllDataUncompressed(c: Codecs) returns (r: Result<seq<byte>, EntryError>)
      modifies file
      ensures r == AllDataAt(c, file.data, start)
    {
      var d := DataBytes(c);
      if d.Err? {
        return Err(d.error);
      }
      var (m, payload, _) := d.value;
      match m {
        case RAW => r := Ok(payload);
        case ZLIB =>
          var z := c.inflate(payload);
          r := if z.Some? then Ok(z.value) else Err(InflateFailed);
        case GZIP =>
          var z := c.gunzip(payload);
          r := if z.Some? then Ok(z.value) else Err(GunzipFailed);
        case LZ4 =>
          var z := Lz4Block.DecodeLz4Blocks(c, payload);
          r := if z.Ok? then Ok(z.value) else Err(Lz4Failed(z.error));
        case _ => r := Ok([]);
      }
    }

    /** `isExternal`. */
    method IsExternal() returns (r: Result<bool, EntryError>)
      modifies file
      ensures r == IsExternalAt(file.data, start)
    {
      var h := ReadHeader();
      if h.Err? {
        return Err(h.error);
      }
      r := Ok(IsExternalMethod(h.value.compression));
    }
  }

  // ---------------------------------------------------------------------
  // Properties of a record.

  /** The grid position of a slot and the global chunk coordinates: the slot
      index is `zPos * 32 + xPos`, and the global coordinates keep the local
      position in their low five bits, even where the 32-bit product wraps;
      without wrap-around they lie in the region's 32 x 32 block. */
  lemma Coordinates(e: McaEntry)
    ensures 0 <= e.XPos() < 32 && 0 <= e.ZPos() < 32
    ensures e.RegionIndex() == e.ZPos() * 32 + e.XPos()
    ensures e.GlobalX() % 32 == e.XPos() && e.GlobalZ() % 32 == e.ZPos()
    ensures -TWO_31 <= e.regionX * 32 + 31 && e.regionX * 32 < TWO_31 ==> e.GlobalX() / 32 == e.regionX
    ensures -TWO_31 <= e.regionZ * 32 + 31 && e.regionZ * 32 < TWO_31 ==> e.GlobalZ() / 32 == e.regionZ
  {
    Axis(e.regionX, e.XPos());
    Axis(e.regionZ, e.ZPos());
  }

  /** One axis of `Coordinates`: `region * 32 + local` wrapped to 32 bits. */
  lemma Axis(region: int32, local: int)
    requires 0 <= local < 32
    ensures ToInt32(region * 32 + local) % 32 == local
    ensures -TWO_31 <= region * 32 + 31 && region * 32 < TWO_31 ==> ToInt32(region * 32 + local) / 32 == region
  {
    var x := region * 32 + local;
    Mod32OfWrap(x);
    assert x % 32 == local;
    if -TWO_31 <= region * 32 + 31 && region * 32 < TWO_31 {
      assert ToInt32(x) == x;
    }
  }

  lemma Mod32OfWrap(x: int)
    ensures ToInt32(x) % 32 == x % 32
  {
    var k := (ToInt32(x) - x) / TWO_32;
    assert ToInt32(x) == x + k * TWO_32;
    assert k * TWO_32 == (k * 0x800_0000) * 32;
    ModShift32(x, k * 0x800_0000);
  }

  /** Adding a multiple of 32 keeps the remainder modulo 32. */
  lemma ModShift32(x: int, j: int)
    ensures (x + j * 32) % 32 == x % 32
  {
    var r, q := x % 32, x / 32;
    assert x == q * 32 + r;
    assert x + j * 32 == (q + j) * 32 + r;
  }

  /** `serializedBytes` returns exactly `4 + L` bytes from the record start,
      whose first four bytes are the length prefix `L`; it fails only when
      the header cannot be read, `4 + L` is negative as an `Int`, or the
      record runs past the end of the buffer. */
  lemma SerializedLayout(data: seq<byte>, start: int)
    ensures var p := ToInt32(start);
      var s := SerializedAt(data, start);
      && (s.Ok? <==> HeaderAt(data, p).Ok? && 0 <= 4 + HeaderAt(data, p).value.0.len < TWO_31
                     && p + 4 + HeaderAt(data, p).value.0.len <= |data|)
      && (s.Ok? ==> |s.value| == 4 + HeaderAt(data, p).value.0.len && s.value == data[p..p + |s.value|])
      && (s.Ok? && 0 <= HeaderAt(data, p).value.0.len ==> Int32BE(s.value[..4]) == HeaderAt(data, p).value.0.len)
  {
    var p := ToInt32(start);
    var s := SerializedAt(data, start);
    if HeaderAt(data, p).Ok? {
      var len := HeaderAt(data, p).value.0.len;
      if s.Ok? && 0 <= len {
        assert s.value[..4] == data[p..p + 4];
      }
    }
  }

  /** For every method but the custom one, `dataBytes` is the `L - 1` bytes
      that follow the method byte. */
  lemma DataBytesPlain(c: Codecs, data: seq<byte>, start: int)
    requires |data| <= INT32_MAX
    requires HeaderAt(data, ToInt32(start)).Ok?
    requires HeaderAt(data, ToInt32(start)).value.0.compression != CUSTOM
    ensures var p := ToInt32(start);
      var h := HeaderAt(data, p).value.0;
      var d := DataBytesAt(c, data, start);
      && (d.Ok? <==> 1 <= h.len && p + 4 + h.len <= |data|)
      && (d.Ok? ==> d.value == (h.compression, data[p + 5..p + 4 + h.len], None))
  {
    var p := ToInt32(start);
    var h := HeaderAt(data, p).value.0;
    assert ToInt32(start + 5) == p + 5 by {
      ToInt32Shift(start, 5);
    }
  }

  lemma ToInt32Shift(x: int, d: int)
    requires -TWO_31 <= ToInt32(x) + d < TWO_31
    ensures ToInt32(x + d) == ToInt32(x) + d
  {
    var k := (ToInt32(x) - x) / TWO_32;
    assert ToInt32(x) == x + k * TWO_32;
    assert ToInt32(x + d) == ToInt32(ToInt32(x) + d - k * TWO_32);
  }

  /** For the custom method (stored byte 0x7F), `dataBytes` in terms of the
      record's bytes.  With `n1` the first name length at `p + 5` and `n2`
      the second one at `q = p + 7 + n1`, where `readHeader` stopped: the
      payload starts `7 + n2` bytes into the record, so its offset follows
      the second length, while its size `L - 1 - (2 + length(name))` follows
      the first name `data[p + 7..q]`. */
  lemma DataBytesCustom(c: Codecs, data: seq<byte>, start: int)
    requires var p := ToInt32(start); 0 <= p && p + 5 <= |data| && data[p + 4] == 0x7F
    ensures var p := ToInt32(start);
      var d := DataBytesAt(c, data, start);
      if !(p + 7 <= |data| && p + 7 + BE(data[p + 5..p + 7]) + 2 <= |data|) then d.Err?
      else
        var q := p + 7 + BE(data[p + 5..p + 7]);
        var n2 := BE(data[q..q + 2]);
        var size := ToInt32(Int32BE(data[p..p + 4]) - 1 - ToInt32(2 + c.nameLength(data[p + 7..q])));
        var from := ToInt32(start + 7 + n2);
        if q + 2 + n2 <= |data| && 0 <= size && 0 <= from && from + size <= |data|
        then d == Ok((CUSTOM, data[from..from + size], Some(data[p + 7..q])))
        else d.Err?
  {
    var p := ToInt32(start);
    var d := DataBytesAt(c, data, start);
    assert Signed8(data[p + 4]) == 127;
    assert CompressionOf(127) == Some(CUSTOM);
    var first := NameAt(data, p + 5);
    if first.Err? {
      assert HeaderAt(data, p) == Err(first.error);
      assert d.Err?;
    } else {
      var (name, q) := first.value;
      assert HeaderAt(data, p) == Ok((Header(Int32BE(data[p..p + 4]), CUSTOM, Some(name)), q));
      assert q == p + 7 + BE(data[p + 5..p + 7]) && name == data[p + 7..q];
      var second := NameAt(data, q);
      if second.Err? {
        assert d.Err?;
      } else {
        var n2 := |second.value.0|;
        assert n2 == BE(data[q..q + 2]);
        var size := ToInt32(Int32BE(data[p..p + 4]) - 1 - ToInt32(2 + c.nameLength(name)));
        assert d == match PayloadAt(data, start + 5 + 2 + n2, size)
                    case Err(e) => Err(e)
                    case Ok(payload) => Ok((CUSTOM, payload, Some(name)));
      }
    }
  }

  /** `allDataUncompressed` keyed on the stored method byte `data[p + 4]`:
      a failing `dataBytes` fails it; 0x03 passes the payload through; 0x04
      goes through the block decoder; 0x02 and 0x01 succeed exactly when
      inflate or gunzip does, with their output; the custom byte 0x7F and
      the external bytes 0x81..0x84 give an empty array whatever the
      payload. */
  lemma AllDataByMethod(c: Codecs, data: seq<byte>, start: int)
    ensures var d := DataBytesAt(c, data, start);
      d.Err? ==> AllDataAt(c, data, start) == Err(d.error)
    ensures var p := ToInt32(start);
      DataBytesAt(c, data, start).Ok? ==> 0 <= p && p + 5 <= |data|
    ensures var p := ToInt32(start);
      var d := DataBytesAt(c, data, start);
      var a := AllDataAt(c, data, start);
      d.Ok? ==>
        && data[p + 4] in {0x01, 0x02, 0x03, 0x04, 0x7F, 0x81, 0x82, 0x83, 0x84}
        && (data[p + 4] == 0x03 ==> a == Ok(d.value.1))
        && (data[p + 4] == 0x04 ==> (a.Ok? <==> Lz4Block.DecodeFrame(c, d.value.1).Ok?))
        && (data[p + 4] == 0x04 && a.Ok? ==> a.value == Lz4Block.DecodeFrame(c, d.value.1).value)
        && (data[p + 4] == 0x02 ==> (a.Ok? <==> c.inflate(d.value.1).Some?))
        && (data[p + 4] == 0x02 && a.Ok? ==> a.value == c.inflate(d.value.1).value)
        && (data[p + 4] == 0x01 ==> (a.Ok? <==> c.gunzip(d.value.1).Some?))
        && (data[p + 4] == 0x01 && a.Ok? ==> a.value == c.gunzip(d.value.1).value)
        && (data[p + 4] in {0x7F, 0x81, 0x82, 0x83, 0x84} ==> a == Ok([]))
  {
  }

  /** `isExternal` holds exactly for the four method bytes 0x81..0x84. */
  lemma ExternalCodes(data: seq<byte>, start: int)
    requires HeaderAt(data, ToInt32(start)).Ok?
    ensures var p := ToInt32(start);
      IsExternalAt(data, start) == Ok(data[p + 4] in {0x81, 0x82, 0x83, 0x84})
  {
  }
}
