/** The reader of the forced-chunk list in `data/chunks.dat`
    (NbtForceLoader.kt), over the bytes the gzip stream yields.

    NBT is a tree of typed tags.  A compound is a run of (tag type, name,
    payload) entries closed by tag type 0; a list is an element type, a
    4-byte count and that many payloads.  The reader is recursive descent
    over a `DataInputStream`; here the stream is a `DataInput` object whose
    cursor the reading methods advance, and each method is proved to agree
    with a function of the bytes and the starting cursor.

    Names and strings are kept as their UTF-8 bytes.  The loader only
    looks up ASCII names and compares with an ASCII string, and a byte
    sequence decodes to a given ASCII string exactly when it is that
    string's bytes, so the lookups are exact. */
module Nbt {
  import opened Bytes
  import opened Wrappers

  const TAG_END: int := 0
  const TAG_BYTE: int := 1
  const TAG_SHORT: int := 2
  const TAG_INT: int := 3
  const TAG_LONG: int := 4
  const TAG_FLOAT: int := 5
  const TAG_DOUBLE: int := 6
  const TAG_BYTE_ARRAY: int := 7
  const TAG_STRING: int := 8
  const TAG_LIST: int := 9
  const TAG_COMPOUND: int := 10
  const TAG_INT_ARRAY: int := 11
  const TAG_LONG_ARRAY: int := 12

  /** The UTF-8 bytes of a name or string. */
  type Name = seq<byte>

  /** A decoded payload.  Floats and doubles keep their raw bits. */
  datatype Tag =
    | ByteTag(b: int)
    | ShortTag(s: int)
    | IntTag(i: int32)
    | LongTag(l: int64)
    | FloatTag(floatBits: int32)
    | DoubleTag(doubleBits: int64)
    | ByteArrayTag(bytes: seq<byte>)
    | StringTag(utf8: Name)
    | ListTag(items: seq<Tag>)
    | CompoundTag(entries: map<Name, Tag>)
    | IntArrayTag(ints: seq<int32>)
    | LongArrayTag(longs: seq<int64>)

  datatype NbtError =
    | EndOfStream               // EOFException
    | NegativeLength(n: int)    // a negative array or list size
    | UnsupportedTag(t: int)    // IllegalArgumentException("unsupported tag")
    | RootNotCompound(t: int)   // require(rootType == TAG_Compound)

  /** `readShort`: a signed 16-bit value. */
  function Signed16(v: nat): int
  {
    if v < 0x8000 then v else v - 0x1_0000
  }

  // ---------------------------------------------------------------------
  // The reader as functions of the bytes `d` and a cursor `p`; each gives
  // the value read and the cursor after it.

  /** `readFully` of `n` bytes. */
  function BytesAt(d: seq<byte>, p: nat, n: nat): (r: Result<(seq<byte>, nat), NbtError>)
  {
    if p + n <= |d| then Ok((d[p..p + n], p + n)) else Err(EndOfStream)
  }

  /** `readUtf`: a 2-byte unsigned length and that many bytes. */
  function UtfAt(d: seq<byte>, p: nat): (r: Result<(Name, nat), NbtError>)
    ensures r.Ok? ==> r.value.1 == p + 2 + |r.value.0| <= |d|
  {
    if p + 2 > |d| then Err(EndOfStream)
    else
      var n := BE(d[p..p + 2]);
      if p + 2 + n > |d| then Err(EndOfStream)
      else Ok((d[p + 2..p + 2 + n], p + 2 + n))
  }

  /** `readInt` of an array size, then the allocation, which refuses a
      negative size. */
  function LengthAt(d: seq<byte>, p: nat): (r: Result<(nat, nat), NbtError>)
    ensures r.Ok? ==> r.value.1 == p + 4 <= |d|
  {
    if p + 4 > |d| then Err(EndOfStream)
    else
      var n := Int32BE(d[p..p + 4]);
      if n < 0 then Err(NegativeLength(n)) else Ok((n, p + 4))
  }

  /** `n` big-endian `Int`s. */
  function IntsAt(d: seq<byte>, p: nat, n: nat): (r: Result<(seq<int32>, nat), NbtError>)
    ensures r.Ok? ==> |r.value.0| == n && r.value.1 == p + 4 * n <= |d|
  {
    if p + 4 * n <= |d| then Ok((seq(n, k requires 0 <= k < n => Int32BE(d[p + 4 * k..p + 4 * k + 4])), p + 4 * n))
    else Err(EndOfStream)
  }

  /** `n` big-endian `Long`s. */
  function LongsAt(d: seq<byte>, p: nat, n: nat): (r: Result<(seq<int64>, nat), NbtError>)
    ensures r.Ok? ==> |r.value.0| == n && r.value.1 == p + 8 * n <= |d|
  {
    if p + 8 * n <= |d| then Ok((seq(n, k requires 0 <= k < n => Int64BE(d[p + 8 * k..p + 8 * k + 8])), p + 8 * n))
    else Err(EndOfStream)
  }

  /** `readPayload(t)`.  Every payload takes at least one byte. */
  function PayloadAt(d: seq<byte>, p: nat, t: int): (r: Result<(Tag, nat), NbtError>)
    requires p <= |d|
    ensures r.Ok? ==> p < r.value.1 <= |d|
    decreases |d| - p, 1
  {
    if t == TAG_BYTE then
      if p + 1 <= |d| then Ok((ByteTag(Signed8(d[p])), p + 1)) else Err(EndOfStream)
    else if t == TAG_SHORT then
      if p + 2 <= |d| then Ok((ShortTag(Signed16(BE(d[p..p + 2]))), p + 2)) else Err(EndOfStream)
    else if t == TAG_INT then
      if p + 4 <= |d| then Ok((IntTag(Int32BE(d[p..p + 4])), p + 4)) else Err(EndOfStream)
    else if t == TAG_LONG then
      if p + 8 <= |d| then Ok((LongTag(Int64BE(d[p..p + 8])), p + 8)) else Err(EndOfStream)
    else if t == TAG_FLOAT then
      if p + 4 <= |d| then Ok((FloatTag(Int32BE(d[p..p + 4])), p + 4)) else Err(EndOfStream)
    else if t == TAG_DOUBLE then
      if p + 8 <= |d| then Ok((DoubleTag(Int64BE(d[p..p + 8])), p + 8)) else Err(EndOfStream)
    else if t == TAG_BYTE_ARRAY then
      match LengthAt(d, p)
      case Err(e) => Err(e)
      case Ok((n, q)) =>
        if q + n <= |d| then Ok((ByteArrayTag(d[q..q + n]), q + n)) else Err(EndOfStream)
    else if t == TAG_STRING then
      match UtfAt(d, p)
      case Err(e) => Err(e)
      case Ok((s, q)) => Ok((StringTag(s), q))
    else if t == TAG_LIST then
      ListAt(d, p)
    else if t == TAG_COMPOUND then
      match CompoundFrom(d, p, map[])
      case Err(e) => Err(e)
      case Ok((m, q)) => Ok((CompoundTag(m), q))
    else if t == TAG_INT_ARRAY then
      match LengthAt(d, p)
      case Err(e) => Err(e)
      case Ok((n, q)) =>
        match IntsAt(d, q, n)
        case Err(e) => Err(e)
        case Ok((a, q2)) => Ok((IntArrayTag(a), q2))
    else if t == TAG_LONG_ARRAY then
      match LengthAt(d, p)
      case Err(e) => Err(e)
      case Ok((n, q)) =>
        match LongsAt(d, q, n)
        case Err(e) => Err(e)
        case Ok((a, q2)) => Ok((LongArrayTag(a), q2))
    else Err(UnsupportedTag(t))
  }

  /** `readList`: element type, count, then the items. */
  function ListAt(d: seq<byte>, p: nat): (r: Result<(Tag, nat), NbtError>)
    requires p <= |d|
    ensures r.Ok? ==> p < r.value.1 <= |d|
    decreases |d| - p, 0
  {
    if p + 5 > |d| then Err(EndOfStream)
    else
      var elemType := Signed8(d[p]);
      var n := Int32BE(d[p + 1..p + 5]);
      if n < 0 then Err(NegativeLength(n))
      else
        match ItemsFrom(d, p + 5, elemType, n, [])
        case Err(e) => Err(e)
        case Ok((items, q)) => Ok((ListTag(items), q))
  }

  /** The remaining `n` items of a list, after the items `acc`. */
  function ItemsFrom(d: seq<byte>, p: nat, t: int, n: nat, acc: seq<Tag>): (r: Result<(seq<Tag>, nat), NbtError>)
    requires p <= |d|
    ensures r.Ok? ==> p <= r.value.1 <= |d|
    decreases |d| - p, 2
  {
    if n == 0 then Ok((acc, p))
    else
      match PayloadAt(d, p, t)
      case Err(e) => Err(e)
      case Ok((v, q)) => ItemsFrom(d, q, t, n - 1, acc + [v])
  }

  /** The rest of a compound, after the entries already in `m`; a later
      entry replaces an earlier one of the same name. */
  function CompoundFrom(d: seq<byte>, p: nat, m: map<Name, Tag>): (r: Result<(map<Name, Tag>, nat), NbtError>)
    requires p <= |d|
    ensures r.Ok? ==> p < r.value.1 <= |d|
    decreases |d| - p, 0
  {
    if p + 1 > |d| then Err(EndOfStream)
    else
      var t := Signed8(d[p]);
      if t == TAG_END then Ok((m, p + 1))
      else
        match UtfAt(d, p + 1)
        case Err(e) => Err(e)
        case Ok((name, q)) =>
          match PayloadAt(d, q, t)
          case Err(e) => Err(e)
          case Ok((v, q2)) => CompoundFrom(d, q2, m[name := v])
  }

  /** The root: tag type 10, a name that is dropped, then the compound. */
  function RootAt(d: seq<byte>): Result<map<Name, Tag>, NbtError>
  {
    if |d| < 1 then Err(EndOfStream)
    else if Signed8(d[0]) != TAG_COMPOUND then Err(RootNotCompound(Signed8(d[0])))
    else
      match UtfAt(d, 1)
      case Err(e) => Err(e)
      case Ok((_, q)) =>
        match CompoundFrom(d, q, map[])
        case Err(e) => Err(e)
        case Ok((m, _)) => Ok(m)
  }

  // ---------------------------------------------------------------------
  // What the loader extracts.

  const DATA: Name := [0x64, 0x61, 0x74, 0x61]
  const FORCED: Name := [0x46, 0x6F, 0x72, 0x63, 0x65, 0x64]
  const TICKETS: Name := [0x74, 0x69, 0x63, 0x6B, 0x65, 0x74, 0x73]
  const TYPE: Name := [0x74, 0x79, 0x70, 0x65]
  const CHUNK_POS: Name := [0x63, 0x68, 0x75, 0x6E, 0x6B, 0x5F, 0x70, 0x6F, 0x73]
  /** `minecraft:forced`. */
  const FORCED_TYPE: Name := [0x6D, 0x69, 0x6E, 0x65, 0x63, 0x72, 0x61, 0x66, 0x74, 0x3A, 0x66, 0x6F, 0x72, 0x63, 0x65, 0x64]

  /** The `Forced` longs taken two by two, each truncated to an `Int`; an
      odd last element is dropped. */
  function ForcedPairs(a: seq<int64>): (r: seq<(int32, int32)>)
    ensures |r| == |a| / 2
  {
    seq(|a| / 2, k requires 0 <= k < |a| / 2 => (ToInt32(a[2 * k]), ToInt32(a[2 * k + 1])))
  }

  /** The pair a ticket contributes: only a compound whose `type` is the
      string `minecraft:forced` and whose `chunk_pos` is an int array of two
      elements contributes one. */
  function TicketOf(t: Tag): (r: seq<(int32, int32)>)
    ensures |r| <= 1
  {
    if && t.CompoundTag?
       && TYPE in t.entries && t.entries[TYPE].StringTag? && t.entries[TYPE].utf8 == FORCED_TYPE
       && CHUNK_POS in t.entries && t.entries[CHUNK_POS].IntArrayTag? && |t.entries[CHUNK_POS].ints| == 2
    then [(t.entries[CHUNK_POS].ints[0], t.entries[CHUNK_POS].ints[1])]
    else []
  }

  /** The tickets' pairs in list order. */
  function TicketPairs(ts: seq<Tag>): seq<(int32, int32)>
  {
    if ts == [] then [] else TicketPairs(ts[..|ts| - 1]) + TicketOf(ts[|ts| - 1])
  }

  /** The pairs of a decoded root: those of `Forced`, then those of
      `tickets`; nothing when `data` is missing or not a compound. */
  function ChunksOf(root: map<Name, Tag>): seq<(int32, int32)>
  {
    if DATA in root && root[DATA].CompoundTag? then
      var data := root[DATA].entries;
      (if FORCED in data && data[FORCED].LongArrayTag? then ForcedPairs(data[FORCED].longs) else [])
      + (if TICKETS in data && data[TICKETS].ListTag? then TicketPairs(data[TICKETS].items) else [])
    else []
  }

  /** What `parse` returns for the gunzipped bytes of the file. */
  function ForcedChunksOf(d: seq<byte>): Result<seq<(int32, int32)>, NbtError>
  {
    match RootAt(d)
    case Err(e) => Err(e)
    case Ok(root) => Ok(ChunksOf(root))
  }

  /** A ticket pair comes from some ticket, and every contributing ticket's
      pair is there, in list order. */
  lemma {:induction false} TicketPairsMembers(ts: seq<Tag>, p: (int32, int32))
    ensures p in TicketPairs(ts) <==> exists k :: 0 <= k < |ts| && TicketOf(ts[k]) == [p]
  {
    if ts != [] {
      var init := ts[..|ts| - 1];
      TicketPairsMembers(init, p);
      if p in TicketPairs(ts) && p !in TicketPairs(init) {
        assert TicketOf(ts[|ts| - 1]) == [p];
      }
      if exists k :: 0 <= k < |ts| && TicketOf(ts[k]) == [p] {
        var k :| 0 <= k < |ts| && TicketOf(ts[k]) == [p];
        if k < |ts| - 1 {
          assert init[k] == ts[k];
        }
      }
    }
  }

  // ---------------------------------------------------------------------
  // The stream and the reading methods.

  /** A `DataInputStream` over a byte sequence. */
  class DataInput {
    const data: seq<byte>
    var pos: nat

    constructor (data: seq<byte>)
      ensures this.data == data && pos == 0
    {
      this.data := data;
      pos := 0;
    }

    /** `readFully` of `n` bytes; past the end it consumes what is there
      and throws. */
    method ReadFully(n: nat) returns (r: Result<seq<byte>, NbtError>)
      requires pos <= |data|
      modifies this
      ensures pos <= |data|
      ensures Agrees(r, BytesAt(data, old(pos), n), pos)
    {
      if pos + n > |data| {
        pos := |data|;
        return Err(EndOfStream);
      }
      r := Ok(data[pos..pos + n]);
      pos := pos + n;
    }

    /** `readByte`: a signed byte. */
    method ReadByte() returns (r: Result<int, NbtError>)
      requires pos <= |data|
      modifies this
      ensures pos <= |data|
      ensures old(pos) + 1 <= |data| ==> r == Ok(Signed8(data[old(pos)])) && pos == old(pos) + 1
      ensures old(pos) + 1 > |data| ==> r == Err(EndOfStream)
    {
      var b := ReadFully(1);
      if b.Err? {
        return Err(b.error);
      }
      r := Ok(Signed8(b.value[0]));
    }

    /** `readInt`: a big-endian `Int`. */
    method ReadInt() returns (r: Result<int32, NbtError>)
      requires pos <= |data|
      modifies this
      ensures pos <= |data|
      ensures old(pos) + 4 <= |data| ==> r == Ok(Int32BE(data[old(pos)..old(pos) + 4])) && pos == old(pos) + 4
      ensures old(pos) + 4 > |data| ==> r == Err(EndOfStream)
    {
      var b := ReadFully(4);
      if b.Err? {
        return Err(b.error);
      }
      r := Ok(Int32BE(b.value));
    }

    /** `readLong`: a big-endian `Long`. */
    method ReadLong() returns (r: Result<int64, NbtError>)
      requires pos <= |data|
      modifies this
      ensures pos <= |data|
      ensures old(pos) + 8 <= |data| ==> r == Ok(Int64BE(data[old(pos)..old(pos) + 8])) && pos == old(pos) + 8
      ensures old(pos) + 8 > |data| ==> r == Err(EndOfStream)
    {
      var b := ReadFully(8);
      if b.Err? {
        return Err(b.error);
      }
      r := Ok(Int64BE(b.value));
    }
  }

  /** A method's result and final cursor agree with a reading function. */
  predicate Agrees<T(==)>(r: Result<T, NbtError>, s: Result<(T, nat), NbtError>, pos: nat)
  {
    if s.Ok? then r == Ok(s.value.0) && pos == s.value.1 else r == Err(s.error)
  }

  /** `readUtf`. */
  method ReadUtf(inp: DataInput) returns (r: Result<Name, NbtError>)
    requires inp.pos <= |inp.data|
    modifies inp
    ensures inp.pos <= |inp.data|
    ensures Agrees(r, UtfAt(inp.data, old(inp.pos)), inp.pos)
  {
    var lenBytes := inp.ReadFully(2);
    if lenBytes.Err? {
      return Err(lenBytes.error);
    }
    var len := BE(lenBytes.value);
    var b := inp.ReadFully(len);
    if b.Err? {
      return Err(b.error);
    }
    r := Ok(b.value);
  }

  /** The array size read before an array's elements. */
  method ReadLength(inp: DataInput) returns (r: Result<nat, NbtError>)
    requires inp.pos <= |inp.data|
    modifies inp
    ensures inp.pos <= |inp.data|
    ensures Agrees(r, LengthAt(inp.data, old(inp.pos)), inp.pos)
  {
    var len := inp.ReadInt();
    if len.Err? {
      return Err(len.error);
    }
    if len.value < 0 {
      return Err(NegativeLength(len.value));
    }
    r := Ok(len.value);
  }

  /** The loop filling an `IntArray(len)`. */
  method ReadInts(inp: DataInput, len: nat) returns (r: Result<seq<int32>, NbtError>)
    requires inp.pos <= |inp.data|
    modifies inp
    ensures inp.pos <= |inp.data|
    ensures Agrees(r, IntsAt(inp.data, old(inp.pos), len), inp.pos)
  {
    ghost var p0 := inp.pos;
    ghost var d := inp.data;
    var arr := new int32[len];
    for i := 0 to len
      invariant inp.pos == p0 + 4 * i <= |d|
      invariant forall k :: 0 <= k < i ==> arr[k] == Int32BE(d[p0 + 4 * k..p0 + 4 * k + 4])
    {
      var v := inp.ReadInt();
      if v.Err? {
        assert p0 + 4 * len > |d|;
        return Err(v.error);
      }
      arr[i] := v.value;
    }
    ghost var expected := IntsAt(d, p0, len);
    assert expected.Ok?;
    assert arr[..] == expected.value.0;
    r := Ok(arr[..]);
  }

  /** The loop filling a `LongArray(len)`. */
  method ReadLongs(inp: DataInput, len: nat) returns (r: Result<seq<int64>, NbtError>)
    requires inp.pos <= |inp.data|
    modifies inp
    ensures inp.pos <= |inp.data|
    ensures Agrees(r, LongsAt(inp.data, old(inp.pos), len), inp.pos)
  {
    ghost var p0 := inp.pos;
    ghost var d := inp.data;
    var arr := new int64[len];
    for i := 0 to len
      invariant inp.pos == p0 + 8 * i <= |d|
      invariant forall k :: 0 <= k < i ==> arr[k] == Int64BE(d[p0 + 8 * k..p0 + 8 * k + 8])
    {
      var v := inp.ReadLong();
      if v.Err? {
        assert p0 + 8 * len > |d|;
        return Err(v.error);
      }
      arr[i] := v.value;
    }
    ghost var expected := LongsAt(d, p0, len);
    assert expected.Ok?;
    assert arr[..] == expected.value.0;
    r := Ok(arr[..]);
  }

  /** `readPayload`: the `when` on the tag type. */
  method ReadPayload(inp: DataInput, t: int) returns (r: Result<Tag, NbtError>)
    requires inp.pos <= |inp.data|
    modifies inp
    ensures inp.pos <= |inp.data|
    ensures Agrees(r, PayloadAt(inp.data, old(inp.pos), t), inp.pos)
    decreases |inp.data| - inp.pos, 2
  {
    if t == TAG_BYTE {
      var v := inp.ReadByte();
      if v.Err? { return Err(v.error); }
      r := Ok(ByteTag(v.value));
    } else if t == TAG_SHORT {
      var b := inp.ReadFully(2);
      if b.Err? { return Err(b.error); }
      r := Ok(ShortTag(Signed16(BE(b.value))));
    } else if t == TAG_INT {
      var v := inp.ReadInt();
      if v.Err? { return Err(v.error); }
      r := Ok(IntTag(v.value));
    } else if t == TAG_LONG {
      var v := inp.ReadLong();
      if v.Err? { return Err(v.error); }
      r := Ok(LongTag(v.value));
    } else if t == TAG_FLOAT {
      var v := inp.ReadInt();
      if v.Err? { return Err(v.error); }
      r := Ok(FloatTag(v.value));
    } else if t == TAG_DOUBLE {
      var v := inp.ReadLong();
      if v.Err? { return Err(v.error); }
      r := Ok(DoubleTag(v.value));
    } else if t == TAG_BYTE_ARRAY {
      var len := ReadLength(inp);
      if len.Err? { return Err(len.error); }
      var arr := inp.ReadFully(len.value);
      if arr.Err? { return Err(arr.error); }
      r := Ok(ByteArrayTag(arr.value));
    } else if t == TAG_STRING {
      var s := ReadUtf(inp);
      if s.Err? { return Err(s.error); }
      r := Ok(StringTag(s.value));
    } else if t == TAG_LIST {
      r := ReadList(inp);
    } else if t == TAG_COMPOUND {
      var m := ReadCompound(inp);
      if m.Err? { return Err(m.error); }
      r := Ok(CompoundTag(m.value));
    } else if t == TAG_INT_ARRAY {
      var len := ReadLength(inp);
      if len.Err? { return Err(len.error); }
      var a := ReadInts(inp, len.value);
      if a.Err? { return Err(a.error); }
      r := Ok(IntArrayTag(a.value));
    } else if t == TAG_LONG_ARRAY {
      var len := ReadLength(inp);
      if len.Err? { return Err(len.error); }
      var a := ReadLongs(inp, len.value);
      if a.Err? { return Err(a.error); }
      r := Ok(LongArrayTag(a.value));
    } else {
      r := Err(UnsupportedTag(t));
    }
  }

  /** `readList`. */
  method ReadList(inp: DataInput) returns (r: Result<Tag, NbtError>)
    requires inp.pos <= |inp.data|
    modifies inp
    ensures inp.pos <= |inp.data|
    ensures Agrees(r, ListAt(inp.data, old(inp.pos)), inp.pos)
    decreases |inp.data| - inp.pos, 0
  {
    ghost var p0 := inp.pos;
    ghost var d := inp.data;
    var elemType := inp.ReadByte();
    if elemType.Err? { return Err(elemType.error); }
    var len := inp.ReadInt();
    if len.Err? { return Err(len.error); }
    if len.value < 0 { return Err(NegativeLength(len.value)); }
    var n: nat := len.value;
    var list: seq<Tag> := [];
    for i := 0 to n
      invariant p0 + 5 <= inp.pos <= |d|
      invariant ItemsFrom(d, inp.pos, elemType.value, n - i, list) == ItemsFrom(d, p0 + 5, elemType.value, n, [])
    {
      var v := ReadPayload(inp, elemType.value);
      if v.Err? { return Err(v.error); }
      list := list + [v.value];
    }
    r := Ok(ListTag(list));
  }

  /** `readCompound`: entries until tag type 0, the last of a name winning. */
  method ReadCompound(inp: DataInput) returns (r: Result<map<Name, Tag>, NbtError>)
    requires inp.pos <= |inp.data|
    modifies inp
    ensures inp.pos <= |inp.data|
    ensures Agrees(r, CompoundFrom(inp.data, old(inp.pos), map[]), inp.pos)
    decreases |inp.data| - inp.pos, 1
  {
    ghost var p0 := inp.pos;
    ghost var d := inp.data;
    var m: map<Name, Tag> := map[];
    while true
      invariant p0 <= inp.pos <= |d|
      invariant CompoundFrom(d, inp.pos, m) == CompoundFrom(d, p0, map[])
      decreases |d| - inp.pos
    {
      var entry := ReadEntry(inp, m);
      if entry.Err? { return Err(entry.error); }
      if entry.value.None? { return Ok(m); }
      var (name, v) := entry.value.value;
      m := m[name := v];
    }
  }

  /** One pass of the loop of `readCompound`: the tag type, then, unless it
      is the end tag, the name and the payload of one entry. */
  method ReadEntry(inp: DataInput, ghost m: map<Name, Tag>) returns (r: Result<Option<(Name, Tag)>, NbtError>)
    requires inp.pos <= |inp.data|
    modifies inp
    ensures inp.pos <= |inp.data|
    ensures r.Err? ==> CompoundFrom(inp.data, old(inp.pos), m) == Err(r.error)
    ensures r == Ok(None) ==> CompoundFrom(inp.data, old(inp.pos), m) == Ok((m, inp.pos))
    ensures r.Ok? && r.value.Some? ==>
      && old(inp.pos) < inp.pos
      && CompoundFrom(inp.data, old(inp.pos), m) == CompoundFrom(inp.data, inp.pos, m[r.value.value.0 := r.value.value.1])
    decreases |inp.data| - inp.pos, 0
  {
    var t := inp.ReadByte();
    if t.Err? { return Err(t.error); }
    if t.value == TAG_END { return Ok(None); }
    var name := ReadUtf(inp);
    if name.Err? { return Err(name.error); }
    var v := ReadPayload(inp, t.value);
    if v.Err? { return Err(v.error); }
    r := Ok(Some((name.value, v.value)));
  }

  /** The `Forced` loop: pairs of consecutive longs, appended to `out`. */
  method CollectForced(forced: seq<int64>, out: seq<(int32, int32)>) returns (res: seq<(int32, int32)>)
    ensures res == out + ForcedPairs(forced)
  {
    res := out;
    var i := 0;
    while i + 1 < |forced|
      invariant 0 <= i <= |forced| && i % 2 == 0
      invariant res == out + ForcedPairs(forced[..i])
      decreases |forced| - i
    {
      ghost var before := forced[..i];
      assert forced[..i + 2][..i] == before;
      res := res + [(ToInt32(forced[i]), ToInt32(forced[i + 1]))];
      i := i + 2;
      assert ForcedPairs(forced[..i]) == ForcedPairs(before) + [(ToInt32(forced[i - 2]), ToInt32(forced[i - 1]))];
    }
    assert |forced[..i]| / 2 == |forced| / 2;
    assert ForcedPairs(forced[..i]) == ForcedPairs(forced);
  }

  /** The `tickets` loop, appended to `out`. */
  method CollectTickets(tickets: seq<Tag>, out: seq<(int32, int32)>) returns (res: seq<(int32, int32)>)
    ensures res == out + TicketPairs(tickets)
  {
    res := out;
    for i := 0 to |tickets|
      invariant res == out + TicketPairs(tickets[..i])
    {
      assert tickets[..i + 1][..i] == tickets[..i];
      var t := tickets[i];
      if !t.CompoundTag? { continue; }
      var tm := t.entries;
      if !(TYPE in tm && tm[TYPE].StringTag?) { continue; }
      var typeStr := tm[TYPE].utf8;
      if typeStr == FORCED_TYPE {
        if !(CHUNK_POS in tm && tm[CHUNK_POS].IntArrayTag?) { continue; }
        var pos := tm[CHUNK_POS].ints;
        if |pos| == 2 {
          res := res + [(pos[0], pos[1])];
        }
      }
    }
    assert tickets[..|tickets|] == tickets;
  }

  /** `parse` on the gunzipped file. */
  method Parse(bytes: seq<byte>) returns (r: Result<seq<(int32, int32)>, NbtError>)
    ensures r == ForcedChunksOf(bytes)
  {
    var inp := new DataInput(bytes);
    var rootType := inp.ReadByte();
    if rootType.Err? {
      return Err(rootType.error);
    }
    if rootType.value != TAG_COMPOUND {
      return Err(RootNotCompound(rootType.value));
    }
    var rootName := ReadUtf(inp);
    if rootName.Err? {
      return Err(rootName.error);
    }
    var compound := ReadCompound(inp);
    if compound.Err? {
      return Err(compound.error);
    }
    var root := compound.value;
    assert RootAt(bytes) == Ok(root);
    if !(DATA in root && root[DATA].CompoundTag?) {
      return Ok([]);
    }
    var dataTag := root[DATA].entries;
    var out: seq<(int32, int32)> := [];
    if FORCED in dataTag && dataTag[FORCED].LongArrayTag? {
      out := CollectForced(dataTag[FORCED].longs, out);
    }
    if TICKETS in dataTag && dataTag[TICKETS].ListTag? {
      out := CollectTickets(dataTag[TICKETS].items, out);
    }
    assert out == ChunksOf(root);
    r := Ok(out);
  }
  // ---------------------------------------------------------------------
  // The encoder side: a `chunks.dat` laid out as the game writes it, and
  // the properties of the reader that decode it.

  /** A name: its 2-byte big-endian length, then its bytes. */
  function Utf(s: Name): (r: seq<byte>)
    requires |s| < 0x1_0000
    ensures |r| == 2 + |s|
  {
    PowWidths();
    ToBE(|s|, 2) + s
  }

  /** One compound entry: tag type, name, payload. */
  function EntryBytes(t: byte, name: Name, payload: seq<byte>): (r: seq<byte>)
    requires |name| < 0x1_0000
    ensures |r| == 3 + |name| + |payload|
  {
    [t] + Utf(name) + payload
  }

  function LongsBytes(a: seq<int64>): (r: seq<byte>)
    ensures |r| == 8 * |a|
  {
    seq(8 * |a|, i requires 0 <= i < 8 * |a| => Int64ToBE(a[i / 8])[i % 8])
  }

  /** A forced ticket: `type` = `minecraft:forced`, `chunk_pos` = [x, z]. */
  function TicketBytes(x: int32, z: int32): (r: seq<byte>)
    ensures |r| == 50
  {
    EntryBytes(8, TYPE, Utf(FORCED_TYPE)) + EntryBytes(11, CHUNK_POS, PosBytes(x, z)) + [0]
  }

  /** The `chunk_pos` payload: size 2, then the two coordinates. */
  function PosBytes(x: int32, z: int32): (r: seq<byte>)
    ensures |r| == 12
  {
    Int32ToBE(2) + Int32ToBE(x) + Int32ToBE(z)
  }

  function TicketsBytes(ts: seq<(int32, int32)>): (r: seq<byte>)
    ensures |r| == 50 * |ts|
  {
    if ts == [] then [] else TicketBytes(ts[0].0, ts[0].1) + TicketsBytes(ts[1..])
  }

  /** The tag a forced ticket decodes to. */
  function TicketTag(x: int32, z: int32): Tag
  {
    CompoundTag(map[TYPE := StringTag(FORCED_TYPE), CHUNK_POS := IntArrayTag([x, z])])
  }

  function TicketTags(ts: seq<(int32, int32)>): (r: seq<Tag>)
    ensures |r| == |ts|
  {
    seq(|ts|, k requires 0 <= k < |ts| => TicketTag(ts[k].0, ts[k].1))
  }

  /** A long array payload: its size, then the longs. */
  function LongArray(a: seq<int64>): (r: seq<byte>)
    ensures |r| == 4 + 8 * |a|
  {
    Int32ToBE(|a|) + LongsBytes(a)
  }

  /** A list payload of ticket compounds: element type, count, items. */
  function TicketList(tickets: seq<(int32, int32)>): (r: seq<byte>)
    ensures |r| == 5 + 50 * |tickets|
  {
    [10] + Int32ToBE(|tickets|) + TicketsBytes(tickets)
  }

  function ForcedEntry(forced: seq<int64>): seq<byte>
  {
    EntryBytes(12, FORCED, LongArray(forced))
  }

  function TicketsEntry(tickets: seq<(int32, int32)>): seq<byte>
  {
    EntryBytes(9, TICKETS, TicketList(tickets))
  }

  /** The entries of `data` and its end tag. */
  function DataBody(forced: seq<int64>, tickets: seq<(int32, int32)>): seq<byte>
  {
    ForcedEntry(forced) + TicketsEntry(tickets) + [0]
  }

  /** An unnamed root compound holding `data`, which holds the `Forced`
      long array and the `tickets` list. */
  function ChunksFile(forced: seq<int64>, tickets: seq<(int32, int32)>): seq<byte>
  {
    [10] + Utf([]) + EntryBytes(10, DATA, DataBody(forced, tickets)) + [0]
  }

  /** The two parts of the window `d[p..q]`, which break at `m`. */
  lemma Split2(d: seq<byte>, p: nat, m: nat, q: nat, x: seq<byte>, y: seq<byte>)
    requires p <= m <= q <= |d| && m == p + |x| && d[p..q] == x + y
    ensures d[p..m] == x && d[m..q] == y
  {
    assert d[p..m] == d[p..q][..|x|];
    assert d[m..q] == d[p..q][|x|..];
  }

  /** The three parts of the window `d[p..q]`, which break at `m1` and `m2`. */
  lemma Split3(d: seq<byte>, p: nat, m1: nat, m2: nat, q: nat, x: seq<byte>, y: seq<byte>, z: seq<byte>)
    requires p <= m1 <= m2 <= q <= |d| && m1 == p + |x| && m2 == m1 + |y| && d[p..q] == x + y + z
    ensures d[p..m1] == x && d[m1..m2] == y && d[m2..q] == z
  {
    Split2(d, p, m2, q, x + y, z);
    Split2(d, p, m1, m2, x, y);
  }

  lemma ByteAt(d: seq<byte>, p: nat, q: nat, b: byte)
    requires q == p + 1 <= |d| && d[p..q] == [b]
    ensures d[p] == b
  {
    assert d[p] == d[p..q][0];
  }

  lemma UtfRead(d: seq<byte>, p: nat, q: nat, s: Name)
    requires |s| < 0x1_0000 && q == p + 2 + |s| <= |d| && d[p..q] == Utf(s)
    ensures UtfAt(d, p) == Ok((s, q))
  {
    assert Pow256(2) == 0x1_0000 by { assert Pow256(1) == 256; }
    var h := ToBE(|s|, 2);
    assert Utf(s) == h + s;
    Split2(d, p, p + 2, q, h, s);
    BEOfToBE(|s|, 2);
    var n := BE(d[p..p + 2]);
    assert n == |s|;
    assert d[p + 2..p + 2 + n] == s;
  }

  lemma IntRead(d: seq<byte>, p: nat, q: nat, v: int32)
    requires q == p + 4 <= |d| && d[p..q] == Int32ToBE(v)
    ensures Int32BE(d[p..q]) == v
  {
    Int32BERoundTrip(v);
  }

  lemma LongsBytesSlice(a: seq<int64>, k: nat)
    requires k < |a|
    ensures LongsBytes(a)[8 * k..8 * k + 8] == Int64ToBE(a[k])
  {
    forall j | 0 <= j < 8
      ensures LongsBytes(a)[8 * k + j] == Int64ToBE(a[k])[j]
    {
      assert (8 * k + j) / 8 == k && (8 * k + j) % 8 == j;
    }
  }

  lemma LongsRead(d: seq<byte>, p: nat, q: nat, a: seq<int64>)
    requires q == p + 8 * |a| <= |d| && d[p..q] == LongsBytes(a)
    ensures LongsAt(d, p, |a|) == Ok((a, q))
  {
    var got := LongsAt(d, p, |a|).value.0;
    forall k | 0 <= k < |a|
      ensures got[k] == a[k]
    {
      LongWindow(d, p, q, a, k);
      LongRead(d, p, |a|, k, a[k]);
    }
    assert got == a;
  }

  lemma LongWindow(d: seq<byte>, p: nat, q: nat, a: seq<int64>, k: nat)
    requires k < |a| && q == p + 8 * |a| <= |d| && d[p..q] == LongsBytes(a)
    ensures d[p + 8 * k..p + 8 * k + 8] == Int64ToBE(a[k])
  {
    var bytes, w := LongsBytes(a), Int64ToBE(a[k]);
    LongsBytesSlice(a, k);
    forall j | 0 <= j < 8
      ensures d[p + 8 * k + j] == w[j]
    {
      assert w[j] == bytes[8 * k + j];
      assert d[p..q][8 * k + j] == bytes[8 * k + j];
    }
  }

  lemma LongRead(d: seq<byte>, p: nat, n: nat, k: nat, v: int64)
    requires k < n && p + 8 * n <= |d| && d[p + 8 * k..p + 8 * k + 8] == Int64ToBE(v)
    ensures LongsAt(d, p, n).Ok? && LongsAt(d, p, n).value.0[k] == v
  {
    Int64BERoundTrip(v);
    LongsAtElem(d, p, n, k);
  }

  lemma LongsAtElem(d: seq<byte>, p: nat, n: nat, k: nat)
    requires k < n && p + 8 * n <= |d|
    ensures LongsAt(d, p, n).Ok? && LongsAt(d, p, n).value.0[k] == Int64BE(d[p + 8 * k..p + 8 * k + 8])
  {
  }

  /** A compound entry of type `t` named `name`, whose payload starts at `b`
      and reads as `v` up to `q`, adds its value; the compound goes on at `q`. */
  lemma CompoundStep(d: seq<byte>, p: nat, b: nat, m: map<Name, Tag>, t: byte, name: Name, v: Tag, q: nat)
    requires 0 < t < 128 && |name| < 0x1_0000
    requires b == p + 3 + |name| <= |d| && d[p] == t && d[p + 1..b] == Utf(name)
    requires PayloadAt(d, b, t) == Ok((v, q))
    ensures CompoundFrom(d, p, m) == CompoundFrom(d, q, m[name := v])
  {
    UtfRead(d, p + 1, b, name);
  }

  /** When a name occurs twice in a compound, the later value wins. */
  lemma LastWins(d: seq<byte>, p: nat, b1: nat, m: map<Name, Tag>, t1: byte, t2: byte, name: Name,
                 v1: Tag, q1: nat, b2: nat, v2: Tag, q2: nat)
    requires 0 < t1 < 128 && 0 < t2 < 128 && |name| < 0x1_0000
    requires b1 == p + 3 + |name| <= |d| && d[p] == t1 && d[p + 1..b1] == Utf(name)
    requires PayloadAt(d, b1, t1) == Ok((v1, q1))
    requires b2 == q1 + 3 + |name| <= |d| && d[q1] == t2 && d[q1 + 1..b2] == Utf(name)
    requires PayloadAt(d, b2, t2) == Ok((v2, q2))
    ensures CompoundFrom(d, p, m) == CompoundFrom(d, q2, m[name := v2])
  {
    CompoundStep(d, p, b1, m, t1, name, v1, q1);
    CompoundStep(d, q1, b2, m[name := v1], t2, name, v2, q2);
    assert m[name := v1][name := v2] == m[name := v2];
  }

  /** The three parts of an entry laid out at `d[p..q]`, whose payload
      starts at `b`. */
  lemma EntryWindow(d: seq<byte>, p: nat, b: nat, q: nat, t: byte, name: Name, payload: seq<byte>)
    requires |name| < 0x1_0000
    requires b == p + 3 + |name| && q == b + |payload| <= |d| && d[p..q] == EntryBytes(t, name, payload)
    ensures d[p] == t && d[p + 1..b] == Utf(name) && d[b..q] == payload
  {
    Split3(d, p, p + 1, b, q, [t], Utf(name), payload);
    ByteAt(d, p, p + 1, t);
  }

  lemma StringRead(d: seq<byte>, p: nat, q: nat, s: Name)
    requires |s| < 0x1_0000 && q == p + 2 + |s| <= |d| && d[p..q] == Utf(s)
    ensures PayloadAt(d, p, 8) == Ok((StringTag(s), q))
  {
    UtfRead(d, p, q, s);
  }

  lemma PosRead(d: seq<byte>, p: nat, q: nat, x: int32, z: int32)
    requires q == p + 12 <= |d| && d[p..q] == PosBytes(x, z)
    ensures PayloadAt(d, p, 11) == Ok((IntArrayTag([x, z]), q))
  {
    Split3(d, p, p + 4, p + 8, q, Int32ToBE(2), Int32ToBE(x), Int32ToBE(z));
    IntRead(d, p, p + 4, 2);
    IntRead(d, p + 4, p + 8, x);
    IntRead(d, p + 8, q, z);
    assert LengthAt(d, p) == Ok((2, p + 4));
    var ints := IntsAt(d, p + 4, 2).value.0;
    assert ints[0] == x && ints[1] == z;
    assert ints == [x, z];
  }

  lemma TicketRead(d: seq<byte>, p: nat, q: nat, x: int32, z: int32)
    requires q == p + 50 <= |d| && d[p..q] == TicketBytes(x, z)
    ensures PayloadAt(d, p, 10) == Ok((TicketTag(x, z), q))
  {
    var e1 := EntryBytes(8, TYPE, Utf(FORCED_TYPE));
    var e2 := EntryBytes(11, CHUNK_POS, PosBytes(x, z));
    var p1, p2 := p + 25, p + 49;
    Split3(d, p, p1, p2, q, e1, e2, [0]);
    var m1 := map[][TYPE := StringTag(FORCED_TYPE)];
    var m2 := m1[CHUNK_POS := IntArrayTag([x, z])];
    EntryWindow(d, p, p + 7, p1, 8, TYPE, Utf(FORCED_TYPE));
    StringRead(d, p + 7, p1, FORCED_TYPE);
    CompoundStep(d, p, p + 7, map[], 8, TYPE, StringTag(FORCED_TYPE), p1);
    EntryWindow(d, p1, p1 + 12, p2, 11, CHUNK_POS, PosBytes(x, z));
    PosRead(d, p1 + 12, p2, x, z);
    CompoundStep(d, p1, p1 + 12, m1, 11, CHUNK_POS, IntArrayTag([x, z]), p2);
    ByteAt(d, p2, q, 0);
    assert m2 == TicketTag(x, z).entries;
    CompoundEndAs(d, p2, m2, Ok((m2, q)));
    Chain(CompoundFrom(d, p, map[]), CompoundFrom(d, p1, m1), CompoundFrom(d, p2, m2), Ok((m2, q)));
    CompoundPayload(d, p, m2, q);
  }

  lemma {:induction false} TicketsRead(d: seq<byte>, p: nat, q: nat, ts: seq<(int32, int32)>, acc: seq<Tag>)
    requires q == p + 50 * |ts| <= |d| && d[p..q] == TicketsBytes(ts)
    ensures ItemsFrom(d, p, 10, |ts|, acc) == Ok((acc + TicketTags(ts), q))
    decreases |ts|
  {
    if ts != [] {
      Split2(d, p, p + 50, q, TicketBytes(ts[0].0, ts[0].1), TicketsBytes(ts[1..]));
      TicketRead(d, p, p + 50, ts[0].0, ts[0].1);
      TicketsRead(d, p + 50, q, ts[1..], acc + [TicketTag(ts[0].0, ts[0].1)]);
      assert acc + [TicketTag(ts[0].0, ts[0].1)] + TicketTags(ts[1..]) == acc + TicketTags(ts);
    } else {
      assert acc + TicketTags(ts) == acc;
    }
  }

  lemma {:induction false} TicketTagsPairs(ts: seq<(int32, int32)>)
    ensures TicketPairs(TicketTags(ts)) == ts
  {
    if ts != [] {
      var init := ts[..|ts| - 1];
      TicketTagsPairs(init);
      assert TicketTags(ts)[..|ts| - 1] == TicketTags(init);
      var last := TicketTag(ts[|ts| - 1].0, ts[|ts| - 1].1);
      assert TicketOf(last) == [ts[|ts| - 1]];
      assert ts == init + [ts[|ts| - 1]];
    }
  }

  /** A long array whose size reads as `n` and whose longs read as `a`. */
  lemma LongArrayOf(d: seq<byte>, p: nat, n: nat, a: seq<int64>, q: nat)
    requires p + 4 <= |d| && Int32BE(d[p..p + 4]) == n
    requires LongsAt(d, p + 4, n) == Ok((a, q))
    ensures PayloadAt(d, p, 12) == Ok((LongArrayTag(a), q))
  {
  }

  lemma ForcedRead(d: seq<byte>, p: nat, q: nat, forced: seq<int64>)
    requires |forced| < TWO_31
    requires q == p + 4 + 8 * |forced| <= |d| && d[p..q] == LongArray(forced)
    ensures PayloadAt(d, p, 12) == Ok((LongArrayTag(forced), q))
  {
    Split2(d, p, p + 4, q, Int32ToBE(|forced|), LongsBytes(forced));
    IntRead(d, p, p + 4, |forced|);
    LongsRead(d, p + 4, q, forced);
    LongArrayOf(d, p, |forced|, forced, q);
  }

  /** A list of `n` compounds whose items read as `items`. */
  lemma ListOfCompounds(d: seq<byte>, p: nat, n: nat, items: seq<Tag>, q: nat)
    requires p + 5 <= |d| && d[p] == 10 && Int32BE(d[p + 1..p + 5]) == n
    requires ItemsFrom(d, p + 5, 10, n, []) == Ok((items, q))
    ensures PayloadAt(d, p, 9) == Ok((ListTag(items), q))
  {
  }

  lemma TicketListRead(d: seq<byte>, p: nat, q: nat, tickets: seq<(int32, int32)>)
    requires |tickets| < TWO_31
    requires q == p + 5 + 50 * |tickets| <= |d| && d[p..q] == TicketList(tickets)
    ensures PayloadAt(d, p, 9) == Ok((ListTag(TicketTags(tickets)), q))
  {
    var n := |tickets|;
    Split3(d, p, p + 1, p + 5, q, [10], Int32ToBE(n), TicketsBytes(tickets));
    ByteAt(d, p, p + 1, 10);
    IntRead(d, p + 1, p + 5, n);
    TicketsRead(d, p + 5, q, tickets, []);
    assert [] + TicketTags(tickets) == TicketTags(tickets);
    ListOfCompounds(d, p, n, TicketTags(tickets), q);
  }

  /** The `Forced` entry adds the long array. */
  lemma ForcedEntryRead(d: seq<byte>, p: nat, q: nat, m: map<Name, Tag>, forced: seq<int64>)
    requires |forced| < TWO_31
    requires q == p + 13 + 8 * |forced| <= |d| && d[p..q] == ForcedEntry(forced)
    ensures CompoundFrom(d, p, m) == CompoundFrom(d, q, m[FORCED := LongArrayTag(forced)])
  {
    EntryWindow(d, p, p + 9, q, 12, FORCED, LongArray(forced));
    ForcedRead(d, p + 9, q, forced);
    CompoundStep(d, p, p + 9, m, 12, FORCED, LongArrayTag(forced), q);
  }

  /** The `tickets` entry adds the list of ticket compounds. */
  lemma TicketsEntryRead(d: seq<byte>, p: nat, q: nat, m: map<Name, Tag>, tickets: seq<(int32, int32)>)
    requires |tickets| < TWO_31
    requires q == p + 15 + 50 * |tickets| <= |d| && d[p..q] == TicketsEntry(tickets)
    ensures CompoundFrom(d, p, m) == CompoundFrom(d, q, m[TICKETS := ListTag(TicketTags(tickets))])
  {
    EntryWindow(d, p, p + 10, q, 9, TICKETS, TicketList(tickets));
    TicketListRead(d, p + 10, q, tickets);
    CompoundStep(d, p, p + 10, m, 9, TICKETS, ListTag(TicketTags(tickets)), q);
  }

  /** What `data` decodes to. */
  function DataMap(forced: seq<int64>, tickets: seq<(int32, int32)>): map<Name, Tag>
  {
    map[FORCED := LongArrayTag(forced), TICKETS := ListTag(TicketTags(tickets))]
  }

  /** The `data` compound of `ChunksFile`. */
  lemma DataRead(d: seq<byte>, p: nat, q: nat, forced: seq<int64>, tickets: seq<(int32, int32)>)
    requires |forced| < TWO_31 && |tickets| < TWO_31
    requires q == p + 29 + 8 * |forced| + 50 * |tickets| <= |d| && d[p..q] == DataBody(forced, tickets)
    ensures CompoundFrom(d, p, map[]) == Ok((DataMap(forced, tickets), q))
  {
    var q1 := p + 13 + 8 * |forced|;
    var q2 := q1 + 15 + 50 * |tickets|;
    Split3(d, p, q1, q2, q, ForcedEntry(forced), TicketsEntry(tickets), [0]);
    ByteAt(d, q2, q, 0);
    var m1 := map[][FORCED := LongArrayTag(forced)];
    var m2 := m1[TICKETS := ListTag(TicketTags(tickets))];
    CompoundEndAs(d, q2, m2, Ok((m2, q)));
    ForcedEntryRead(d, p, q1, map[], forced);
    TicketsEntryRead(d, q1, q2, m1, tickets);
    Chain(CompoundFrom(d, p, map[]), CompoundFrom(d, q1, m1), CompoundFrom(d, q2, m2), Ok((m2, q)));
    DataMapSteps(forced, tickets);
  }

  lemma DataMapSteps(forced: seq<int64>, tickets: seq<(int32, int32)>)
    ensures map[][FORCED := LongArrayTag(forced)][TICKETS := ListTag(TicketTags(tickets))] == DataMap(forced, tickets)
  {
  }

  lemma Chain<T>(a: T, b: T, c: T, r: T)
    requires a == b && b == c && c == r
    ensures a == r
  {
  }

  /** A compound payload is the compound read from its first entry. */
  lemma CompoundPayload(d: seq<byte>, p: nat, m: map<Name, Tag>, q: nat)
    requires p <= |d| && CompoundFrom(d, p, map[]) == Ok((m, q))
    ensures PayloadAt(d, p, 10) == Ok((CompoundTag(m), q))
  {
  }

  lemma CompoundEndAs(d: seq<byte>, p: nat, m: map<Name, Tag>, r: Result<(map<Name, Tag>, nat), NbtError>)
    requires p < |d| && d[p] == 0 && r == Ok((m, p + 1))
    ensures CompoundFrom(d, p, m) == r
  {
  }

  /** The root compound whose only entry `data` holds `dm`. */
  lemma RootOf(d: seq<byte>, dm: map<Name, Tag>, q: nat)
    requires 3 <= q && q + 1 == |d| && d[0] == 10 && d[1..3] == Utf([]) && d[q] == 0
    requires CompoundFrom(d, 3, map[]) == CompoundFrom(d, q, map[][DATA := CompoundTag(dm)])
    ensures RootAt(d) == Ok(map[DATA := CompoundTag(dm)])
  {
    UtfRead(d, 1, 3, []);
    var root := map[][DATA := CompoundTag(dm)];
    assert root == map[DATA := CompoundTag(dm)];
    CompoundEndAs(d, q, root, Ok((root, |d|)));
  }

  lemma RootRead(d: seq<byte>, forced: seq<int64>, tickets: seq<(int32, int32)>)
    requires |forced| < TWO_31 && |tickets| < TWO_31
    requires d == ChunksFile(forced, tickets)
    ensures RootAt(d) == Ok(map[DATA := CompoundTag(DataMap(forced, tickets))])
  {
    var body := DataBody(forced, tickets);
    var e := EntryBytes(10, DATA, body);
    var q := 10 + |body|;
    Split2(d, 0, q, |d|, [10] + Utf([]) + e, [0]);
    Split3(d, 0, 1, 3, q, [10], Utf([]), e);
    ByteAt(d, 0, 1, 10);
    ByteAt(d, q, |d|, 0);
    var dm := DataMap(forced, tickets);
    EntryWindow(d, 3, 10, q, 10, DATA, body);
    DataRead(d, 10, q, forced, tickets);
    CompoundPayload(d, 10, dm, q);
    CompoundStep(d, 3, 10, map[], 10, DATA, CompoundTag(dm), q);
    RootOf(d, dm, q);
  }

  /** The loader reads back, from a file holding a `Forced` array and a list
      of forced tickets, the pairs of the array followed by the tickets. */
  lemma ParseChunksFile(forced: seq<int64>, tickets: seq<(int32, int32)>)
    requires |forced| < TWO_31 && |tickets| < TWO_31
    ensures ForcedChunksOf(ChunksFile(forced, tickets)) == Ok(ForcedPairs(forced) + tickets)
  {
    RootRead(ChunksFile(forced, tickets), forced, tickets);
    TicketTagsPairs(tickets);
  }
}
