/** The file-backed region writer (McaWriter.kt), and the two header loops of
    `finalizeFile` it shares with the in-memory writer.

    The `RandomAccessFile` is modelled by its contents, a byte sequence that
    `seek` + `write` overwrites and extends.  The writer keeps, as ghost
    state, the sequence of records it was given; its invariant ties the
    three slot arrays, the data offset and the bytes after the header to
    that sequence through the functions of `RegionImage`. */
module Writer {
  import opened Bytes
  import opened Wrappers
  import opened Entry
  import opened Reader
  import opened RegionImage

  /** `seek(pos)` followed by `write(bytes)` on a file whose contents are `f`:
      the bytes at `pos ..` are replaced, and the file grows when they run
      past its end. */
  function WriteAt(f: seq<byte>, pos: nat, bytes: seq<byte>): (r: seq<byte>)
    requires pos <= |f|
    ensures |r| == if pos + |bytes| <= |f| then |f| else pos + |bytes|
    ensures r[..pos] == f[..pos] && r[pos..pos + |bytes|] == bytes
    ensures r[pos + |bytes|..] == if pos + |bytes| <= |f| then f[pos + |bytes|..] else []
  {
    if pos + |bytes| <= |f| then f[..pos] + bytes + f[pos + |bytes|..] else f[..pos] + bytes
  }

  /** Writing at the end of a file appends. */
  lemma WriteAtEnd(f: seq<byte>, bytes: seq<byte>)
    ensures WriteAt(f, |f|, bytes) == f + bytes
  {
  }

  /** `ByteBuffer.putInt(v)` with the buffer's position at `at`: four
      big-endian bytes, nothing else in the buffer changes. */
  method PutInt(buf: array<byte>, at: nat, v: int)
    requires at + 4 <= buf.Length
    modifies buf
    ensures buf[at..at + 4] == Int32ToBE(v)
    ensures forall k :: 0 <= k < buf.Length && !(at <= k < at + 4) ==> buf[k] == old(buf[k])
  {
    var b := Int32ToBE(v);
    buf[at] := b[0];
    buf[at + 1] := b[1];
    buf[at + 2] := b[2];
    buf[at + 3] := b[3];
  }

  /** The first loop of `finalizeFile`: one location word per slot. */
  method EncodeLocations(offsets: array<int32>, sizes: array<int32>) returns (loc: array<byte>)
    requires offsets.Length == 1024 && sizes.Length == 1024
    ensures fresh(loc)
    ensures loc[..] == TableBytes(LocWords(offsets[..], sizes[..]))
  {
    ghost var words := LocWords(offsets[..], sizes[..]);
    ghost var table := TableBytes(words);
    loc := new byte[4096](_ => 0);
    for i := 0 to 1024
      invariant forall k :: 0 <= k < 4 * i ==> loc[k] == table[k]
    {
      var v := LocWord(offsets[i], sizes[i]);
      PutInt(loc, 4 * i, v);
      TableWord(words, i);
      forall k | 4 * i <= k < 4 * i + 4
        ensures loc[k] == table[k]
      {
        assert loc[k] == loc[4 * i..4 * i + 4][k - 4 * i];
        assert table[k] == table[4 * i..4 * i + 4][k - 4 * i];
      }
    }
    assert loc[..] == table;
  }

  /** The second loop of `finalizeFile`: one timestamp word per slot. */
  method EncodeTimestamps(timestamps: array<int32>) returns (time: array<byte>)
    requires timestamps.Length == 1024
    ensures fresh(time)
    ensures time[..] == TableBytes(timestamps[..])
  {
    ghost var table := TableBytes(timestamps[..]);
    time := new byte[4096](_ => 0);
    for i := 0 to 1024
      invariant forall k :: 0 <= k < 4 * i ==> time[k] == table[k]
    {
      PutInt(time, 4 * i, timestamps[i]);
      TableWord(timestamps[..], i);
      forall k | 4 * i <= k < 4 * i + 4
        ensures time[k] == table[k]
      {
        assert time[k] == time[4 * i..4 * i + 4][k - 4 * i];
        assert table[k] == table[4 * i..4 * i + 4][k - 4 * i];
      }
    }
    assert time[..] == table;
  }

  /** The tables after one more write to slot `idx`. */
  lemma TablesStep(ws: seq<Put>, w: Put)
    ensures var t, t2 := TablesAfter(ws), TablesAfter(ws + [w]);
      && t2.offsets == t.offsets[w.index := ToInt32(8192 + |Body(ws)|)]
      && t2.sizes == t.sizes[w.index := ToInt32(|Padded(w.bytes)|)]
      && t2.timestamps == t.timestamps[w.index := w.modified]
    ensures Body(ws + [w]) == Body(ws) + Padded(w.bytes)
  {
    assert (ws + [w])[..|ws|] == ws;
  }

  /** Bytes appended after the header extend the data area. */
  lemma AppendedData(f: seq<byte>, body: seq<byte>, p: seq<byte>)
    requires |f| >= 8192 && f[8192..] == body
    ensures (f + p)[8192..] == body + p
    ensures (f + p)[..8192] == f[..8192]
  {
  }

  class McaWriter {
    /** The path the file was opened at. */
    const path: string
    /** The contents of the `RandomAccessFile`. */
    var file: seq<byte>
    /** Where the next record goes, a `Long`. */
    var dataOffset: int
    const offsets: array<int32>
    const sizes: array<int32>
    const timestamps: array<int32>
    /** The records written so far, in order. */
    ghost var writes: seq<Put>

    /** The arrays hold the slot tables of the writes so far, the data offset
      is the end of the file, and the file after its header is the padded
      records. */
    ghost predicate Valid()
      reads this, offsets, sizes, timestamps
    {
      && offsets.Length == 1024 && sizes.Length == 1024 && timestamps.Length == 1024
      && offsets != sizes && offsets != timestamps && sizes != timestamps
      && Tables(offsets[..], sizes[..], timestamps[..]) == TablesAfter(writes)
      && dataOffset == 8192 + |Body(writes)|
      && |file| == dataOffset
      && file[8192..] == Body(writes)
    }

    /** The file is truncated and 8192 zero bytes reserve the header. */
    constructor (path: string)
      ensures Valid()
      ensures fresh(offsets) && fresh(sizes) && fresh(timestamps)
      ensures this.path == path && writes == [] && file == Zeros(8192)
    {
      this.path := path;
      file := Zeros(8192);
      dataOffset := 8192;
      offsets := new int32[1024](_ => 0);
      sizes := new int32[1024](_ => 0);
      timestamps := new int32[1024](_ => 0);
      writes := [];
      new;
      assert offsets[..] == EmptyTables().offsets;
      assert sizes[..] == EmptyTables().sizes;
      assert timestamps[..] == EmptyTables().timestamps;
    }

    /** `writeEntry`: the entry's record goes at the data offset, padded to a
      whole sector, and its slot takes the offset, the padded size and the
      entry's timestamp.  A record that cannot be read leaves the writer as
      it was. */
    method WriteEntry(e: McaEntry) returns (r: Result<(), EntryError>)
      requires Valid()
      modifies this, offsets, sizes, timestamps, e.file
      ensures Valid()
      ensures r.Ok? <==> SerializedAt(e.file.data, e.start).Ok?
      ensures r.Err? ==> (r.error == SerializedAt(e.file.data, e.start).error
        && writes == old(writes) && file == old(file))
      ensures r.Ok? ==> writes == old(writes) + [Put(e.index, e.modified, SerializedAt(e.file.data, e.start).value)]
      ensures file[..8192] == old(file[..8192])
    {
      var serialized := e.SerializedBytes();
      if serialized.Err? {
        return Err(serialized.error);
      }
      Record(Put(e.RegionIndex(), e.ModifiedTime(), serialized.value));
      r := Ok(());
    }

    /** `writeEntry` once the record `w.bytes` was read. */
    method Record(w: Put)
      requires Valid()
      modifies this, offsets, sizes, timestamps
      ensures Valid()
      ensures writes == old(writes) + [w]
      ensures file[..8192] == old(file[..8192])
    {
      ghost var f0, ws0 := file, writes;
      ghost var t0, t1 := TablesAfter(ws0), TablesAfter(ws0 + [w]);
      assert offsets[..] == t0.offsets && sizes[..] == t0.sizes && timestamps[..] == t0.timestamps;
      TablesStep(ws0, w);
      Append(w.bytes, w.index, w.modified);
      writes := ws0 + [w];
      AppendedData(f0, Body(ws0), Padded(w.bytes));
      assert offsets[..] == t1.offsets && sizes[..] == t1.sizes && timestamps[..] == t1.timestamps;
    }

    /** The steps of `writeEntry` after the record was read: write it and its
      padding at the data offset, advance the offset, fill the slot. */
    method Append(serialized: seq<byte>, idx: SlotIndex, modified: int32)
      requires |file| == dataOffset
      requires offsets.Length == 1024 && sizes.Length == 1024 && timestamps.Length == 1024
      requires offsets != sizes && offsets != timestamps && sizes != timestamps
      modifies this, offsets, sizes, timestamps
      ensures writes == old(writes)
      ensures file == old(file) + Padded(serialized)
      ensures dataOffset == old(dataOffset) + |Padded(serialized)|
      ensures offsets[..] == old(offsets[..])[idx := ToInt32(old(dataOffset))]
      ensures sizes[..] == old(sizes[..])[idx := ToInt32(|Padded(serialized)|)]
      ensures timestamps[..] == old(timestamps[..])[idx := modified]
    {
      var start := dataOffset;
      var stored := WritePadded(serialized);
      offsets[idx] := ToInt32(start);
      sizes[idx] := ToInt32(stored);
      timestamps[idx] := modified;
    }

    /** `seek(start)`, `write(serialized)`, the zero padding, and the new data
      offset; `stored` is `written + pad`. */
    method WritePadded(serialized: seq<byte>) returns (stored: nat)
      requires |file| == dataOffset
      modifies this
      ensures writes == old(writes)
      ensures stored == |Padded(serialized)|
      ensures file == old(file) + Padded(serialized)
      ensures dataOffset == old(dataOffset) + stored
    {
      var start := dataOffset;
      WriteAtEnd(file, serialized);
      file := WriteAt(file, start, serialized);
      var written := |serialized|;
      var pad := (4096 - written % 4096) % 4096;
      assert pad == Pad(written);
      if pad > 0 {
        WriteAtEnd(file, Zeros(pad));
        file := WriteAt(file, start + written, Zeros(pad));
      } else {
        assert Zeros(pad) == [];
      }
      dataOffset := dataOffset + written + pad;
      stored := written + pad;
    }

    /** `finalizeFile`: the two tables are written over the reserved header;
      the file is then the region image of the writes. */
    method FinalizeFile()
      requires Valid()
      modifies this
      ensures Valid() && writes == old(writes)
      ensures file == Image(writes)
    {
      var loc := EncodeLocations(offsets, sizes);
      var time := EncodeTimestamps(timestamps);
      file := WriteAt(file, 0, loc[..]);
      file := WriteAt(file, 4096, time[..]);
      assert file == loc[..] + time[..] + Body(writes);
    }
  }
}
