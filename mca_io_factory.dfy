/** The in-memory region writer and reader factory (McaIOFactory.kt).

    `MemoryMcaWriter` keeps the same three slot arrays as the file writer,
    but its data offset is an `Int` and its records go to a byte stream;
    `finalizeFile` stores tables and stream as one file of a `MemoryFS`.
    `MemoryMcaIOFactory` opens readers and writers on a `MemoryFS` and
    refuses any other file system. */
module IOFactory {
  import opened Bytes
  import opened Wrappers
  import opened Entry
  import opened Reader
  import opened RegionImage
  import opened Writer
  import opened MemFS

  /** The wrapped data offset after one more record. */
  lemma OffsetStep(ws: seq<Put>, w: Put, before: int32, after: int32)
    requires before == ToInt32(8192 + |Body(ws)|)
    requires after == ToInt32(before + ToInt32(|Padded(w.bytes)|))
    ensures after == ToInt32(8192 + |Body(ws + [w])|)
  {
    TablesStep(ws, w);
    ToInt32SumWrap(8192 + |Body(ws)|, |Padded(w.bytes)|);
  }

  class MemoryMcaWriter {
    const mem: MemoryFS
    const path: string
    /** Where the next record goes, an `Int`. */
    var dataOffset: int32
    const offsets: array<int32>
    const sizes: array<int32>
    const timestamps: array<int32>
    /** The `ByteArrayOutputStream` of records. */
    var data: seq<byte>
    /** The records written so far, in order. */
    ghost var writes: seq<Put>

    /** As for the file writer, except that the data offset is the wrapped
      32-bit end of the image and the data area is kept apart. */
    ghost predicate Valid()
      reads this, offsets, sizes, timestamps
    {
      && offsets.Length == 1024 && sizes.Length == 1024 && timestamps.Length == 1024
      && offsets != sizes && offsets != timestamps && sizes != timestamps
      && Tables(offsets[..], sizes[..], timestamps[..]) == TablesAfter(writes)
      && dataOffset == ToInt32(8192 + |Body(writes)|)
      && data == Body(writes)
    }

    constructor (mem: MemoryFS, path: string)
      ensures Valid()
      ensures fresh(offsets) && fresh(sizes) && fresh(timestamps)
      ensures this.mem == mem && this.path == path && writes == []
    {
      this.mem := mem;
      this.path := path;
      dataOffset := 8192;
      offsets := new int32[1024](_ => 0);
      sizes := new int32[1024](_ => 0);
      timestamps := new int32[1024](_ => 0);
      data := [];
      writes := [];
      new;
      assert offsets[..] == EmptyTables().offsets;
      assert sizes[..] == EmptyTables().sizes;
      assert timestamps[..] == EmptyTables().timestamps;
    }

    /** `writeEntry`: as for the file writer; a record that cannot be read
      leaves the writer as it was. */
    method WriteEntry(e: McaEntry) returns (r: Result<(), EntryError>)
      requires Valid()
      modifies this, offsets, sizes, timestamps, e.file
      ensures Valid()
      ensures r.Ok? <==> SerializedAt(e.file.data, e.start).Ok?
      ensures r.Err? ==> (r.error == SerializedAt(e.file.data, e.start).error && writes == old(writes))
      ensures r.Ok? ==> writes == old(writes) + [Put(e.index, e.modified, SerializedAt(e.file.data, e.start).value)]
    {
      var serialized := e.SerializedBytes();
      if serialized.Err? {
        return Err(serialized.error);
      }
      Record(Put(e.RegionIndex(), e.ModifiedTime(), serialized.value));
      r := Ok(());
    }

    /** `writeEntry` once the record `w.bytes` was read. */
    method Record(w: Put)
      requires Valid()
      modifies this, offsets, sizes, timestamps
      ensures Valid()
      ensures writes == old(writes) + [w]
    {
      ghost var ws0 := writes;
      ghost var t0, t1 := TablesAfter(ws0), TablesAfter(ws0 + [w]);
      assert offsets[..] == t0.offsets && sizes[..] == t0.sizes && timestamps[..] == t0.timestamps;
      ghost var off0 := dataOffset;
      TablesStep(ws0, w);
      Append(w.bytes, w.index, w.modified);
      OffsetStep(ws0, w, off0, dataOffset);
      writes := ws0 + [w];
      assert offsets[..] == t1.offsets && sizes[..] == t1.sizes && timestamps[..] == t1.timestamps;
    }

    /** The steps of `writeEntry` after the record was read. */
    method Append(serialized: seq<byte>, idx: SlotIndex, modified: int32)
      requires offsets.Length == 1024 && sizes.Length == 1024 && timestamps.Length == 1024
      requires offsets != sizes && offsets != timestamps && sizes != timestamps
      modifies this, offsets, sizes, timestamps
      ensures writes == old(writes)
      ensures data == old(data) + Padded(serialized)
      ensures dataOffset == ToInt32(old(dataOffset) + ToInt32(|Padded(serialized)|))
      ensures offsets[..] == old(offsets[..])[idx := old(dataOffset)]
      ensures sizes[..] == old(sizes[..])[idx := ToInt32(|Padded(serialized)|)]
      ensures timestamps[..] == old(timestamps[..])[idx := modified]
    {
      var start := dataOffset;
      var stored := WritePadded(serialized);
      offsets[idx] := start;
      sizes[idx] := stored;
      timestamps[idx] := modified;
    }

    /** `data.write(serialized)`, the zero padding and the new data offset;
      `stored` is `written + pad` as an `Int`. */
    method WritePadded(serialized: seq<byte>) returns (stored: int32)
      modifies this
      ensures writes == old(writes)
      ensures stored == ToInt32(|Padded(serialized)|)
      ensures data == old(data) + Padded(serialized)
      ensures dataOffset == ToInt32(old(dataOffset) + stored)
    {
      data := data + serialized;
      var written := |serialized|;
      var pad := (4096 - written % 4096) % 4096;
      assert pad == Pad(written);
      if pad > 0 {
        data := data + Zeros(pad);
      } else {
        assert Zeros(pad) == [];
      }
      stored := ToInt32(written + pad);
      dataOffset := ToInt32(dataOffset + stored);
    }

    /** `finalizeFile`: tables and records become the file at `path`; the
      rest of the file system is untouched. */
    method FinalizeFile()
      requires Valid()
      modifies mem
      ensures Valid() && writes == old(writes)
      ensures mem.files == old(mem.files)[path := Image(writes)]
      ensures mem.dirs == old(mem.dirs)
    {
      var loc := EncodeLocations(offsets, sizes);
      var time := EncodeTimestamps(timestamps);
      var out := loc[..] + time[..] + data;
      mem.Write(path, out);
    }
  }

  /** The file system a factory is handed: the in-memory one, or the real
      disk (`RealFileSystem`). */
  datatype FileSystem = Memory(mem: MemoryFS) | RealDisk

  datatype FactoryError =
    | RequiresMemoryFS            // IllegalArgumentException("MemoryMcaIOFactory requires MemoryFS")
    | BadFileName(e: NameError)   // thrown by `McaReader.openFromBytes`

  /** `path.fileName.toString()`: the last name of the path, trailing
      separators ignored. */
  function FileName(path: string): (r: string)
    ensures '/' !in r
  {
    LastSegment(TrimEndSlash(path))
  }

  /** What follows the last `/` of `s` (all of `s` when there is none). */
  function LastSegment(s: string): (r: string)
    ensures '/' !in r && |r| <= |s| && s[|s| - |r|..] == r
    ensures |r| < |s| ==> s[|s| - |r| - 1] == '/'
  {
    if s == [] || s[|s| - 1] == '/' then []
    else
      var r := LastSegment(s[..|s| - 1]) + [s[|s| - 1]];
      assert s[..|s| - 1][|s| - |r|..] == r[..|r| - 1];
      r
  }

  /** The name of a file placed directly in a directory is its own name. */
  lemma FileNameOfChild(dir: string, name: string)
    requires name != [] && '/' !in name
    ensures FileName(dir + "/" + name) == name
  {
    var u := dir + "/";
    assert dir + "/" + name == u + name;
    assert (u + name)[|u + name| - 1] == name[|name| - 1];
    LastSegmentAfterSlash(u, name);
  }

  lemma {:induction false} LastSegmentAfterSlash(u: string, n: string)
    requires u != [] && u[|u| - 1] == '/' && '/' !in n
    ensures LastSegment(u + n) == n
    decreases |n|
  {
    if n == [] {
      assert u + n == u;
    } else {
      var un := u + n;
      assert un[..|un| - 1] == u + n[..|n| - 1];
      LastSegmentAfterSlash(u, n[..|n| - 1]);
      assert n == n[..|n| - 1] + [n[|n| - 1]];
    }
  }

  /** `mem.read(path) ?: ByteArray(0)`. */
  function BytesOrEmpty(o: Option<seq<byte>>): seq<byte>
  {
    match o
    case Some(b) => b
    case None => []
  }

  /** `MemoryMcaIOFactory.openReader`: a reader over the stored bytes (none
      for a missing file), positioned by the coordinates in the file name. */
  method OpenReader(fs: FileSystem, path: string) returns (r: Result<McaReader, FactoryError>)
    ensures fs.RealDisk? ==> r == Err(RequiresMemoryFS)
    ensures fs.Memory? ==> (r.Ok? <==> ParseRegionName(FileName(path)).Ok?)
    ensures fs.Memory? && r.Err? ==> r == Err(BadFileName(ParseRegionName(FileName(path)).error))
    ensures r.Ok? ==> (fs.Memory? && fresh(r.value) && fresh(r.value.file) && r.value.Valid()
      && r.value.offsets.None? && r.value.path == FileName(path)
      && r.value.file.data == BytesOrEmpty(fs.mem.Read(path))
      && (r.value.xPos, r.value.zPos) == ParseRegionName(FileName(path)).value)
  {
    if fs.RealDisk? {
      return Err(RequiresMemoryFS);
    }
    var bytes := BytesOrEmpty(fs.mem.Read(path));
    var reader := OpenFromBytes(FileName(path), bytes);
    if reader.Err? {
      return Err(BadFileName(reader.error));
    }
    r := Ok(reader.value);
  }

  /** `MemoryMcaIOFactory.createWriter`: a fresh in-memory writer for `path`. */
  method CreateWriter(fs: FileSystem, path: string) returns (r: Result<MemoryMcaWriter, FactoryError>)
    ensures fs.RealDisk? ==> r == Err(RequiresMemoryFS)
    ensures fs.Memory? ==> (r.Ok? && fresh(r.value) && r.value.Valid() && r.value.writes == []
      && r.value.mem == fs.mem && r.value.path == path)
  {
    if fs.RealDisk? {
      return Err(RequiresMemoryFS);
    }
    var w := new MemoryMcaWriter(fs.mem, path);
    r := Ok(w);
  }
}
