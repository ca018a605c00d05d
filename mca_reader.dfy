/** The region-file reader (McaReader.kt): the `r.<x>.<z>.mca` file-name
    pattern, the two 4096-byte header tables and the list of occupied slots. */
module Reader {
  import opened Bytes
  import opened Wrappers
  import opened Decimal
  import opened RandomAccess
  import opened Entry

  // ---------------------------------------------------------------------
  // The file name.

  datatype NameError =
    | InvalidFileName   // `require(m.find())`
    | NumberFormat      // `toInt()` of a group that does not fit in an `Int`

  predicate EndsWith(s: string, suffix: string)
  {
    |suffix| <= |s| && s[|s| - |suffix|..] == suffix
  }

  /** The single-character line terminators of `java.util.regex`. */
  predicate IsLineTerminator(ch: char)
  {
    ch == '\n' || ch == '\r' || ch == '\U{85}' || ch == '\U{2028}' || ch == '\U{2029}'
  }

  /** What `$` accepts after the match: the end of the input, or a line
      terminator (one character, or `\r\n`) that ends the input. */
  predicate IsFinalTerminator(t: string)
  {
    t == "" || t == "\r\n" || (|t| == 1 && IsLineTerminator(t[0]))
  }

  /** The path without its final `.mca` and the terminator `$` allows after it. */
  function Stem(path: string): (r: Option<string>)
    ensures r.Some? ==> var n := |r.value|;
      && n + 4 <= |path| && path[..n] == r.value && path[n..n + 4] == ".mca"
      && IsFinalTerminator(path[n + 4..])
  {
    if EndsWith(path, ".mca") then
      var n := |path| - 4;
      assert path[n..n + 4] == path[n..] && path[n + 4..] == "";
      Some(path[..n])
    else if |path| >= 5 && IsLineTerminator(path[|path| - 1]) && path[|path| - 5..|path| - 1] == ".mca" then
      var n := |path| - 5;
      assert path[n + 4..] == [path[|path| - 1]];
      Some(path[..n])
    else if EndsWith(path, ".mca\r\n") then
      var n := |path| - 6;
      var t := path[n..];
      assert t == ".mca\r\n";
      assert path[n..n + 4] == t[..4] == ".mca";
      assert path[n + 4..] == t[4..] == "\r\n";
      Some(path[..n])
    else None
  }

  /** The number of decimal digits at the end of `s`. */
  function TrailingDigits(s: string): (k: nat)
    ensures k <= |s|
  {
    if s != [] && IsDigit(s[|s| - 1]) then TrailingDigits(s[..|s| - 1]) + 1 else 0
  }

  /** The trailing run is all digits and is preceded by a non-digit. */
  lemma {:induction false} TrailingDigitsRun(s: string)
    ensures var k := TrailingDigits(s);
      AllDigits(s[|s| - k..]) && (k < |s| ==> !IsDigit(s[|s| - k - 1]))
  {
    if s != [] && IsDigit(s[|s| - 1]) {
      var p := s[..|s| - 1];
      TrailingDigitsRun(p);
      var k := TrailingDigits(p);
      assert TrailingDigits(s) == k + 1;
      var run, prev := s[|s| - (k + 1)..], p[|p| - k..];
      forall i | 0 <= i < |run|
        ensures IsDigit(run[i])
      {
        if i < k {
          assert run[i] == prev[i];
        }
      }
      if k + 1 < |s| {
        var j := |s| - k - 2;
        assert j == |p| - k - 1 && p[j] == s[j];
      }
    }
  }

  /** Where the group `(-?\d+)` that ends `s` starts: its digits are the
      longest digit run at the end, with the `-` before them if there is one. */
  function TrailingGroup(s: string): (r: Option<nat>)
    ensures r.Some? ==> r.value < |s| && IsSignedDigits(s[r.value..])
  {
    var k := TrailingDigits(s);
    TrailingDigitsRun(s);
    if k == 0 then None
    else if |s| - k > 0 && s[|s| - k - 1] == '-' then
      assert s[|s| - k - 1..][1..] == s[|s| - k..];
      Some(|s| - k - 1)
    else Some(|s| - k)
  }

  /** `FILENAME_RE.matcher(path).find()` and the two `toInt()` calls of
      `open`/`openFromBytes`.  The pattern ends in `$`, so the only possible
      match is a suffix of the path; it is recognised from the right. */
  function ParseRegionName(path: string): Result<(int32, int32), NameError>
  {
    match Stem(path)
    case None => Err(InvalidFileName)
    case Some(s) => ParseStem(s)
  }

  /** `r\.(-?\d+)\.(-?\d+)` at the end of `s`: the second group, then a dot. */
  function ParseStem(s: string): Result<(int32, int32), NameError>
  {
    match TrailingGroup(s)
    case None => Err(InvalidFileName)
    case Some(j) =>
      if j == 0 || s[j - 1] != '.' then Err(InvalidFileName)
      else ParseHead(s[..j - 1], s[j..])
  }

  /** `r\.(-?\d+)` at the end of `u`, the second group `zs` already taken. */
  function ParseHead(u: string, zs: string): Result<(int32, int32), NameError>
    requires IsSignedDigits(zs)
  {
    match TrailingGroup(u)
    case None => Err(InvalidFileName)
    case Some(i) =>
      if i < 2 || u[i - 2..i] != "r." then Err(InvalidFileName)
      else ParseGroups(u[i..], zs)
  }

  /** `m.group(1).toInt()` and `m.group(2).toInt()`. */
  function ParseGroups(xs: string, zs: string): Result<(int32, int32), NameError>
    requires IsSignedDigits(xs) && IsSignedDigits(zs)
  {
    match (ParseInt(xs), ParseInt(zs))
    case (Some(x), Some(z)) => Ok((x, z))
    case _ => Err(NumberFormat)
  }

  /** The file name a region at `(x, z)` is stored under. */
  function RegionFileName(x: int, z: int): string
  {
    "r." + ShowInt(x) + "." + ShowInt(z) + ".mca"
  }

  lemma {:induction false} TrailingDigitsAppend(u: string, d: string)
    requires AllDigits(d)
    requires u == [] || !IsDigit(u[|u| - 1])
    ensures TrailingDigits(u + d) == |d|
    decreases |d|
  {
    if d != [] {
      var ud := u + d;
      assert ud[..|ud| - 1] == u + d[..|d| - 1];
      TrailingDigitsAppend(u, d[..|d| - 1]);
    } else {
      assert u + d == u;
    }
  }

  /** The group that ends `u + g` is `g` itself when `g` is `-?\d+` and `u`
      ends in neither a digit nor a `-`. */
  lemma TrailingGroupAppend(u: string, g: string)
    requires IsSignedDigits(g)
    requires u != [] && !IsDigit(u[|u| - 1]) && u[|u| - 1] != '-'
    ensures TrailingGroup(u + g) == Some(|u|)
  {
    var s := u + g;
    if g[0] == '-' {
      assert s == (u + "-") + g[1..];
      TrailingDigitsAppend(u + "-", g[1..]);
    } else {
      TrailingDigitsAppend(u, g);
    }
  }

  lemma StemOfMca(s: string)
    ensures Stem(s + ".mca") == Some(s)
  {
    var p := s + ".mca";
    assert p[|p| - 4..] == ".mca";
    assert p[..|p| - 4] == s;
  }

  /** Every region coordinate pair survives being written into a file name
      and parsed back, whatever directory precedes the name. */
  lemma ParseRegionFileName(prefix: string, x: int32, z: int32)
    ensures ParseRegionName(prefix + RegionFileName(x, z)) == Ok((x, z))
  {
    var sx, sz := ShowInt(x), ShowInt(z);
    var v := prefix + "r.";
    var u := v + sx;
    var s := (u + ".") + sz;
    StemOfRegionFileName(prefix, x, z);
    ParseStemSplit(u, sz);
    ParseHeadSplit(v, sx, sz);
    ParseShow(x);
    ParseShow(z);
  }

  lemma StemOfRegionFileName(prefix: string, x: int32, z: int32)
    ensures Stem(prefix + RegionFileName(x, z)) == Some(prefix + "r." + ShowInt(x) + "." + ShowInt(z))
  {
    var sx, sz := ShowInt(x), ShowInt(z);
    assert RegionFileName(x, z) == "r." + sx + "." + sz + ".mca";
    NameAssoc(prefix, sx, sz);
    StemOfMca(prefix + "r." + sx + "." + sz);
  }

  lemma NameAssoc(prefix: string, sx: string, sz: string)
    ensures prefix + ("r." + sx + "." + sz + ".mca") == (prefix + "r." + sx + "." + sz) + ".mca"
  {
  }

  lemma ParseStemSplit(u: string, sz: string)
    requires IsSignedDigits(sz)
    ensures ParseStem(u + "." + sz) == ParseHead(u, sz)
  {
    var s := u + "." + sz;
    TrailingGroupAppend(u + ".", sz);
    assert s[|u|] == '.' && s[..|u|] == u && s[|u| + 1..] == sz;
  }

  lemma ParseHeadSplit(v: string, sx: string, sz: string)
    requires IsSignedDigits(sx) && IsSignedDigits(sz) && |v| >= 2 && v[|v| - 2..] == "r."
    ensures ParseHead(v + sx, sz) == ParseGroups(sx, sz)
  {
    var u := v + sx;
    TrailingGroupAppend(v, sx);
    assert u[|v| - 2..|v|] == "r." && u[|v|..] == sx;
  }

  lemma ParsedStem(s: string) returns (u: string, zs: string)
    requires ParseStem(s).Ok?
    ensures s == u + "." + zs && IsSignedDigits(zs) && ParseStem(s) == ParseHead(u, zs)
  {
    var j := TrailingGroup(s).value;
    u, zs := s[..j - 1], s[j..];
    assert s == u + "." + zs;
  }

  lemma ParsedHead(u: string, zs: string) returns (prefix: string, xs: string)
    requires IsSignedDigits(zs) && ParseHead(u, zs).Ok?
    ensures u == prefix + "r." + xs && IsSignedDigits(xs) && ParseHead(u, zs) == ParseGroups(xs, zs)
  {
    var i := TrailingGroup(u).value;
    prefix, xs := u[..i - 2], u[i..];
    assert u == prefix + "r." + xs;
  }

  /** A name the parser accepts has the pattern's shape at its end, and the
      coordinates are the two captured groups read as `Int`s. */
  lemma ParsedShape(path: string) returns (prefix: string, a: string, b: string, t: string)
    requires ParseRegionName(path).Ok?
    ensures path == prefix + "r." + a + "." + b + ".mca" + t
    ensures IsFinalTerminator(t) && IsSignedDigits(a) && IsSignedDigits(b)
    ensures ParseInt(a) == Some(ParseRegionName(path).value.0)
    ensures ParseInt(b) == Some(ParseRegionName(path).value.1)
  {
    var s := Stem(path).value;
    t := path[|s| + 4..];
    assert path == s + ".mca" + t;
    var u;
    u, b := ParsedStem(s);
    prefix, a := ParsedHead(u, b);
  }

  // ---------------------------------------------------------------------
  // The header tables.

  /** The three tables `readHeader` fills, one value per slot. */
  datatype Tables = Tables(offsets: seq<int32>, sizes: seq<int32>, timestamps: seq<int32>)
  {
    ghost predicate Full()
    {
      |offsets| == 1024 && |sizes| == 1024 && |timestamps| == 1024
    }
  }

  /** `(v ushr 8) * 4096` in 32-bit arithmetic, for the location word `w`. */
  function OffsetOfWord(w: seq<byte>): int32
    requires |w| == 4
  {
    ToInt32((BE(w) / 256) * 4096)
  }

  /** `(v and 0xFF) * 4096`. */
  function SizeOfWord(w: seq<byte>): int32
    requires |w| == 4
  {
    (BE(w) % 256) * 4096
  }

  /** Slot offsets of a 4096-byte location table. */
  function OffsetTable(loc: seq<byte>): (r: seq<int32>)
    requires |loc| == 4096
    ensures |r| == 1024
  {
    seq(1024, i requires 0 <= i < 1024 => OffsetOfWord(loc[4 * i..4 * i + 4]))
  }

  /** Slot sizes of a 4096-byte location table. */
  function SizeTable(loc: seq<byte>): (r: seq<int32>)
    requires |loc| == 4096
    ensures |r| == 1024
  {
    seq(1024, i requires 0 <= i < 1024 => SizeOfWord(loc[4 * i..4 * i + 4]))
  }

  /** The signed big-endian words of a 4096-byte timestamp table. */
  function StampTable(time: seq<byte>): (r: seq<int32>)
    requires |time| == 4096
    ensures |r| == 1024
  {
    seq(1024, i requires 0 <= i < 1024 => Int32BE(time[4 * i..4 * i + 4]))
  }

  /** The tables `readHeader` decodes from a buffer: the location table is
      its first 4096 bytes, the timestamp table the next 4096; a buffer
      shorter than the two tables fails. */
  function HeaderOf(data: seq<byte>): (r: Result<Tables, EntryError>)
    ensures r.Ok? ==> r.value.Full()
  {
    if |data| < 8192 then Err(ReadOutOfRange)
    else Ok(Tables(OffsetTable(data[..4096]), SizeTable(data[..4096]), StampTable(data[4096..8192])))
  }

  /** A slot is occupied when both its offset and its size are non-zero. */
  predicate Occupied(t: Tables, i: SlotIndex)
    requires t.Full()
  {
    t.offsets[i] != 0 && t.sizes[i] != 0
  }

  /** The entry the reader builds for slot `i`. */
  function EntryAt(file: MemoryAccess, t: Tables, x: int32, z: int32, i: SlotIndex): (e: McaEntry)
    requires t.Full()
    ensures e.index == i && e.file == file && e.regionX == x && e.regionZ == z
  {
    McaEntry(file, t.offsets[i], t.sizes[i], i, t.timestamps[i], x, z)
  }

  /** The entries of the occupied slots among the first `n`, in slot order. */
  function EntriesBelow(file: MemoryAccess, t: Tables, x: int32, z: int32, n: nat): seq<McaEntry>
    requires t.Full() && n <= 1024
  {
    if n == 0 then []
    else EntriesBelow(file, t, x, z, n - 1) + (if Occupied(t, n - 1) then [EntryAt(file, t, x, z, n - 1)] else [])
  }

  function EntriesOf(file: MemoryAccess, t: Tables, x: int32, z: int32): seq<McaEntry>
    requires t.Full()
  {
    EntriesBelow(file, t, x, z, 1024)
  }

  /** `entries()` lists exactly the occupied slots, each once, in ascending
      slot order, each entry carrying its slot's offset, size and timestamp
      and the reader's region coordinates. */
  lemma {:induction false} EntriesAreOccupiedSlots(file: MemoryAccess, t: Tables, x: int32, z: int32, n: nat)
    requires t.Full() && n <= 1024
    ensures var es := EntriesBelow(file, t, x, z, n);
      && (forall i: SlotIndex :: (i < n && Occupied(t, i)) <==> EntryAt(file, t, x, z, i) in es)
      && (forall k :: 0 <= k < |es| ==> es[k].index < n && Occupied(t, es[k].index) && es[k] == EntryAt(file, t, x, z, es[k].index))
      && (forall k, l :: 0 <= k < l < |es| ==> es[k].index < es[l].index)
  {
    if n > 0 {
      EntriesAreOccupiedSlots(file, t, x, z, n - 1);
    }
  }

  /** `get(i)`: the entry for slot `i`, `None` for an empty slot. */
  function GetOf(file: MemoryAccess, t: Tables, x: int32, z: int32, i: int): Result<Option<McaEntry>, EntryError>
    requires t.Full()
  {
    if !(0 <= i < 1024) then Err(IndexOutOfBounds(i))
    else if !Occupied(t, i) then Ok(None)
    else Ok(Some(EntryAt(file, t, x, z, i)))
  }

  /** `get(i)` is `None` exactly for the empty slots, and otherwise the element
      of `entries()` for slot `i`. */
  lemma GetAgreesWithEntries(file: MemoryAccess, t: Tables, x: int32, z: int32, i: SlotIndex)
    requires t.Full()
    ensures GetOf(file, t, x, z, i).Ok?
    ensures GetOf(file, t, x, z, i) == Ok(None) <==> !Occupied(t, i)
    ensures GetOf(file, t, x, z, i).value.Some? ==>
      var e := GetOf(file, t, x, z, i).value.value;
      e in EntriesOf(file, t, x, z) && e.index == i && e.modified == t.timestamps[i]
  {
    EntriesAreOccupiedSlots(file, t, x, z, 1024);
  }

  // ---------------------------------------------------------------------
  // The reader object.

  class McaReader {
    const file: MemoryAccess
    const path: string
    const xPos: int32
    const zPos: int32
    /** The cached tables; `None` until a header read succeeds. */
    var offsets: Option<seq<int32>>
    var sizes: Option<seq<int32>>
    var timestamps: Option<seq<int32>>

    /** The three caches are filled together, with the tables of `file`. */
    ghost predicate Valid()
      reads this
    {
      && (offsets.Some? <==> sizes.Some?)
      && (offsets.Some? <==> timestamps.Some?)
      && (offsets.Some? ==> HeaderOf(file.data) == Ok(Tables(offsets.value, sizes.value, timestamps.value)))
    }

    constructor (file: MemoryAccess, path: string, xPos: int32, zPos: int32)
      ensures Valid()
      ensures this.file == file && this.path == path && this.xPos == xPos && this.zPos == zPos
      ensures offsets.None?
    {
      this.file := file;
      this.path := path;
      this.xPos := xPos;
      this.zPos := zPos;
      offsets, sizes, timestamps := None, None, None;
    }

    /** `readHeader`: read both tables from the start of the file and decode
      every slot. */
    method ReadHeader() returns (r: Result<(), EntryError>)
      requires Valid()
      modifies this, file
      ensures Valid()
      ensures r.Ok? <==> HeaderOf(file.data).Ok?
      ensures r.Ok? ==> offsets.Some?
      ensures r.Err? ==> r.error == HeaderOf(file.data).error
      ensures r.Err? ==> offsets == old(offsets) && sizes == old(sizes) && timestamps == old(timestamps)
    {
      file.Seek(0);
      var loc := new byte[4096];
      var ok := file.ReadFully(loc);
      if !ok {
        return Err(ReadOutOfRange);
      }
      var time := new byte[4096];
      ok := file.ReadFully(time);
      if !ok {
        return Err(ReadOutOfRange);
      }
      assert loc[..] == file.data[..4096] && time[..] == file.data[4096..8192];
      var offs, sizesArr := DecodeLocations(loc);
      var ts := DecodeTimestamps(time);
      offsets := Some(offs[..]);
      sizes := Some(sizesArr[..]);
      timestamps := Some(ts[..]);
      r := Ok(());
    }

    /** The first loop of `readHeader`: offset and size of every slot. */
    static method DecodeLocations(loc: array<byte>) returns (offs: array<int32>, sizesArr: array<int32>)
      requires loc.Length == 4096
      ensures fresh(offs) && fresh(sizesArr)
      ensures offs[..] == OffsetTable(loc[..]) && sizesArr[..] == SizeTable(loc[..])
    {
      ghost var words := loc[..];
      ghost var offTable, sizeTable := OffsetTable(words), SizeTable(words);
      offs := new int32[1024];
      sizesArr := new int32[1024];
      for i := 0 to 1024
        invariant forall k :: 0 <= k < i ==> offs[k] == offTable[k]
        invariant forall k :: 0 <= k < i ==> sizesArr[k] == sizeTable[k]
      {
        var base := i * 4;
        var v := loc[base..base + 4];
        assert v == words[4 * i..4 * i + 4];
        offs[i] := OffsetOfWord(v);
        sizesArr[i] := SizeOfWord(v);
      }
    }

    /** The second loop of `readHeader`: the timestamp of every slot. */
    static method DecodeTimestamps(time: array<byte>) returns (ts: array<int32>)
      requires time.Length == 4096
      ensures fresh(ts)
      ensures ts[..] == StampTable(time[..])
    {
      ghost var words := time[..];
      ghost var stamps := StampTable(words);
      ts := new int32[1024];
      for i := 0 to 1024
        invariant forall k :: 0 <= k < i ==> ts[k] == stamps[k]
      {
        var base := i * 4;
        assert time[base..base + 4] == words[4 * i..4 * i + 4];
        ts[i] := Int32BE(time[base..base + 4]);
      }
    }

    /** `ensure`: the header is read at most once; once cached, the tables
      are reused and the cursor is not touched. */
    method Ensure() returns (r: Result<(), EntryError>)
      requires Valid()
      modifies this, file
      ensures Valid()
      ensures r.Ok? <==> HeaderOf(file.data).Ok?
      ensures r.Ok? ==> offsets.Some?
      ensures r.Err? ==> r.error == HeaderOf(file.data).error
      ensures old(offsets).Some? ==> (r.Ok? && offsets == old(offsets) && sizes == old(sizes)
        && timestamps == old(timestamps) && file.pos == old(file.pos))
      ensures r.Err? ==> offsets == old(offsets) && sizes == old(sizes) && timestamps == old(timestamps)
    {
      if offsets.None? {
        r := ReadHeader();
      } else {
        r := Ok(());
      }
    }

    /** `entries()`: one entry per occupied slot, in slot order. */
    method Entries() returns (r: Result<seq<McaEntry>, EntryError>)
      requires Valid()
      modifies this, file
      ensures Valid()
      ensures r.Ok? <==> HeaderOf(file.data).Ok?
      ensures r.Ok? ==> r.value == EntriesOf(file, HeaderOf(file.data).value, xPos, zPos)
    {
      var e := Ensure();
      if e.Err? {
        return Err(e.error);
      }
      var offs, sizesArr, ts := offsets.value, sizes.value, timestamps.value;
      ghost var t := Tables(offs, sizesArr, ts);
      var out: seq<McaEntry> := [];
      for i := 0 to 1024
        invariant out == EntriesBelow(file, t, xPos, zPos, i)
      {
        var off := offs[i];
        var size := sizesArr[i];
        var stamp := ts[i];
        if off == 0 || size == 0 {
          continue;
        }
        out := out + [McaEntry(file, off, size, i, stamp, xPos, zPos)];
      }
      r := Ok(out);
    }

    /** `get(index)`: an out-of-range index throws, an empty slot gives `None`. */
    method Get(index: int) returns (r: Result<Option<McaEntry>, EntryError>)
      requires Valid()
      modifies this, file
      ensures Valid()
      ensures HeaderOf(file.data).Err? ==> r == Err(HeaderOf(file.data).error)
      ensures HeaderOf(file.data).Ok? ==> r == GetOf(file, HeaderOf(file.data).value, xPos, zPos, index)
    {
      var e := Ensure();
      if e.Err? {
        return Err(e.error);
      }
      if !(0 <= index < 1024) {
        return Err(IndexOutOfBounds(index));
      }
      var off := offsets.value[index];
      var size := sizes.value[index];
      var stamp := timestamps.value[index];
      if off == 0 || size == 0 {
        return Ok(None);
      }
      r := Ok(Some(McaEntry(file, off, size, index, stamp, xPos, zPos)));
    }
  }

  /** `openFromBytes(path, bytes)`: a reader over an in-memory copy of a
      region file, positioned by the coordinates in its name. */
  method OpenFromBytes(path: string, bytes: seq<byte>) returns (r: Result<McaReader, NameError>)
    ensures r.Ok? <==> ParseRegionName(path).Ok?
    ensures r.Err? ==> r.error == ParseRegionName(path).error
    ensures r.Ok? ==> (fresh(r.value) && fresh(r.value.file) && r.value.Valid() && r.value.offsets.None?
      && r.value.file.data == bytes && r.value.path == path
      && (r.value.xPos, r.value.zPos) == ParseRegionName(path).value)
  {
    var name := ParseRegionName(path);
    if name.Err? {
      return Err(name.error);
    }
    var (x, z) := name.value;
    var access := new MemoryAccess(bytes);
    var reader := new McaReader(access, path, x, z);
    r := Ok(reader);
  }
}
