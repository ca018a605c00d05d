/** The region file both writers produce (McaWriter.kt, McaIOFactory.kt):
    the record of every `writeEntry` call is appended at the current data
    offset and zero-padded to a whole number of 4096-byte sectors; the slot
    it was written for takes that offset, the padded size and the entry's
    modification time; `finalizeFile` puts the 4096-byte location table and
    the 4096-byte timestamp table in front.  This module defines that image
    as a function of the sequence of writes and proves that the reader
    decodes it back. */
module RegionImage {
  import opened Bytes
  import opened Wrappers
  import opened Entry
  import opened RandomAccess
  import opened Reader

  /** One `writeEntry` call: the entry's slot, its modification time and
      its serialized record. */
  datatype Put = Put(index: SlotIndex, modified: int32, bytes: seq<byte>)

  /** `(4096 - (written % 4096)) % 4096`. */
  function Pad(n: nat): (r: nat)
    ensures r < 4096 && (n + r) % 4096 == 0
  {
    (4096 - n % 4096) % 4096
  }

  /** A record followed by its padding. */
  function Padded(b: seq<byte>): (r: seq<byte>)
    ensures |r| % 4096 == 0 && |b| <= |r| < |b| + 4096
    ensures r[..|b|] == b
    ensures forall k :: |b| <= k < |r| ==> r[k] == 0
  {
    b + Zeros(Pad(|b|))
  }

  /** The data area after the writes `ws`, in order. */
  function Body(ws: seq<Put>): (r: seq<byte>)
    ensures |r| % 4096 == 0
  {
    if ws == [] then []
    else
      var pre, rec := Body(ws[..|ws| - 1]), Padded(ws[|ws| - 1].bytes);
      SumAligned(|pre|, |rec|);
      pre + rec
  }

  lemma SumAligned(a: int, b: int)
    requires a % 4096 == 0 && b % 4096 == 0
    ensures (a + b) % 4096 == 0
  {
    assert a + b == 4096 * (a / 4096 + b / 4096);
  }

  /** Three `IntArray(1024)`. */
  function EmptyTables(): (t: Tables)
    ensures t.Full()
  {
    Tables(seq(1024, _ => 0), seq(1024, _ => 0), seq(1024, _ => 0))
  }

  /** The writer's three arrays after the writes `ws`: each write sets its
      slot's offset to the data offset it started at, its size to the padded
      record length (both `toInt()` of the exact value) and its timestamp. */
  function TablesAfter(ws: seq<Put>): (t: Tables)
    ensures t.Full()
  {
    if ws == [] then EmptyTables()
    else
      var pre := ws[..|ws| - 1];
      var w := ws[|ws| - 1];
      var t := TablesAfter(pre);
      Tables(t.offsets[w.index := ToInt32(8192 + |Body(pre)|)],
             t.sizes[w.index := ToInt32(|Padded(w.bytes)|)],
             t.timestamps[w.index := w.modified])
  }

  /** `(offSectors shl 8) or (sizeSectors and 0xFF)` in 32-bit arithmetic,
      with Kotlin's truncating `/ 4096`.  The low byte of the shifted value is
      zero, so the `or` is an addition before the truncation to 32 bits. */
  function LocWord(off: int32, size: int32): int32
  {
    ToInt32(TruncDiv(off, 4096) * 256 + TruncDiv(size, 4096) % 256)
  }

  /** The location word of every slot. */
  function LocWords(offsets: seq<int32>, sizes: seq<int32>): (r: seq<int32>)
    requires |offsets| == 1024 && |sizes| == 1024
    ensures |r| == 1024
  {
    seq(1024, i requires 0 <= i < 1024 => LocWord(offsets[i], sizes[i]))
  }

  /** `putInt` of each word in turn, big-endian. */
  function TableBytes(words: seq<int32>): (r: seq<byte>)
    ensures |r| == 4 * |words|
  {
    seq(4 * |words|, k requires 0 <= k < 4 * |words| => Int32ToBE(words[k / 4])[k % 4])
  }

  /** The file `finalizeFile` leaves: location table, timestamp table, data. */
  function Image(ws: seq<Put>): (r: seq<byte>)
    ensures |r| == 8192 + |Body(ws)|
    ensures r[8192..] == Body(ws)
  {
    var t := TablesAfter(ws);
    TableBytes(LocWords(t.offsets, t.sizes)) + TableBytes(t.timestamps) + Body(ws)
  }

  // ---------------------------------------------------------------------
  // Which write a slot remembers.

  /** The position of the last write to slot `i`, if any. */
  function LastPut(ws: seq<Put>, i: SlotIndex): (r: Option<nat>)
    ensures r.None? ==> forall j :: 0 <= j < |ws| ==> ws[j].index != i
    ensures r.Some? ==> (r.value < |ws| && ws[r.value].index == i
      && forall j :: r.value < j < |ws| ==> ws[j].index != i)
  {
    if ws == [] then None
    else if ws[|ws| - 1].index == i then Some(|ws| - 1)
    else LastPut(ws[..|ws| - 1], i)
  }

  /** A slot no write touched is all zeros; otherwise it holds the offset,
      padded size and timestamp of the last write to it. */
  lemma SlotAfter(ws: seq<Put>, i: SlotIndex)
    ensures var t := TablesAfter(ws);
      LastPut(ws, i).None? ==> t.offsets[i] == 0 && t.sizes[i] == 0 && t.timestamps[i] == 0
    ensures var t := TablesAfter(ws);
      LastPut(ws, i).Some? ==> (
        var k := LastPut(ws, i).value;
        && t.offsets[i] == ToInt32(8192 + |Body(ws[..k])|)
        && t.sizes[i] == ToInt32(|Padded(ws[k].bytes)|)
        && t.timestamps[i] == ws[k].modified)
  {
    if LastPut(ws, i).None? {
      UntouchedSlot(ws, i);
    } else {
      LastSlot(ws, i, LastPut(ws, i).value);
    }
  }

  lemma {:induction false} UntouchedSlot(ws: seq<Put>, i: SlotIndex)
    requires LastPut(ws, i).None?
    ensures var t := TablesAfter(ws); t.offsets[i] == 0 && t.sizes[i] == 0 && t.timestamps[i] == 0
  {
    if ws != [] {
      StepSlot(ws, i);
      UntouchedSlot(ws[..|ws| - 1], i);
    }
  }

  lemma {:induction false} LastSlot(ws: seq<Put>, i: SlotIndex, k: nat)
    requires LastPut(ws, i) == Some(k)
    ensures var t := TablesAfter(ws);
      && t.offsets[i] == ToInt32(8192 + |Body(ws[..k])|)
      && t.sizes[i] == ToInt32(|Padded(ws[k].bytes)|)
      && t.timestamps[i] == ws[k].modified
  {
    var pre := ws[..|ws| - 1];
    StepSlot(ws, i);
    if ws[|ws| - 1].index == i {
      assert k == |ws| - 1 && ws[..k] == pre;
    } else {
      assert LastPut(pre, i) == Some(k);
      LastSlot(pre, i, k);
      assert pre[..k] == ws[..k] && pre[k] == ws[k];
    }
  }

  /** One write changes its own slot and no other. */
  lemma StepSlot(ws: seq<Put>, i: SlotIndex)
    requires ws != []
    ensures var pre, w := ws[..|ws| - 1], ws[|ws| - 1];
      var t0, t := TablesAfter(pre), TablesAfter(ws);
      && (w.index == i ==> t.offsets[i] == ToInt32(8192 + |Body(pre)|)
                           && t.sizes[i] == ToInt32(|Padded(w.bytes)|) && t.timestamps[i] == w.modified)
      && (w.index != i ==> t.offsets[i] == t0.offsets[i] && t.sizes[i] == t0.sizes[i]
                           && t.timestamps[i] == t0.timestamps[i])
  {
  }

  /** The data area of the first `n` writes is a prefix of the data area of
      all of them. */
  lemma {:induction false} BodyPrefix(ws: seq<Put>, n: nat)
    requires n <= |ws|
    ensures |Body(ws[..n])| <= |Body(ws)|
    ensures Body(ws)[..|Body(ws[..n])|] == Body(ws[..n])
  {
    if n < |ws| {
      var pre := ws[..|ws| - 1];
      BodyPrefix(pre, n);
      assert pre[..n] == ws[..n];
      assert Body(ws) == Body(pre) + Padded(ws[|ws| - 1].bytes);
    } else {
      assert ws[..n] == ws;
    }
  }

  /** Write `k`'s record sits at `|Body(ws[..k])|` in the data area, followed
      by its padding. */
  lemma {:induction false} RecordInBody(ws: seq<Put>, k: nat)
    requires k < |ws|
    ensures |Body(ws[..k])| + |Padded(ws[k].bytes)| <= |Body(ws)|
    ensures var p := |Body(ws[..k])|;
      Body(ws)[p..p + |ws[k].bytes|] == ws[k].bytes
  {
    BodyPrefix(ws, k + 1);
    var pre := ws[..k + 1];
    assert pre[..k] == ws[..k];
    assert Body(pre) == Body(ws[..k]) + Padded(ws[k].bytes);
    var p := |Body(ws[..k])|;
    assert Body(ws)[p..p + |ws[k].bytes|] == Body(pre)[p..p + |ws[k].bytes|];
  }

  // ---------------------------------------------------------------------
  // The tables read back.

  /** A slot value the location word can carry: a non-negative sector
      offset that fits an `Int`, and at most 255 sectors. */
  predicate SlotFits(off: int, size: int)
  {
    0 <= off < TWO_31 && off % 4096 == 0 && 0 <= size <= 255 * 4096 && size % 4096 == 0
  }

  lemma {:induction false} TableWord(words: seq<int32>, i: nat)
    requires i < |words|
    ensures TableBytes(words)[4 * i..4 * i + 4] == Int32ToBE(words[i])
  {
    var b := TableBytes(words);
    forall j | 0 <= j < 4
      ensures b[4 * i + j] == Int32ToBE(words[i])[j]
    {
      assert (4 * i + j) / 4 == i && (4 * i + j) % 4 == j;
    }
  }

  lemma DivMod256(a: nat, b: nat)
    requires b < 256
    ensures (a * 256 + b) / 256 == a && (a * 256 + b) % 256 == b
  {
  }

  /** The location word of a slot that fits decodes to the same offset and
      size. */
  lemma LocWordRoundTrip(off: int32, size: int32)
    requires SlotFits(off, size)
    ensures OffsetOfWord(Int32ToBE(LocWord(off, size))) == off
    ensures SizeOfWord(Int32ToBE(LocWord(off, size))) == size
  {
    var a, b := off / 4096, size / 4096;
    LocWordValue(off, size);
    var w := LocWord(off, size);
    var v := BE(Int32ToBE(w));
    UnsignedWord(w);
    DivMod256(a, b);
    assert v / 256 == a && v % 256 == b;
    assert (v / 256) * 4096 == off && (v % 256) * 4096 == size;
  }

  lemma UnsignedWord(w: int)
    requires 0 <= w < TWO_31
    ensures BE(Int32ToBE(w)) == w
  {
    BEOfToBE(w, 4);
  }

  /** For a slot that fits, the location word is the plain sum, without
      truncation. */
  lemma LocWordValue(off: int32, size: int32)
    requires SlotFits(off, size)
    ensures LocWord(off, size) == (off / 4096) * 256 + size / 4096
    ensures (off / 4096) * 4096 == off && (size / 4096) * 4096 == size && size / 4096 < 256
  {
    var a, b := off / 4096, size / 4096;
    assert a < 0x8_0000;
    assert 0 <= a * 256 + b < TWO_31;
  }

  /** `getInt` of each word written by `putInt`. */
  lemma {:induction false} StampRoundTrip(ts: seq<int32>)
    requires |ts| == 1024
    ensures StampTable(TableBytes(ts)) == ts
  {
    forall i | 0 <= i < 1024
      ensures StampTable(TableBytes(ts))[i] == ts[i]
    {
      TableWord(ts, i);
      Int32BERoundTrip(ts[i]);
    }
  }

  lemma {:induction false} LocRoundTrip(t: Tables)
    requires t.Full()
    requires forall i :: 0 <= i < 1024 ==> SlotFits(t.offsets[i], t.sizes[i])
    ensures OffsetTable(TableBytes(LocWords(t.offsets, t.sizes))) == t.offsets
    ensures SizeTable(TableBytes(LocWords(t.offsets, t.sizes))) == t.sizes
  {
    var loc := TableBytes(LocWords(t.offsets, t.sizes));
    forall i | 0 <= i < 1024
      ensures OffsetTable(loc)[i] == t.offsets[i] && SizeTable(loc)[i] == t.sizes[i]
    {
      TableWord(LocWords(t.offsets, t.sizes), i);
      LocWordRoundTrip(t.offsets[i], t.sizes[i]);
    }
  }

  /** The writes a region file can hold: no record needs more than 255
      sectors, and the whole image stays below the maximum array size. */
  predicate Representable(ws: seq<Put>)
  {
    && (forall k :: 0 <= k < |ws| ==> |Padded(ws[k].bytes)| <= 255 * 4096)
    && 8192 + |Body(ws)| <= INT32_MAX
  }

  lemma SectorAligned(a: int)
    requires a % 4096 == 0
    ensures (8192 + a) % 4096 == 0
  {
    assert 8192 + a == 4096 * (2 + a / 4096);
  }

  lemma {:induction false} SlotsFit(ws: seq<Put>, i: SlotIndex)
    requires Representable(ws)
    ensures SlotFits(TablesAfter(ws).offsets[i], TablesAfter(ws).sizes[i])
  {
    SlotAfter(ws, i);
    var t := TablesAfter(ws);
    if LastPut(ws, i).Some? {
      var k := LastPut(ws, i).value;
      RecordInBody(ws, k);
      var off, size := 8192 + |Body(ws[..k])|, |Padded(ws[k].bytes)|;
      assert off + size <= INT32_MAX;
      assert t.offsets[i] == off && t.sizes[i] == size;
      SectorAligned(|Body(ws[..k])|);
    }
  }

  /** `readHeader` on the finished file gives back the writer's three
      arrays. */
  lemma {:induction false} ImageHeader(ws: seq<Put>)
    requires Representable(ws)
    ensures HeaderOf(Image(ws)) == Ok(TablesAfter(ws))
  {
    var t := TablesAfter(ws);
    var img := Image(ws);
    forall i | 0 <= i < 1024
      ensures SlotFits(t.offsets[i], t.sizes[i])
    {
      SlotsFit(ws, i);
    }
    LocRoundTrip(t);
    StampRoundTrip(t.timestamps);
    assert img[..4096] == TableBytes(LocWords(t.offsets, t.sizes));
    assert img[4096..8192] == TableBytes(t.timestamps);
  }

  /** An unwritten writer leaves 8192 zero bytes: every slot empty. */
  lemma EmptyImage()
    ensures Image([]) == Zeros(8192)
  {
    var t := EmptyTables();
    var lw := LocWords(t.offsets, t.sizes);
    forall i | 0 <= i < 1024
      ensures lw[i] == 0
    {
      assert lw[i] == LocWord(0, 0);
    }
    ZeroTable(lw);
    ZeroTable(t.timestamps);
    assert TablesAfter([]) == t;
  }

  lemma {:induction false} ToBEZero(n: nat)
    ensures ToBE(0, n) == Zeros(n)
  {
    if n > 0 {
      ToBEZero(n - 1);
    }
  }

  lemma ZeroTable(words: seq<int32>)
    requires forall i :: 0 <= i < |words| ==> words[i] == 0
    ensures TableBytes(words) == Zeros(4 * |words|)
  {
    ToBEZero(4);
  }

  // ---------------------------------------------------------------------
  // The records read back.

  /** A serialized record that reads back whole from its own first byte. */
  predicate SelfContained(b: seq<byte>)
  {
    SerializedAt(b, 0) == Ok(b)
  }

  lemma {:induction false} NameLocal(data: seq<byte>, s: seq<byte>, p: nat, k: int)
    requires p + |s| <= |data| && data[p..p + |s|] == s
    requires NameAt(s, k).Ok?
    ensures NameAt(data, p + k) == Ok((NameAt(s, k).value.0, p + NameAt(s, k).value.1))
  {
    WindowSlice(data, s, p, k, k + 2);
    var q := k + 2 + BE(s[k..k + 2]);
    WindowSlice(data, s, p, k + 2, q);
  }

  lemma {:induction false} WindowSlice(data: seq<byte>, s: seq<byte>, p: nat, a: int, b: int)
    requires p + |s| <= |data| && data[p..p + |s|] == s
    requires 0 <= a <= b <= |s|
    ensures data[p + a..p + b] == s[a..b]
  {
    forall j | a <= j < b
      ensures data[p + j] == s[j]
    {
      assert data[p..p + |s|][j] == data[p + j];
    }
  }

  lemma {:induction false} HeaderLocal(data: seq<byte>, s: seq<byte>, p: nat)
    requires p + |s| <= |data| && data[p..p + |s|] == s
    requires HeaderAt(s, 0).Ok?
    ensures HeaderAt(data, p).Ok? && HeaderAt(data, p).value.0 == HeaderAt(s, 0).value.0
  {
    assert data[p..p + 4] == s[0..4];
    assert data[p + 4] == s[4];
    if HeaderAt(s, 0).value.0.compression == CUSTOM {
      NameLocal(data, s, p, 5);
    }
  }

  /** A self-contained record copied into a larger buffer at an offset that
      fits an `Int` reads back from there. */
  lemma {:induction false} SerializedLocal(data: seq<byte>, s: seq<byte>, p: nat)
    requires SelfContained(s)
    requires p < TWO_31 && p + |s| <= |data| && data[p..p + |s|] == s
    ensures SerializedAt(data, p) == Ok(s)
  {
    HeaderLocal(data, s, p);
  }

  /** Reading the finished file: the occupied slots are exactly the slots
      that were written, and each one's record, offset, length and
      timestamp are those of the last write to it. */
  lemma {:induction false} ImageSlot(ws: seq<Put>, i: SlotIndex)
    requires Representable(ws)
    requires forall k :: 0 <= k < |ws| ==> SelfContained(ws[k].bytes)
    ensures var t := TablesAfter(ws);
      && (Occupied(t, i) <==> LastPut(ws, i).Some?)
      && (Occupied(t, i) ==>
            var k := LastPut(ws, i).value;
            && SerializedAt(Image(ws), t.offsets[i]) == Ok(ws[k].bytes)
            && t.sizes[i] == |Padded(ws[k].bytes)|
            && t.timestamps[i] == ws[k].modified)
  {
    SlotAfter(ws, i);
    var t := TablesAfter(ws);
    if LastPut(ws, i).Some? {
      var k := LastPut(ws, i).value;
      RecordReadsBack(ws, k);
      var off, size := 8192 + |Body(ws[..k])|, |Padded(ws[k].bytes)|;
      assert t.offsets[i] == off && t.sizes[i] == size;
    }
  }

  /** Write `k`'s record reads back from the offset it was written at. */
  lemma {:induction false} RecordReadsBack(ws: seq<Put>, k: nat)
    requires k < |ws| && Representable(ws) && SelfContained(ws[k].bytes)
    ensures |ws[k].bytes| >= 5
    ensures 8192 + |Body(ws[..k])| + |Padded(ws[k].bytes)| <= INT32_MAX
    ensures SerializedAt(Image(ws), 8192 + |Body(ws[..k])|) == Ok(ws[k].bytes)
  {
    RecordInBody(ws, k);
    RecordInData(Image(ws), Body(ws), |Body(ws[..k])|, ws[k].bytes);
  }

  /** The same, for any buffer whose data area is `body`. */
  lemma {:induction false} RecordInData(img: seq<byte>, body: seq<byte>, q: nat, b: seq<byte>)
    requires |img| == 8192 + |body| <= INT32_MAX && img[8192..] == body
    requires q + |b| <= |body| && body[q..q + |b|] == b
    requires SelfContained(b)
    ensures |b| >= 5
    ensures SerializedAt(img, 8192 + q) == Ok(b)
  {
    var p := 8192 + q;
    assert img[p..p + |b|] == img[8192..][q..q + |b|];
    SerializedLocal(img, b, p);
  }

  /** The reader's `entries()` on the finished file: one entry per written
      slot, carrying the last timestamp written there and reading back the
      last record written there. */
  lemma {:induction false} ImageEntries(file: MemoryAccess, ws: seq<Put>, x: int32, z: int32)
    requires file.data == Image(ws)
    requires Representable(ws)
    requires forall k :: 0 <= k < |ws| ==> SelfContained(ws[k].bytes)
    ensures HeaderOf(file.data) == Ok(TablesAfter(ws))
    ensures var es := EntriesOf(file, TablesAfter(ws), x, z);
      && (forall i: SlotIndex :: (exists e :: e in es && e.index == i) <==> LastPut(ws, i).Some?)
      && (forall e :: e in es ==>
            && LastPut(ws, e.index).Some?
            && SerializedAt(file.data, e.start) == Ok(ws[LastPut(ws, e.index).value].bytes)
            && e.modified == ws[LastPut(ws, e.index).value].modified)
  {
    ImageHeader(ws);
    var t := TablesAfter(ws);
    EntriesAreOccupiedSlots(file, t, x, z, 1024);
    var es := EntriesOf(file, t, x, z);
    forall i: SlotIndex
      ensures (exists e :: e in es && e.index == i) <==> LastPut(ws, i).Some?
    {
      ImageSlot(ws, i);
      if Occupied(t, i) {
        assert EntryAt(file, t, x, z, i) in es;
      }
    }
    forall e | e in es
      ensures LastPut(ws, e.index).Some?
      ensures SerializedAt(file.data, e.start) == Ok(ws[LastPut(ws, e.index).value].bytes)
      ensures e.modified == ws[LastPut(ws, e.index).value].modified
    {
      ImageOfEntry(file, ws, x, z, e);
    }
  }

  lemma {:induction false} ImageOfEntry(file: MemoryAccess, ws: seq<Put>, x: int32, z: int32, e: McaEntry)
    requires file.data == Image(ws)
    requires Representable(ws)
    requires forall k :: 0 <= k < |ws| ==> SelfContained(ws[k].bytes)
    requires e in EntriesOf(file, TablesAfter(ws), x, z)
    ensures && LastPut(ws, e.index).Some?
            && SerializedAt(file.data, e.start) == Ok(ws[LastPut(ws, e.index).value].bytes)
            && e.modified == ws[LastPut(ws, e.index).value].modified
  {
    var t := TablesAfter(ws);
    EntriesAreOccupiedSlots(file, t, x, z, 1024);
    var n :| 0 <= n < |EntriesOf(file, t, x, z)| && EntriesOf(file, t, x, z)[n] == e;
    assert e == EntryAt(file, t, x, z, e.index) && Occupied(t, e.index);
    ImageSlot(ws, e.index);
  }
}
