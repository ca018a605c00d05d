/** The per-dimension filter loop (DimensionProcessor.kt).

    For every `.mca` file of the dimension's `region` directory the loop
    opens a reader, lists the occupied slots and asks the retention patterns
    about each chunk.  A kept chunk's record is copied to a new region file
    under the target dimension, and the same slot of the `entities` and
    `poi` files of the same name is copied beside it; a chunk no pattern
    keeps is counted as removed.  Every chunk advances the shared processed
    counter, and progress events are throttled by count or by time.

    The model runs on values: the input dimension is its path, its region
    listing and the regular files of its two sibling directories; the clock
    is a parameter giving the `k`-th reading of `System.currentTimeMillis`;
    errors and events are the sequences the two callbacks receive; the
    written files are a map from path to contents. */
module DimensionProcessor {
  import opened Bytes
  import opened Wrappers
  import opened Codecs
  import opened RandomAccess
  import opened Entry
  import opened Reader
  import opened RegionImage
  import opened Writer
  import opened Patterns
  import opened Report
  import opened Progress
  import MemFS

  // ---------------------------------------------------------------------
  // Inputs, outputs and the state of a run.

  datatype DimensionResult = DimensionResult(processed: int64, removed: int64)

  /** `McaUtils.isValidMca`: a file holds at least its two header tables. */
  predicate IsValidMca(bytes: seq<byte>)
  {
    |bytes| >= 8192
  }

  /** `dir.resolve(name).toString()` for a single relative name. */
  function Resolve(dir: string, name: string): string
  {
    dir + "/" + name
  }

  /** A file of the `region` directory, as `Files.list` yields it. */
  datatype RegionFile = RegionFile(name: string, bytes: seq<byte>)

  /** The input dimension: its path, the listing of its `region` directory
      and the regular files of `entities` and `poi`, by name; `None` is a
      directory that does not exist. */
  datatype Dimension = Dimension(
    path: string,
    regions: Option<seq<RegionFile>>,
    entities: Option<map<string, seq<byte>>>,
    poi: Option<map<string, seq<byte>>>)

  /** Why `process` throws: `Files.list` of a `region` directory that is
      not there. */
  datatype ProcessFailure = NoSuchFile(path: string)

  /** The parameters of `process` that stay fixed during the run. */
  datatype Options = Options(
    codecs: Codecs,
    patterns: seq<ChunkPattern>,
    totalChunks: int64,
    progressInterval: int64,
    progressIntervalMs: int64,
    strict: bool)

  /** What the loop has done so far: the shared counter's value,
      `removedTotal`, `lastEmit`, the number of clock readings taken, the
      reports passed to `onError` and `onProgress`, and the files written. */
  datatype Run = Run(
    processed: int64,
    removed: int64,
    lastEmit: int64,
    clockReads: nat,
    errors: seq<OptimizeError>,
    events: seq<ProgressEvent>,
    outputs: map<string, seq<byte>>)
  {
    function WithError(e: OptimizeError): Run
    {
      this.(errors := errors + [e])
    }

    function WithEvent(ev: ProgressEvent): Run
    {
      this.(events := events + [ev])
    }
  }

  /** The records handed to the three writers of one region file. */
  datatype Writes = Writes(region: seq<Put>, entities: seq<Put>, poi: seq<Put>)

  /** A run inside one region file, with its writers' records. */
  datatype Pass = Pass(run: Run, writes: Writes)

  /** One region file's paths, and the bytes of its `entities` and `poi`
      siblings when they are regular files that pass `isValidMca`. */
  datatype Context = Context(
    rf: string,
    efile: string,
    pfile: string,
    entities: Option<seq<byte>>,
    poi: Option<seq<byte>>)

  // The reports of `process`, by kind.

  function CorruptError(rf: string): OptimizeError { OptimizeError(rf, "MCA", "MCA 文件损坏或不完整") }
  function OpenError(rf: string): OptimizeError { OptimizeError(rf, "MCA", "无法读取 MCA 文件") }
  function EntriesError(rf: string): OptimizeError { OptimizeError(rf, "Entries", "读取区块条目失败") }
  function PatternError(rf: string): OptimizeError { OptimizeError(rf, "Pattern", "匹配模式失败") }
  function WriteError(rf: string): OptimizeError { OptimizeError(rf, "Write", "写入条目失败") }
  function EntitiesError(efile: string): OptimizeError { OptimizeError(efile, "Entities", "读取实体失败") }
  function WriteEntitiesError(efile: string): OptimizeError { OptimizeError(efile, "WriteEntities", "写入实体条目失败") }
  function PoiError(pfile: string): OptimizeError { OptimizeError(pfile, "Poi", "读取 POI 失败") }
  function WritePoiError(pfile: string): OptimizeError { OptimizeError(pfile, "WritePoi", "写入 POI 条目失败") }

  function ChunkEvent(processed: int64, total: int64, rf: string): ProgressEvent
  {
    ProgressEvent(ChunkProgress, Some(processed), Some(total), Some(rf), None)
  }

  /** `n` copies of the report `e`. */
  function Repeat(e: OptimizeError, n: nat): (r: seq<OptimizeError>)
    ensures |r| == n && forall k :: 0 <= k < n ==> r[k] == e
  {
    seq(n, _ => e)
  }

  // ---------------------------------------------------------------------
  // Chunks without their file.

  /** What processing reads of an entry besides the region bytes. */
  datatype Chunk = Chunk(start: int64, index: SlotIndex, modified: int32, regionX: int32, regionZ: int32)
  {
    function GlobalX(): int32 { GlobalCoord(regionX, index % 32) }
    function GlobalZ(): int32 { GlobalCoord(regionZ, index / 32) }
  }

  function ChunkOf(e: McaEntry): Chunk
  {
    Chunk(e.start, e.index, e.modified, e.regionX, e.regionZ)
  }

  function ChunkAt(t: Tables, x: int32, z: int32, i: SlotIndex): Chunk
    requires t.Full()
  {
    Chunk(t.offsets[i], i, t.timestamps[i], x, z)
  }

  /** The chunks of the occupied slots among the first `n`, in slot order. */
  function ChunksBelow(t: Tables, x: int32, z: int32, n: nat): seq<Chunk>
    requires t.Full() && n <= 1024
  {
    if n == 0 then []
    else ChunksBelow(t, x, z, n - 1) + (if Occupied(t, n - 1) then [ChunkAt(t, x, z, n - 1)] else [])
  }

  /** `entries()` lists the chunks of `ChunksBelow`, all read through the
      reader's own file. */
  lemma {:induction false} EntriesAsChunks(file: MemoryAccess, t: Tables, x: int32, z: int32, n: nat)
    requires t.Full() && n <= 1024
    ensures var es, cs := EntriesBelow(file, t, x, z, n), ChunksBelow(t, x, z, n);
      && |es| == |cs|
      && forall k :: 0 <= k < |es| ==> ChunkOf(es[k]) == cs[k] && es[k].file == file
  {
    if n > 0 {
      EntriesAsChunks(file, t, x, z, n - 1);
    }
  }

  /** `p.matches(entry)` for the chunk `ch` of the region bytes `data`. */
  function Decide(c: Codecs, p: ChunkPattern, data: seq<byte>, ch: Chunk): Result<bool, EntryError>
  {
    PatternAt(c, p, data, ch.start, ch.GlobalX(), ch.GlobalZ())
  }

  // ---------------------------------------------------------------------
  // The pattern loop.

  /** Whether the pattern loop keeps the chunk, and how many pattern calls
      threw on the way. */
  function KeepOf(c: Codecs, ps: seq<ChunkPattern>, data: seq<byte>, ch: Chunk): (bool, nat)
  {
    if ps == [] then (false, 0)
    else
      match Decide(c, ps[0], data, ch)
      case Ok(true) => (true, 0)
      case Ok(false) => KeepOf(c, ps[1..], data, ch)
      case Err(_) => (KeepOf(c, ps[1..], data, ch).0, KeepOf(c, ps[1..], data, ch).1 + 1)
  }

  /** A chunk is kept iff some pattern says it matches; a pattern that
      throws counts as no match. */
  lemma {:induction false} KeepIffSomeMatch(c: Codecs, ps: seq<ChunkPattern>, data: seq<byte>, ch: Chunk)
    ensures KeepOf(c, ps, data, ch).0 <==> exists k :: 0 <= k < |ps| && Decide(c, ps[k], data, ch) == Ok(true)
  {
    if ps != [] {
      KeepIffSomeMatch(c, ps[1..], data, ch);
      assert forall k :: 1 <= k < |ps| ==> ps[k] == ps[1..][k - 1];
    }
  }

  /** Evaluation stops at the first match: patterns after it are never
      asked, so they can neither change the decision nor report a failure;
      every failure reported is one call that threw. */
  lemma {:induction false} KeepStopsAtMatch(c: Codecs, ps: seq<ChunkPattern>, more: seq<ChunkPattern>, data: seq<byte>, ch: Chunk)
    ensures KeepOf(c, ps, data, ch).1 <= |ps|
    ensures KeepOf(c, ps, data, ch).0 ==> KeepOf(c, ps + more, data, ch) == KeepOf(c, ps, data, ch)
  {
    if ps != [] {
      assert (ps + more)[1..] == ps[1..] + more;
      KeepStopsAtMatch(c, ps[1..], more, data, ch);
    }
  }

  /** The loop over `patterns` for one entry, with the `Pattern` reports. */
  method Keep(c: Codecs, ps: seq<ChunkPattern>, rf: string, e: McaEntry, r: Run) returns (keep: bool, r': Run)
    modifies e.file
    ensures var (k, fails) := KeepOf(c, ps, e.file.data, ChunkOf(e));
      keep == k && r' == r.(errors := r.errors + Repeat(PatternError(rf), fails))
  {
    ghost var data, ch := e.file.data, ChunkOf(e);
    keep := false;
    ghost var fails := 0;
    r' := r;
    var j := 0;
    assert ps[j..] == ps && r.errors + Repeat(PatternError(rf), 0) == r.errors;
    while j < |ps|
      invariant 0 <= j <= |ps|
      invariant r' == r.(errors := r.errors + Repeat(PatternError(rf), fails))
      invariant KeepOf(c, ps, data, ch) == (KeepOf(c, ps[j..], data, ch).0, fails + KeepOf(c, ps[j..], data, ch).1)
      decreases |ps| - j
    {
      assert ps[j..][1..] == ps[j + 1..];
      var m := Matches(c, ps[j], e);
      assert m == Decide(c, ps[j], data, ch);
      if m == Ok(true) {
        keep := true;
        return;
      }
      if m.Err? {
        assert Repeat(PatternError(rf), fails) + [PatternError(rf)] == Repeat(PatternError(rf), fails + 1);
        r' := r'.WithError(PatternError(rf));
        fails := fails + 1;
      }
      j := j + 1;
    }
  }

  // ---------------------------------------------------------------------
  // One entry.

  /** What the sibling reader yields for slot `i`. */
  datatype Sibling = Absent | Forward(put: Put) | ReadFailed | WriteFailed

  /** Lines 72-85 for one sibling: no reader unless the file is a valid
      regular file; `McaReader.open` and `get` throwing is a read failure; an
      empty slot forwards nothing; a record that cannot be read back is a
      write failure. */
  function SiblingOf(path: string, sib: Option<seq<byte>>, i: SlotIndex): Sibling
  {
    match sib
    case None => Absent
    case Some(bytes) =>
      if ParseRegionName(path).Err? then ReadFailed
      else
        match HeaderOf(bytes)
        case Err(_) => ReadFailed
        case Ok(t) =>
          if !Occupied(t, i) then Absent
          else
            match SerializedAt(bytes, t.offsets[i])
            case Err(_) => WriteFailed
            case Ok(b) => Forward(Put(i, t.timestamps[i], b))
  }

  /** The records a sibling lookup forwards. */
  function Forwarded(s: Sibling): seq<Put>
  {
    match s
    case Forward(p) => [p]
    case _ => []
  }

  /** The reports a sibling lookup makes. */
  function SiblingErrors(s: Sibling, readError: OptimizeError, writeError: OptimizeError): seq<OptimizeError>
  {
    match s
    case ReadFailed => [readError]
    case WriteFailed => [writeError]
    case _ => []
  }

  /** The record a kept chunk adds to the region writer, if it can be read. */
  function RecordPut(ch: Chunk, record: Result<seq<byte>, EntryError>): seq<Put>
  {
    if record.Ok? then [Put(ch.index, ch.modified, record.value)] else []
  }

  /** What the loop body finds out about one chunk: the pattern decision,
      how many pattern calls threw, the chunk's record, and what each
      sibling holds for its slot. */
  datatype Outcome = Outcome(keep: bool, fails: nat, record: Result<seq<byte>, EntryError>, entity: Sibling, poi: Sibling)

  function OutcomeOf(o: Options, x: Context, data: seq<byte>, ch: Chunk): Outcome
  {
    var k := KeepOf(o.codecs, o.patterns, data, ch);
    Outcome(k.0, k.1, SerializedAt(data, ch.start),
      SiblingOf(x.efile, x.entities, ch.index), SiblingOf(x.pfile, x.poi, ch.index))
  }

  /** Lines 71-85: the reports made while copying a kept chunk. */
  function KeptErrors(x: Context, oc: Outcome): seq<OptimizeError>
  {
    (if oc.record.Err? then [WriteError(x.rf)] else []) + SiblingsErrors(x, oc)
  }

  /** The reports of the two sibling lookups, `entities` first. */
  function SiblingsErrors(x: Context, oc: Outcome): seq<OptimizeError>
  {
    SiblingErrors(oc.entity, EntitiesError(x.efile), WriteEntitiesError(x.efile))
      + SiblingErrors(oc.poi, PoiError(x.pfile), WritePoiError(x.pfile))
  }

  /** Lines 71-85: the records the three writers receive for a kept chunk. */
  function KeptWrites(ch: Chunk, oc: Outcome, w: Writes): Writes
  {
    Writes(w.region + RecordPut(ch, oc.record), w.entities + Forwarded(oc.entity), w.poi + Forwarded(oc.poi))
  }

  /** Lines 90-99: the counter's increment, then the progress rule.  With a
      positive `progressIntervalMs` the clock is read and an event goes out
      once at least that many milliseconds (a wrapped `Long` difference)
      passed since the last one; otherwise an event goes out when the count
      is a multiple of a positive `progressInterval` (Kotlin's `%` and
      Dafny's agree on whether the remainder is zero). */
  function Tick(o: Options, clock: nat -> int64, rf: string, r: Run): Run
  {
    var processed := Inc64(r.processed);
    var r1 := r.(processed := processed);
    if o.progressIntervalMs > 0 then
      var now := clock(r.clockReads);
      var r2 := r1.(clockReads := r.clockReads + 1);
      if Sub64(now, r.lastEmit) >= o.progressIntervalMs then
        r2.WithEvent(ChunkEvent(processed, o.totalChunks, rf)).(lastEmit := now)
      else r2
    else if o.progressInterval > 0 && processed % o.progressInterval == 0 then
      r1.WithEvent(ChunkEvent(processed, o.totalChunks, rf))
    else r1
  }

  /** The body of the entry loop (lines 62-99) for the chunk `ch`: the
      reports and the removed count, the writers' records, then the tick. */
  function EntryStep(o: Options, clock: nat -> int64, x: Context, p: Pass, ch: Chunk, oc: Outcome): Pass
  {
    Pass(Tick(o, clock, x.rf, Judgement(x, p.run, oc)), WritesAfter(ch, oc, p.writes))
  }

  /** Lines 62-89 on the run: a `Pattern` report per pattern call that
      threw, then the copy's reports for a kept chunk, or one more removed
      chunk. */
  function Judgement(x: Context, r: Run, oc: Outcome): Run
  {
    var r1 := r.(errors := r.errors + Repeat(PatternError(x.rf), oc.fails));
    if oc.keep then r1.(errors := r1.errors + KeptErrors(x, oc)) else r1.(removed := Inc64(r1.removed))
  }

  /** Lines 70-85 on the writers: a kept chunk's records, nothing otherwise. */
  function WritesAfter(ch: Chunk, oc: Outcome, w: Writes): Writes
  {
    if oc.keep then KeptWrites(ch, oc, w) else w
  }

  /** How a chunk of a region file fares, for every region file. */
  type Judge = (Context, seq<byte>, Chunk) -> Outcome

  /** The judge of `process`: the pattern loop, the chunk's own record and
      its siblings' records. */
  function Judged(o: Options): Judge
  {
    (x, data, ch) => OutcomeOf(o, x, data, ch)
  }

  /** The outcomes a judge gives the chunks of the region bytes `data`. */
  function Slice(j: Judge, x: Context, data: seq<byte>): Chunk -> Outcome
  {
    ch => j(x, data, ch)
  }

  /** The outcome of every chunk of the region bytes `data`. */
  function OutcomesOf(o: Options, x: Context, data: seq<byte>): Chunk -> Outcome
  {
    Slice(Judged(o), x, data)
  }

  /** The entry loop over the chunks `cs`, each with its outcome `oc(ch)`;
      for a region file's bytes `data`, `oc` is `OutcomesOf(o, x, data)`. */
  function ChunksRun(o: Options, clock: nat -> int64, x: Context, oc: Chunk -> Outcome, p: Pass, cs: seq<Chunk>): Pass
    decreases |cs|
  {
    if cs == [] then p
    else
      var last := cs[|cs| - 1];
      EntryStep(o, clock, x, ChunksRun(o, clock, x, oc, p, cs[..|cs| - 1]), last, oc(last))
  }

  /** The chunks among `cs` whose outcome keeps them, in order. */
  function KeptBy(oc: Chunk -> Outcome, cs: seq<Chunk>): (ks: seq<Chunk>)
    ensures |ks| <= |cs|
    decreases |cs|
  {
    if cs == [] then []
    else KeptBy(oc, cs[..|cs| - 1]) + (if oc(cs[|cs| - 1]).keep then [cs[|cs| - 1]] else [])
  }

  /** How many chunks among `cs` no outcome keeps. */
  function DroppedBy(oc: Chunk -> Outcome, cs: seq<Chunk>): nat
    decreases |cs|
  {
    if cs == [] then 0
    else DroppedBy(oc, cs[..|cs| - 1]) + (if oc(cs[|cs| - 1]).keep then 0 else 1)
  }

  /** Every chunk is either kept or dropped. */
  lemma {:induction false} KeptOrDropped(oc: Chunk -> Outcome, cs: seq<Chunk>)
    ensures |KeptBy(oc, cs)| + DroppedBy(oc, cs) == |cs|
    decreases |cs|
  {
    if cs != [] {
      KeptOrDropped(oc, cs[..|cs| - 1]);
    }
  }

  /** The region records the outcomes of `ks` yield, in order. */
  function RecordsBy(oc: Chunk -> Outcome, ks: seq<Chunk>): seq<Put>
    decreases |ks|
  {
    if ks == [] then [] else RecordsBy(oc, ks[..|ks| - 1]) + RecordPut(ks[|ks| - 1], oc(ks[|ks| - 1]).record)
  }

  /** The `entities` records the outcomes of `ks` forward, in order. */
  function EntitiesBy(oc: Chunk -> Outcome, ks: seq<Chunk>): seq<Put>
    decreases |ks|
  {
    if ks == [] then [] else EntitiesBy(oc, ks[..|ks| - 1]) + Forwarded(oc(ks[|ks| - 1]).entity)
  }

  /** The `poi` records the outcomes of `ks` forward, in order. */
  function PoisBy(oc: Chunk -> Outcome, ks: seq<Chunk>): seq<Put>
    decreases |ks|
  {
    if ks == [] then [] else PoisBy(oc, ks[..|ks| - 1]) + Forwarded(oc(ks[|ks| - 1]).poi)
  }

  // ---------------------------------------------------------------------
  // Reference definitions of what the entry loop produces.

  predicate Kept(o: Options, data: seq<byte>, ch: Chunk)
  {
    KeepOf(o.codecs, o.patterns, data, ch).0
  }

  /** The chunks the patterns keep, in order. */
  function KeptChunks(o: Options, data: seq<byte>, cs: seq<Chunk>): (ks: seq<Chunk>)
    ensures |ks| <= |cs|
    decreases |cs|
  {
    if cs == [] then []
    else KeptChunks(o, data, cs[..|cs| - 1]) + (if Kept(o, data, cs[|cs| - 1]) then [cs[|cs| - 1]] else [])
  }

  /** The records of the chunks `ks` that can be read, in order. */
  function Records(data: seq<byte>, ks: seq<Chunk>): seq<Put>
    decreases |ks|
  {
    if ks == [] then [] else Records(data, ks[..|ks| - 1]) + RecordPut(ks[|ks| - 1], SerializedAt(data, ks[|ks| - 1].start))
  }

  /** The records a sibling forwards for the slots of the chunks `ks`. */
  function SiblingRecords(path: string, sib: Option<seq<byte>>, ks: seq<Chunk>): seq<Put>
    decreases |ks|
  {
    if ks == [] then [] else SiblingRecords(path, sib, ks[..|ks| - 1]) + Forwarded(SiblingOf(path, sib, ks[|ks| - 1].index))
  }

  /** A `Long` counter after `n` increments from `v`. */
  function Advance(v: int64, n: nat): int64
  {
    if n == 0 then v else Inc64(Advance(v, n - 1))
  }

  /** Step-by-step increments wrap like one addition. */
  lemma {:induction false} AdvanceWraps(v: int64, n: nat, t: int)
    requires t == v + n
    ensures Advance(v, n) == ToInt64(t)
  {
    if n > 0 {
      AdvanceWraps(v, n - 1, t - 1);
      Long64Wraps(Advance(v, n - 1), 0, 0);
      ToInt64AddWrap(t - 1, 1);
    }
  }

  /** The counter after `j + d` increments, for one more (`d == 1`) or no
      more (`d == 0`) increment than `j`. */
  lemma AdvanceBy(v: int64, k: nat, j: nat, d: nat)
    requires d <= 1 && k == j + d
    ensures Advance(v, k) == if d == 1 then Inc64(Advance(v, j)) else Advance(v, j)
  {
  }

  /** Increments compose. */
  lemma {:induction false} AdvanceAdds(v: int64, m: nat, n: nat, t: nat)
    requires t == m + n
    ensures Advance(Advance(v, m), n) == Advance(v, t)
  {
    if n > 0 {
      AdvanceAdds(v, m, n - 1, t - 1);
    }
  }

  /** The event the count rule emits when the counter reaches `v`. */
  function MilestoneAt(o: Options, rf: string, v: int64): seq<ProgressEvent>
  {
    if o.progressInterval > 0 && v % o.progressInterval == 0 then [ChunkEvent(v, o.totalChunks, rf)] else []
  }

  /** The progress events the count rule emits while the counter runs from
      `p0 + 1` to `p0 + n`. */
  function Milestones(o: Options, rf: string, p0: int64, n: nat): seq<ProgressEvent>
  {
    if n == 0 then []
    else
      Milestones(o, rf, p0, n - 1) + MilestoneAt(o, rf, Advance(p0, n))
  }

  /** One step of the entry loop, field by field. */
  lemma EntryStepEffect(o: Options, clock: nat -> int64, x: Context, p: Pass, ch: Chunk, oc: Outcome)
    ensures var q, keep := EntryStep(o, clock, x, p, ch, oc), oc.keep;
      && q.run.processed == Inc64(p.run.processed)
      && q.run.removed == (if keep then p.run.removed else Inc64(p.run.removed))
      && q.run.clockReads == p.run.clockReads + (if o.progressIntervalMs > 0 then 1 else 0)
      && q.run.outputs == p.run.outputs
      && q.writes.region == p.writes.region + (if keep then RecordPut(ch, oc.record) else [])
      && q.writes.entities == p.writes.entities + (if keep then Forwarded(oc.entity) else [])
      && q.writes.poi == p.writes.poi + (if keep then Forwarded(oc.poi) else [])
      && p.run.events <= q.run.events
      && (o.progressIntervalMs <= 0 ==>
           q.run.events == p.run.events + MilestoneAt(o, x.rf, q.run.processed))
  {
  }

  /** Over the whole entry loop: the counter advances once per chunk; the
      removed total once per chunk whose outcome is not kept; the region
      writer receives the readable records of the kept chunks, in order,
      and each sibling writer what its file forwards for the kept slots;
      the clock is read once per chunk in time mode and never otherwise;
      in count mode the events are exactly the milestones.  The loop sees a
      chunk only through its outcome, so this holds for any outcomes. */
  lemma ChunksRunEffect(o: Options, clock: nat -> int64, x: Context, oc: Chunk -> Outcome, p: Pass, cs: seq<Chunk>)
    ensures var q, ks := ChunksRun(o, clock, x, oc, p, cs), KeptBy(oc, cs);
      && q.run.processed == Advance(p.run.processed, |cs|)
      && q.run.removed == Advance(p.run.removed, DroppedBy(oc, cs))
      && q.run.clockReads == p.run.clockReads + (if o.progressIntervalMs > 0 then |cs| else 0)
      && q.run.outputs == p.run.outputs
      && q.writes.region == p.writes.region + RecordsBy(oc, ks)
      && q.writes.entities == p.writes.entities + EntitiesBy(oc, ks)
      && q.writes.poi == p.writes.poi + PoisBy(oc, ks)
      && p.run.events <= q.run.events
      && (o.progressIntervalMs <= 0 ==> q.run.events == p.run.events + Milestones(o, x.rf, p.run.processed, |cs|))
  {
    ChunksRunCounts(o, clock, x, oc, p, cs);
    ChunksRunWrites(o, clock, x, oc, p, cs);
    LoopWritesKept(oc, p.writes, cs);
    ChunksRunEvents(o, clock, x, oc, p, cs);
  }

  lemma {:induction false} ChunksRunCounts(o: Options, clock: nat -> int64, x: Context, oc: Chunk -> Outcome, p: Pass, cs: seq<Chunk>)
    ensures var q := ChunksRun(o, clock, x, oc, p, cs);
      && q.run.processed == Advance(p.run.processed, |cs|)
      && q.run.removed == Advance(p.run.removed, DroppedBy(oc, cs))
      && q.run.clockReads == p.run.clockReads + (if o.progressIntervalMs > 0 then |cs| else 0)
      && q.run.outputs == p.run.outputs
    decreases |cs|
  {
    if cs != [] {
      var n := |cs| - 1;
      var init, last := cs[..n], cs[n];
      ChunksRunCounts(o, clock, x, oc, p, init);
      EntryStepEffect(o, clock, x, ChunksRun(o, clock, x, oc, p, init), last, oc(last));
      assert cs[..|cs| - 1] == init;
      AdvanceBy(p.run.removed, DroppedBy(oc, cs), DroppedBy(oc, init), if oc(last).keep then 0 else 1);
    }
  }

  /** The writers after the entry loop: they see the chunks only. */
  function LoopWrites(oc: Chunk -> Outcome, w: Writes, cs: seq<Chunk>): Writes
    decreases |cs|
  {
    if cs == [] then w
    else
      var last := cs[|cs| - 1];
      WritesAfter(last, oc(last), LoopWrites(oc, w, cs[..|cs| - 1]))
  }

  lemma {:induction false} ChunksRunWrites(o: Options, clock: nat -> int64, x: Context, oc: Chunk -> Outcome, p: Pass, cs: seq<Chunk>)
    ensures ChunksRun(o, clock, x, oc, p, cs).writes == LoopWrites(oc, p.writes, cs)
    decreases |cs|
  {
    if cs != [] {
      ChunksRunWrites(o, clock, x, oc, p, cs[..|cs| - 1]);
    }
  }

  /** Each writer receives, in order, what the kept chunks give it. */
  lemma {:induction false} LoopWritesKept(oc: Chunk -> Outcome, w: Writes, cs: seq<Chunk>)
    ensures var v, ks := LoopWrites(oc, w, cs), KeptBy(oc, cs);
      && v.region == w.region + RecordsBy(oc, ks)
      && v.entities == w.entities + EntitiesBy(oc, ks)
      && v.poi == w.poi + PoisBy(oc, ks)
    decreases |cs|
  {
    if cs != [] {
      var n := |cs| - 1;
      var init, last := cs[..n], cs[n];
      LoopWritesKept(oc, w, init);
      var v0, ks0 := LoopWrites(oc, w, init), KeptBy(oc, init);
      if oc(last).keep {
        assert KeptBy(oc, cs) == ks0 + [last];
        assert LoopWrites(oc, w, cs) == KeptWrites(last, oc(last), v0);
        KeptAppends(oc, w, v0, ks0, last);
      } else {
        assert KeptBy(oc, cs) == ks0;
      }
    }
  }

  /** One more kept chunk extends each writer by what it gives. */
  lemma KeptAppends(oc: Chunk -> Outcome, w: Writes, v0: Writes, ks0: seq<Chunk>, last: Chunk)
    requires v0 == Writes(w.region + RecordsBy(oc, ks0), w.entities + EntitiesBy(oc, ks0), w.poi + PoisBy(oc, ks0))
    ensures var v, ks := KeptWrites(last, oc(last), v0), ks0 + [last];
      && v.region == w.region + RecordsBy(oc, ks)
      && v.entities == w.entities + EntitiesBy(oc, ks)
      && v.poi == w.poi + PoisBy(oc, ks)
  {
    RecordsSnoc(oc, w.region, ks0, last);
    EntitiesSnoc(oc, w.entities, ks0, last);
    PoisSnoc(oc, w.poi, ks0, last);
  }

  lemma RecordsSnoc(oc: Chunk -> Outcome, a: seq<Put>, ks0: seq<Chunk>, last: Chunk)
    ensures (a + RecordsBy(oc, ks0)) + RecordPut(last, oc(last).record) == a + RecordsBy(oc, ks0 + [last])
  {
    var ks := ks0 + [last];
    assert ks[..|ks| - 1] == ks0 && ks[|ks| - 1] == last;
  }

  lemma EntitiesSnoc(oc: Chunk -> Outcome, a: seq<Put>, ks0: seq<Chunk>, last: Chunk)
    ensures (a + EntitiesBy(oc, ks0)) + Forwarded(oc(last).entity) == a + EntitiesBy(oc, ks0 + [last])
  {
    var ks := ks0 + [last];
    assert ks[..|ks| - 1] == ks0 && ks[|ks| - 1] == last;
  }

  lemma PoisSnoc(oc: Chunk -> Outcome, a: seq<Put>, ks0: seq<Chunk>, last: Chunk)
    ensures (a + PoisBy(oc, ks0)) + Forwarded(oc(last).poi) == a + PoisBy(oc, ks0 + [last])
  {
    var ks := ks0 + [last];
    assert ks[..|ks| - 1] == ks0 && ks[|ks| - 1] == last;
  }

  lemma {:induction false} ChunksRunEvents(o: Options, clock: nat -> int64, x: Context, oc: Chunk -> Outcome, p: Pass, cs: seq<Chunk>)
    ensures var q := ChunksRun(o, clock, x, oc, p, cs);
      && p.run.events <= q.run.events
      && (o.progressIntervalMs <= 0 ==> q.run.events == p.run.events + Milestones(o, x.rf, p.run.processed, |cs|))
    decreases |cs|
  {
    if cs != [] {
      var n := |cs| - 1;
      var q0 := ChunksRun(o, clock, x, oc, p, cs[..n]);
      ChunksRunEvents(o, clock, x, oc, p, cs[..n]);
      ChunksRunCounts(o, clock, x, oc, p, cs[..n]);
      EntryStepEvents(o, clock, x, q0, cs[n], oc(cs[n]));
      assert ChunksRun(o, clock, x, oc, p, cs) == EntryStep(o, clock, x, q0, cs[n], oc(cs[n]));
      assert Advance(p.run.processed, |cs|) == Inc64(q0.run.processed);
    }
  }

  /** One step of the entry loop on the events. */
  lemma EntryStepEvents(o: Options, clock: nat -> int64, x: Context, p: Pass, ch: Chunk, oc: Outcome)
    ensures var q := EntryStep(o, clock, x, p, ch, oc);
      && p.run.events <= q.run.events
      && (o.progressIntervalMs <= 0 ==>
           q.run.events == p.run.events + MilestoneAt(o, x.rf, Inc64(p.run.processed)))
  {
  }

  /** For a region file's bytes, the outcome-based definitions are the
      reference ones. */
  lemma {:induction false} OutcomesAgree(o: Options, x: Context, data: seq<byte>, cs: seq<Chunk>)
    ensures var oc := OutcomesOf(o, x, data);
      && KeptBy(oc, cs) == KeptChunks(o, data, cs)
      && RecordsBy(oc, cs) == Records(data, cs)
      && EntitiesBy(oc, cs) == SiblingRecords(x.efile, x.entities, cs)
      && PoisBy(oc, cs) == SiblingRecords(x.pfile, x.poi, cs)
    decreases |cs|
  {
    if cs != [] {
      OutcomesAgree(o, x, data, cs[..|cs| - 1]);
    }
  }

  /** Only kept slots are forwarded: every record a sibling writer receives
      is the sibling's record for the slot of some kept chunk. */
  lemma {:induction false} SiblingRecordsAtKeptSlots(path: string, sib: Option<seq<byte>>, ks: seq<Chunk>)
    ensures forall w :: w in SiblingRecords(path, sib, ks) ==>
      exists k :: 0 <= k < |ks| && w.index == ks[k].index && SiblingOf(path, sib, ks[k].index) == Forward(w)
    decreases |ks|
  {
    if ks != [] {
      var n := |ks| - 1;
      SiblingRecordsAtKeptSlots(path, sib, ks[..n]);
      var init, last := SiblingRecords(path, sib, ks[..n]), SiblingOf(path, sib, ks[n].index);
      assert SiblingRecords(path, sib, ks) == init + Forwarded(last);
      forall w | w in init + Forwarded(last)
        ensures exists k :: 0 <= k < |ks| && w.index == ks[k].index && SiblingOf(path, sib, ks[k].index) == Forward(w)
      {
        if w in init {
          var k :| 0 <= k < n && w.index == ks[..n][k].index && SiblingOf(path, sib, ks[..n][k].index) == Forward(w);
          assert ks[..n][k] == ks[k];
        } else {
          assert last == Forward(w);
        }
      }
    }
  }

  /** With neither a time nor a count interval, the entry loop emits no
      progress event at all. */
  lemma {:induction false} NoMilestonesWithoutInterval(o: Options, rf: string, p0: int64, n: nat)
    requires o.progressInterval <= 0
    ensures Milestones(o, rf, p0, n) == []
  {
    if n > 0 {
      NoMilestonesWithoutInterval(o, rf, p0, n - 1);
    }
  }

  // ---------------------------------------------------------------------
  // One region file.

  /** The bytes of a sibling that `Files.isRegularFile` and `isValidMca` accept. */
  function SiblingFile(files: map<string, seq<byte>>, name: string): (r: Option<seq<byte>>)
    ensures r.Some? <==> name in files && IsValidMca(files[name])
    ensures r.Some? ==> r.value == files[name]
  {
    if name in files && IsValidMca(files[name]) then Some(files[name]) else None
  }

  /** The same inside a sibling directory, which may be missing. */
  function SiblingIn(dir: Option<map<string, seq<byte>>>, name: string): (r: Option<seq<byte>>)
    ensures r.Some? ==> dir.Some?
  {
    match dir
    case None => None
    case Some(files) => SiblingFile(files, name)
  }

  function ContextOf(d: Dimension, name: string): Context
  {
    Context(Resolve(Resolve(d.path, "region"), name),
      Resolve(Resolve(d.path, "entities"), name),
      Resolve(Resolve(d.path, "poi"), name),
      SiblingIn(d.entities, name),
      SiblingIn(d.poi, name))
  }

  /** Lines 101-103: each writer of the region file finalizes its file, the
      region image of its records. */
  function Finished(outputs: map<string, seq<byte>>, target: string, name: string, x: Context, w: Writes): map<string, seq<byte>>
  {
    var o1 := outputs[Resolve(Resolve(target, "region"), name) := Image(w.region)];
    var o2 := if x.entities.Some? then o1[Resolve(Resolve(target, "entities"), name) := Image(w.entities)] else o1;
    if x.poi.Some? then o2[Resolve(Resolve(target, "poi"), name) := Image(w.poi)] else o2
  }

  /** The chunks `entries()` lists for a region file, none when its header
      cannot be read. */
  function ListedChunks(bytes: seq<byte>, x: int32, z: int32): seq<Chunk>
  {
    match HeaderOf(bytes)
    case Ok(t) => ChunksBelow(t, x, z, 1024)
    case Err(_) => []
  }

  /** Lines 51-103, once the reader is open at region coordinates `(x, z)`. */
  function OpenedStep(o: Options, clock: nat -> int64, j: Judge, target: string, cx: Context, f: RegionFile, x: int32, z: int32, r: Run): Run
  {
    var r1 := if HeaderOf(f.bytes).Err? then r.WithError(EntriesError(cx.rf)) else r;
    FilePass(o, clock, target, cx, Slice(j, cx, f.bytes), f.name, r1, ListedChunks(f.bytes, x, z))
  }

  /** The entry loop over the chunks `cs` with fresh writers, then the
      finalized files. */
  function FilePass(o: Options, clock: nat -> int64, target: string, cx: Context, oc: Chunk -> Outcome, name: string, r: Run, cs: seq<Chunk>): Run
  {
    var p := ChunksRun(o, clock, cx, oc, Pass(r, Writes([], [], [])), cs);
    p.run.(outputs := Finished(p.run.outputs, target, name, cx, p.writes))
  }

  /** The body of the region loop (lines 40-104) for one listed file. */
  function RegionStep(o: Options, clock: nat -> int64, j: Judge, d: Dimension, target: string, r: Run, f: RegionFile): Run
  {
    var cx := ContextOf(d, f.name);
    FileStep(o, clock, j, target, r, f, cx, ParseRegionName(cx.rf))
  }

  /** The same, given the coordinates `parsed` from the region file name;
      they are looked at only once the file is to be opened. */
  function FileStep(o: Options, clock: nat -> int64, j: Judge, target: string, r: Run, f: RegionFile, cx: Context, parsed: Result<(int32, int32), NameError>): Run
  {
    if !EndsWith(cx.rf, ".mca") then r
    else
      var r1 := r.WithEvent(ProgressEvent(RegionStart, None, None, Some(cx.rf), None));
      var r2 := if IsValidMca(f.bytes) then r1 else r1.WithError(CorruptError(cx.rf));
      if !IsValidMca(f.bytes) && !o.strict then r2
      else
        match parsed
        case Err(_) => r2.WithError(OpenError(cx.rf))
        case Ok((x, z)) => OpenedStep(o, clock, j, target, cx, f, x, z, r2)
  }

  /** The chunks the loop visits for a listed file: none for a file that is
      not `.mca`, is skipped as corrupt, or whose name does not parse. */
  function RegionChunks(o: Options, d: Dimension, f: RegionFile): seq<Chunk>
  {
    var cx := ContextOf(d, f.name);
    FileChunks(o, f, cx, ParseRegionName(cx.rf))
  }

  function FileChunks(o: Options, f: RegionFile, cx: Context, parsed: Result<(int32, int32), NameError>): seq<Chunk>
  {
    if !EndsWith(cx.rf, ".mca") || (!IsValidMca(f.bytes) && !o.strict) || parsed.Err? then []
    else ListedChunks(f.bytes, parsed.value.0, parsed.value.1)
  }

  /** Outside strict mode a corrupt region file is reported once as `MCA`
      and skipped: no chunk is counted, no file is written. */
  lemma CorruptRegionSkipped(o: Options, clock: nat -> int64, j: Judge, d: Dimension, target: string, r: Run, f: RegionFile)
    requires !o.strict && !IsValidMca(f.bytes)
    requires EndsWith(ContextOf(d, f.name).rf, ".mca")
    ensures var rf := ContextOf(d, f.name).rf;
      RegionStep(o, clock, j, d, target, r, f)
        == r.WithEvent(ProgressEvent(RegionStart, None, None, Some(rf), None)).WithError(CorruptError(rf))
    ensures RegionChunks(o, d, f) == []
  {
  }

  /** In strict mode a corrupt file is reported and still processed: its
      reader fails on the header, so `Entries` is reported too and an empty
      region file is written. */
  lemma StrictCorruptRegion(o: Options, clock: nat -> int64, j: Judge, d: Dimension, target: string, r: Run, f: RegionFile)
    requires o.strict && !IsValidMca(f.bytes)
    requires EndsWith(ContextOf(d, f.name).rf, ".mca") && ParseRegionName(ContextOf(d, f.name).rf).Ok?
    ensures var rf, name := ContextOf(d, f.name).rf, f.name;
      var q := RegionStep(o, clock, j, d, target, r, f);
      && q.errors == r.errors + [CorruptError(rf), EntriesError(rf)]
      && q.processed == r.processed && q.removed == r.removed
      && q.outputs[Resolve(Resolve(target, "region"), name)] == Image([])
  {
  }

  /** One region file's pass: the counter advances by its chunks, the
      removed total by those not kept; the region output is the region
      image of the kept, readable records in slot order, and each sibling
      output, when there is a sibling, the image of what it forwards for
      the kept slots; events are only appended. */
  lemma FilePassEffect(o: Options, clock: nat -> int64, target: string, cx: Context, oc: Chunk -> Outcome, name: string, r: Run, cs: seq<Chunk>)
    ensures var q, ks := FilePass(o, clock, target, cx, oc, name, r, cs), KeptBy(oc, cs);
      && q.processed == Advance(r.processed, |cs|)
      && q.removed == Advance(r.removed, DroppedBy(oc, cs))
      && q.outputs[Resolve(Resolve(target, "region"), name)] == Image(RecordsBy(oc, ks))
      && (cx.entities.Some? ==> q.outputs[Resolve(Resolve(target, "entities"), name)] == Image(EntitiesBy(oc, ks)))
      && (cx.poi.Some? ==> q.outputs[Resolve(Resolve(target, "poi"), name)] == Image(PoisBy(oc, ks)))
      && r.events <= q.events
  {
    var p := ChunksRun(o, clock, cx, oc, Pass(r, Writes([], [], [])), cs);
    ChunksRunEffect(o, clock, cx, oc, Pass(r, Writes([], [], [])), cs);
    var ks := KeptBy(oc, cs);
    assert p.writes == Writes(RecordsBy(oc, ks), EntitiesBy(oc, ks), PoisBy(oc, ks)) by {
      assert [] + RecordsBy(oc, ks) == RecordsBy(oc, ks);
      assert [] + EntitiesBy(oc, ks) == EntitiesBy(oc, ks);
      assert [] + PoisBy(oc, ks) == PoisBy(oc, ks);
    }
    FinishedOutputs(p.run.outputs, target, name, cx, p.writes);
  }

  /** Where the finalized writers put their files. */
  lemma FinishedOutputs(outputs: map<string, seq<byte>>, target: string, name: string, x: Context, w: Writes)
    ensures var m := Finished(outputs, target, name, x, w);
      && m[Resolve(Resolve(target, "region"), name)] == Image(w.region)
      && (x.entities.Some? ==> m[Resolve(Resolve(target, "entities"), name)] == Image(w.entities))
      && (x.poi.Some? ==> m[Resolve(Resolve(target, "poi"), name)] == Image(w.poi))
  {
    OutputsDistinct(target, name);
  }

  /** An opened file: the pass over its listed chunks, after the `Entries`
      report when the header cannot be read. */
  lemma OpenedStepEffect(o: Options, clock: nat -> int64, j: Judge, target: string, cx: Context, f: RegionFile, x: int32, z: int32, r: Run)
    ensures var q, cs, oc := OpenedStep(o, clock, j, target, cx, f, x, z, r), ListedChunks(f.bytes, x, z), Slice(j, cx, f.bytes);
      && q.processed == Advance(r.processed, |cs|)
      && q.removed == Advance(r.removed, DroppedBy(oc, cs))
      && q.outputs[Resolve(Resolve(target, "region"), f.name)] == Image(RecordsBy(oc, KeptBy(oc, cs)))
      && r.events <= q.events
  {
    var r1 := if HeaderOf(f.bytes).Err? then r.WithError(EntriesError(cx.rf)) else r;
    assert r1.processed == r.processed && r1.removed == r.removed && r1.events == r.events;
    FilePassEffect(o, clock, target, cx, Slice(j, cx, f.bytes), f.name, r1, ListedChunks(f.bytes, x, z));
  }

  /** The three outputs of one region file are different files. */
  lemma OutputsDistinct(target: string, name: string)
    ensures Resolve(Resolve(target, "region"), name) != Resolve(Resolve(target, "entities"), name)
    ensures Resolve(Resolve(target, "region"), name) != Resolve(Resolve(target, "poi"), name)
    ensures Resolve(Resolve(target, "entities"), name) != Resolve(Resolve(target, "poi"), name)
  {
    var k := |target| + 1;
    assert Resolve(Resolve(target, "region"), name)[k] == 'r';
    assert Resolve(Resolve(target, "entities"), name)[k] == 'e';
    assert Resolve(Resolve(target, "poi"), name)[k] == 'p';
  }

  /** One listed file: the counter advances by the chunks the loop visits,
      the removed total by those no pattern keeps; either nothing is
      written, or the region output is the region image of the kept,
      readable records in slot order; events are only appended. */
  lemma RegionStepEffect(o: Options, clock: nat -> int64, j: Judge, d: Dimension, target: string, r: Run, f: RegionFile)
    ensures var q, cs, oc := RegionStep(o, clock, j, d, target, r, f), RegionChunks(o, d, f), Slice(j, ContextOf(d, f.name), f.bytes);
      && q.processed == Advance(r.processed, |cs|)
      && q.removed == Advance(r.removed, RegionRemoved(o, j, d, f))
      && (q.outputs == r.outputs || q.outputs[Resolve(Resolve(target, "region"), f.name)] == Image(RecordsBy(oc, KeptBy(oc, cs))))
      && r.events <= q.events
  {
    var cx := ContextOf(d, f.name);
    var parsed := ParseRegionName(cx.rf);
    FileStepEffect(o, clock, j, target, r, f, cx, parsed);
  }

  lemma FileStepEffect(o: Options, clock: nat -> int64, j: Judge, target: string, r: Run, f: RegionFile, cx: Context, parsed: Result<(int32, int32), NameError>)
    ensures var q, cs, oc := FileStep(o, clock, j, target, r, f, cx, parsed), FileChunks(o, f, cx, parsed), Slice(j, cx, f.bytes);
      && q.processed == Advance(r.processed, |cs|)
      && q.removed == Advance(r.removed, DroppedBy(oc, cs))
      && (q.outputs == r.outputs || q.outputs[Resolve(Resolve(target, "region"), f.name)] == Image(RecordsBy(oc, KeptBy(oc, cs))))
      && r.events <= q.events
  {
    if EndsWith(cx.rf, ".mca") && !(!IsValidMca(f.bytes) && !o.strict) && parsed.Ok? {
      var (x, z) := parsed.value;
      var r1 := r.WithEvent(ProgressEvent(RegionStart, None, None, Some(cx.rf), None));
      var r2 := if IsValidMca(f.bytes) then r1 else r1.WithError(CorruptError(cx.rf));
      assert r2.processed == r.processed && r2.removed == r.removed && r.events <= r2.events;
      assert FileStep(o, clock, j, target, r, f, cx, parsed) == OpenedStep(o, clock, j, target, cx, f, x, z, r2);
      OpenedStepEffect(o, clock, j, target, cx, f, x, z, r2);
    } else {
      assert FileChunks(o, f, cx, parsed) == [];
      assert KeptBy(Slice(j, cx, f.bytes), []) == [];
    }
  }

  // ---------------------------------------------------------------------
  // The whole dimension.

  /** The region loop over the listed files `fs`. */
  function RegionsRun(o: Options, clock: nat -> int64, j: Judge, d: Dimension, target: string, r: Run, fs: seq<RegionFile>): Run
    decreases |fs|
  {
    if fs == [] then r
    else RegionStep(o, clock, j, d, target, RegionsRun(o, clock, j, d, target, r, fs[..|fs| - 1]), fs[|fs| - 1])
  }

  /** Lines 29-35: the directories `process` creates before anything else,
      the target, its `region`, and its `entities` and `poi` exactly when
      the input has them. */
  function CreatedDirs(d: Dimension, target: string): set<string>
  {
    {target, Resolve(target, "region")}
      + (if d.entities.Some? then {Resolve(target, "entities")} else {})
      + (if d.poi.Some? then {Resolve(target, "poi")} else {})
  }

  /** `process`: the dimension's start event and the first clock reading;
      then either the `NoSuchFileException` of listing a missing `region`
      directory, or the region loop, the end event, and the result pairing
      the counter with the removed total. */
  function ProcessOf(o: Options, clock: nat -> int64, j: Judge, d: Dimension, target: string, p0: int64): (Result<DimensionResult, ProcessFailure>, Run)
  {
    var r0 := Run(p0, 0, clock(0), 1, [], [ProgressEvent(DimensionStart, None, None, Some(d.path), None)], map[]);
    match d.regions
    case None => (Err(NoSuchFile(Resolve(d.path, "region"))), r0)
    case Some(fs) =>
      var r := RegionsRun(o, clock, j, d, target, r0, fs)
        .WithEvent(ProgressEvent(DimensionEnd, None, None, Some(d.path), None));
      (Ok(DimensionResult(r.processed, r.removed)), r)
  }

  /** The number of chunks the loop visits in the files `fs`. */
  function VisitedCount(o: Options, d: Dimension, fs: seq<RegionFile>): nat
    decreases |fs|
  {
    if fs == [] then 0 else VisitedCount(o, d, fs[..|fs| - 1]) + |RegionChunks(o, d, fs[|fs| - 1])|
  }

  /** The number of chunks of the file `f` the loop visits and does not keep. */
  function RegionRemoved(o: Options, j: Judge, d: Dimension, f: RegionFile): nat
  {
    var cs := RegionChunks(o, d, f);
    DroppedBy(Slice(j, ContextOf(d, f.name), f.bytes), cs)
  }

  /** The number of visited chunks no pattern keeps in the files `fs`. */
  function RemovedCount(o: Options, j: Judge, d: Dimension, fs: seq<RegionFile>): nat
    decreases |fs|
  {
    if fs == [] then 0
    else
      RemovedCount(o, j, d, fs[..|fs| - 1]) + RegionRemoved(o, j, d, fs[|fs| - 1])
  }

  lemma {:induction false} RegionsRunCounts(o: Options, clock: nat -> int64, j: Judge, d: Dimension, target: string, r: Run, fs: seq<RegionFile>)
    ensures var q := RegionsRun(o, clock, j, d, target, r, fs);
      && q.processed == Advance(r.processed, VisitedCount(o, d, fs))
      && q.removed == Advance(r.removed, RemovedCount(o, j, d, fs))
    decreases |fs|
  {
    if fs != [] {
      var n := |fs| - 1;
      RegionsRunCounts(o, clock, j, d, target, r, fs[..n]);
      var q0 := RegionsRun(o, clock, j, d, target, r, fs[..n]);
      RegionStepEffect(o, clock, j, d, target, q0, fs[n]);
      AdvanceAdds(r.processed, VisitedCount(o, d, fs[..n]), |RegionChunks(o, d, fs[n])|, VisitedCount(o, d, fs));
      AdvanceAdds(r.removed, RemovedCount(o, j, d, fs[..n]), RegionRemoved(o, j, d, fs[n]), RemovedCount(o, j, d, fs));
    }
  }

  /** The result of `process`: without a `region` directory, the
      `NoSuchFileException` after the start event, with nothing counted or
      written; otherwise the shared counter advanced (with `Long`
      wrap-around, see `AdvanceWraps`) once per chunk visited in this
      dimension, and the removed count once per visited chunk that no
      pattern kept; the events open with `DimensionStart` and close with
      `DimensionEnd`. */
  lemma DimensionTotals(o: Options, clock: nat -> int64, j: Judge, d: Dimension, target: string, p0: int64)
    ensures var (res, r) := ProcessOf(o, clock, j, d, target, p0);
      d.regions.None? ==>
        && res == Err(NoSuchFile(Resolve(d.path, "region")))
        && r.processed == p0 && r.errors == [] && r.outputs == map[]
        && r.events == [ProgressEvent(DimensionStart, None, None, Some(d.path), None)]
    ensures var (res, r) := ProcessOf(o, clock, j, d, target, p0);
      d.regions.Some? ==>
        && res.Ok?
        && res.value.processed == Advance(p0, VisitedCount(o, d, d.regions.value))
        && res.value.removed == Advance(0, RemovedCount(o, j, d, d.regions.value))
        && |r.events| >= 2
        && r.events[0] == ProgressEvent(DimensionStart, None, None, Some(d.path), None)
        && r.events[|r.events| - 1] == ProgressEvent(DimensionEnd, None, None, Some(d.path), None)
  {
    if d.regions.Some? {
      var fs := d.regions.value;
      var r0 := Run(p0, 0, clock(0), 1, [], [ProgressEvent(DimensionStart, None, None, Some(d.path), None)], map[]);
      var q := RegionsRun(o, clock, j, d, target, r0, fs);
      RegionsRunCounts(o, clock, j, d, target, r0, fs);
      RegionsRunKeepsEvents(o, clock, j, d, target, r0, fs);
      assert ProcessOf(o, clock, j, d, target, p0)
        == (Ok(DimensionResult(q.processed, q.removed)), q.WithEvent(ProgressEvent(DimensionEnd, None, None, Some(d.path), None)));
    }
  }

  /** A path `dir/name` for some directory `dir` of `dirs`. */
  ghost predicate InDirs(path: string, dirs: set<string>)
  {
    exists dir, name :: dir in dirs && path == Resolve(dir, name)
  }

  ghost predicate AllInDirs(outputs: map<string, seq<byte>>, dirs: set<string>)
  {
    forall k :: k in outputs ==> InDirs(k, dirs)
  }

  /** Finalizing puts each file in its writer's directory. */
  lemma FinishedInDirs(outputs: map<string, seq<byte>>, target: string, name: string, x: Context, w: Writes, dirs: set<string>)
    requires AllInDirs(outputs, dirs)
    requires Resolve(target, "region") in dirs
    requires x.entities.Some? ==> Resolve(target, "entities") in dirs
    requires x.poi.Some? ==> Resolve(target, "poi") in dirs
    ensures AllInDirs(Finished(outputs, target, name, x, w), dirs)
  {
    assert InDirs(Resolve(Resolve(target, "region"), name), dirs);
    if x.entities.Some? {
      assert InDirs(Resolve(Resolve(target, "entities"), name), dirs);
    }
    if x.poi.Some? {
      assert InDirs(Resolve(Resolve(target, "poi"), name), dirs);
    }
  }

  /** One listed file writes only inside the created directories. */
  lemma RegionStepInDirs(o: Options, clock: nat -> int64, j: Judge, d: Dimension, target: string, r: Run, f: RegionFile)
    requires AllInDirs(r.outputs, CreatedDirs(d, target) - {target})
    ensures AllInDirs(RegionStep(o, clock, j, d, target, r, f).outputs, CreatedDirs(d, target) - {target})
  {
    var cx := ContextOf(d, f.name);
    var parsed := ParseRegionName(cx.rf);
    if EndsWith(cx.rf, ".mca") && !(!IsValidMca(f.bytes) && !o.strict) && parsed.Ok? {
      var (x, z) := parsed.value;
      var r1 := r.WithEvent(ProgressEvent(RegionStart, None, None, Some(cx.rf), None));
      var r2 := if IsValidMca(f.bytes) then r1 else r1.WithError(CorruptError(cx.rf));
      var r3 := if HeaderOf(f.bytes).Err? then r2.WithError(EntriesError(cx.rf)) else r2;
      var oc := Slice(j, cx, f.bytes);
      var p0 := Pass(r3, Writes([], [], []));
      var p := ChunksRun(o, clock, cx, oc, p0, ListedChunks(f.bytes, x, z));
      ChunksRunEffect(o, clock, cx, oc, p0, ListedChunks(f.bytes, x, z));
      assert |Resolve(target, "region")| > |target| && |Resolve(target, "entities")| > |target| && |Resolve(target, "poi")| > |target|;
      FinishedInDirs(p.run.outputs, target, f.name, cx, p.writes, CreatedDirs(d, target) - {target});
      assert RegionStep(o, clock, j, d, target, r, f) == OpenedStep(o, clock, j, target, cx, f, x, z, r2);
    }
  }

  lemma {:induction false} RegionsRunInDirs(o: Options, clock: nat -> int64, j: Judge, d: Dimension, target: string, r: Run, fs: seq<RegionFile>)
    requires AllInDirs(r.outputs, CreatedDirs(d, target) - {target})
    ensures AllInDirs(RegionsRun(o, clock, j, d, target, r, fs).outputs, CreatedDirs(d, target) - {target})
    decreases |fs|
  {
    if fs != [] {
      var n := |fs| - 1;
      RegionsRunInDirs(o, clock, j, d, target, r, fs[..n]);
      RegionStepInDirs(o, clock, j, d, target, RegionsRun(o, clock, j, d, target, r, fs[..n]), fs[n]);
    }
  }

  /** Every file `process` writes is `sub/name` for a subdirectory `sub` it
      created first (`region`, and `entities` or `poi` only when the input
      has them); in particular nothing is written under `entities` or `poi`
      when the input lacks that directory. */
  lemma OutputsInCreatedDirs(o: Options, clock: nat -> int64, j: Judge, d: Dimension, target: string, p0: int64)
    ensures AllInDirs(ProcessOf(o, clock, j, d, target, p0).1.outputs, CreatedDirs(d, target) - {target})
    ensures d.entities.None? ==> forall k :: k in ProcessOf(o, clock, j, d, target, p0).1.outputs ==>
      !MemFS.StartsWith(k, Resolve(target, "entities") + "/")
    ensures d.poi.None? ==> forall k :: k in ProcessOf(o, clock, j, d, target, p0).1.outputs ==>
      !MemFS.StartsWith(k, Resolve(target, "poi") + "/")
  {
    var dirs := CreatedDirs(d, target) - {target};
    assert Resolve(target, "region") in dirs by {
      assert |Resolve(target, "region")| > |target|;
    }
    if d.regions.Some? {
      var r0 := Run(p0, 0, clock(0), 1, [], [ProgressEvent(DimensionStart, None, None, Some(d.path), None)], map[]);
      assert d.entities.Some? ==> Resolve(target, "entities") in dirs by {
        assert |Resolve(target, "entities")| > |target|;
      }
      assert d.poi.Some? ==> Resolve(target, "poi") in dirs by {
        assert |Resolve(target, "poi")| > |target|;
      }
      RegionsRunInDirs(o, clock, j, d, target, r0, d.regions.value);
    }
    var outs := ProcessOf(o, clock, j, d, target, p0).1.outputs;
    forall k | k in outs
      ensures d.entities.None? ==> !MemFS.StartsWith(k, Resolve(target, "entities") + "/")
      ensures d.poi.None? ==> !MemFS.StartsWith(k, Resolve(target, "poi") + "/")
    {
      var dir, name :| dir in dirs && k == Resolve(dir, name);
      if d.entities.None? {
        if dir == Resolve(target, "region") {
          NotUnderSibling(target, "region", "entities", name);
        } else {
          NotUnderSibling(target, "poi", "entities", name);
        }
      }
      if d.poi.None? {
        if dir == Resolve(target, "region") {
          NotUnderSibling(target, "region", "poi", name);
        } else {
          NotUnderSibling(target, "entities", "poi", name);
        }
      }
    }
  }

  /** `target/sub/name` is not under `target/other/` when the two
      subdirectory names start differently. */
  lemma NotUnderSibling(target: string, sub: string, other: string, name: string)
    requires sub != [] && other != [] && sub[0] != other[0]
    ensures !MemFS.StartsWith(Resolve(Resolve(target, sub), name), Resolve(target, other) + "/")
  {
    var k := Resolve(Resolve(target, sub), name);
    var p := Resolve(target, other) + "/";
    assert k[|target| + 1] == sub[0];
    if |p| <= |k| {
      assert k[..|p|][|target| + 1] == k[|target| + 1];
      assert p[|target| + 1] == other[0];
    }
  }

  /** The region loop only appends events. */
  lemma {:induction false} RegionsRunKeepsEvents(o: Options, clock: nat -> int64, j: Judge, d: Dimension, target: string, r: Run, fs: seq<RegionFile>)
    ensures r.events <= RegionsRun(o, clock, j, d, target, r, fs).events
    decreases |fs|
  {
    if fs != [] {
      var n := |fs| - 1;
      RegionsRunKeepsEvents(o, clock, j, d, target, r, fs[..n]);
      RegionStepEffect(o, clock, j, d, target, RegionsRun(o, clock, j, d, target, r, fs[..n]), fs[n]);
    }
  }

  // ---------------------------------------------------------------------
  // The imperative loop.

  /** The shared `AtomicLong`, as one thread sees it. */
  class ProcessedCounter {
    var value: int64

    constructor (value: int64)
      ensures this.value == value
    {
      this.value := value;
    }

    /** `incrementAndGet`, wrapping at `Long.MAX_VALUE`. */
    method IncrementAndGet() returns (r: int64)
      modifies this
      ensures value == Inc64(old(value)) && r == value
    {
      value := Inc64(value);
      r := value;
    }
  }

  /** The objects a writer updates. */
  ghost function Footprint(w: McaWriter?): set<object>
  {
    if w == null then {} else {w, w.offsets, w.sizes, w.timestamps}
  }

  ghost function WritesOf(cw: McaWriter, ew: McaWriter?, pw: McaWriter?): Writes
    reads cw, ew, pw
  {
    Writes(cw.writes, if ew == null then [] else ew.writes, if pw == null then [] else pw.writes)
  }

  /** The three writers of a region file are valid and separate, and a
      sibling writer exists exactly when its sibling file is usable. */
  ghost predicate WritersReady(x: Context, cw: McaWriter, ew: McaWriter?, pw: McaWriter?)
    reads Footprint(cw), Footprint(ew), Footprint(pw)
  {
    && cw.Valid() && (ew != null ==> ew.Valid()) && (pw != null ==> pw.Valid())
    && (x.entities.Some? <==> ew != null) && (x.poi.Some? <==> pw != null)
    && Footprint(cw) !! Footprint(ew) && Footprint(cw) !! Footprint(pw) && Footprint(ew) !! Footprint(pw)
  }

  /** The counter is none of the writers' objects. */
  ghost predicate Apart(counter: ProcessedCounter, cw: McaWriter, ew: McaWriter?, pw: McaWriter?)
  {
    counter !in Footprint(cw) && counter !in Footprint(ew) && counter !in Footprint(pw)
  }

  /** Lines 90-99. */
  method Throttle(o: Options, clock: nat -> int64, rf: string, counter: ProcessedCounter, r: Run) returns (r': Run)
    requires counter.value == r.processed
    modifies counter
    ensures r' == Tick(o, clock, rf, r) && counter.value == r'.processed
  {
    var processed := counter.IncrementAndGet();
    r' := r.(processed := processed);
    if o.progressIntervalMs > 0 {
      var now := clock(r'.clockReads);
      r' := r'.(clockReads := r'.clockReads + 1);
      if Sub64(now, r'.lastEmit) >= o.progressIntervalMs {
        r' := r'.WithEvent(ChunkEvent(processed, o.totalChunks, rf));
        r' := r'.(lastEmit := now);
      }
    } else if o.progressInterval > 0 && processed % o.progressInterval == 0 {
      r' := r'.WithEvent(ChunkEvent(processed, o.totalChunks, rf));
    }
  }

  /** Lines 72-85 for one sibling: open a reader on the sibling's bytes, look
      up the slot, hand a found entry to the sibling writer. */
  method ForwardSibling(path: string, sib: Option<seq<byte>>, w: McaWriter?, i: SlotIndex,
                        readError: OptimizeError, writeError: OptimizeError) returns (errs: seq<OptimizeError>)
    requires (sib.Some? <==> w != null) && (w != null ==> w.Valid())
    modifies Footprint(w)
    ensures errs == SiblingErrors(SiblingOf(path, sib, i), readError, writeError)
    ensures w != null ==> w.Valid() && w.writes == old(w.writes) + Forwarded(SiblingOf(path, sib, i))
  {
    if sib.None? {
      return [];
    }
    var failed, found := ReadSibling(path, sib.value, i);
    if failed {
      return [readError];
    }
    if found.None? {
      return [];
    }
    var ok := w.WriteEntry(found.value);
    errs := if ok.Err? then [writeError] else [];
  }

  /** What handing the entry `found` of a slot to a sibling writer forwards. */
  function Handed(found: Option<McaEntry>): Sibling
  {
    match found
    case None => Absent
    case Some(e) =>
      match SerializedAt(e.file.data, e.start)
      case Err(_) => WriteFailed
      case Ok(b) => Forward(Put(e.index, e.modified, b))
  }

  /** Lines 73-74 and 79-80: open a reader on the sibling's bytes and look up
      slot `i`; `failed` when either throws. */
  method ReadSibling(path: string, bytes: seq<byte>, i: SlotIndex) returns (failed: bool, found: Option<McaEntry>)
    ensures SiblingOf(path, Some(bytes), i) == if failed then ReadFailed else Handed(found)
    ensures found.Some? ==> fresh(found.value.file)
  {
    var reader := OpenFromBytes(path, bytes);
    if reader.Err? {
      return true, None;
    }
    var got := reader.value.Get(i);
    if got.Err? {
      return true, None;
    }
    failed, found := false, got.value;
  }

  /** Lines 71-85: copy a kept entry to the region writer and forward its slot. */
  method ForwardKept(x: Context, cw: McaWriter, ew: McaWriter?, pw: McaWriter?, e: McaEntry, ghost oc: Outcome)
    returns (errs: seq<OptimizeError>)
    requires WritersReady(x, cw, ew, pw)
    requires oc.record == SerializedAt(e.file.data, e.start)
    requires oc.entity == SiblingOf(x.efile, x.entities, e.index) && oc.poi == SiblingOf(x.pfile, x.poi, e.index)
    modifies e.file, Footprint(cw), Footprint(ew), Footprint(pw)
    ensures WritersReady(x, cw, ew, pw)
    ensures errs == KeptErrors(x, oc)
    ensures WritesOf(cw, ew, pw) == KeptWrites(ChunkOf(e), oc, old(WritesOf(cw, ew, pw)))
  {
    var e1 := WriteKept(x, cw, ew, pw, e, oc.record);
    var e23 := ForwardSiblings(x, cw, ew, pw, e.index, oc);
    errs := e1 + e23;
  }

  /** Line 71: the kept entry goes to the region writer; the sibling
      writers are untouched. */
  method WriteKept(x: Context, cw: McaWriter, ew: McaWriter?, pw: McaWriter?, e: McaEntry, ghost record: Result<seq<byte>, EntryError>)
    returns (errs: seq<OptimizeError>)
    requires WritersReady(x, cw, ew, pw) && record == SerializedAt(e.file.data, e.start)
    modifies e.file, Footprint(cw)
    ensures WritersReady(x, cw, ew, pw)
    ensures WritesOf(cw, ew, pw) == old(WritesOf(cw, ew, pw)).(region := old(cw.writes) + RecordPut(ChunkOf(e), record))
    ensures errs == if record.Err? then [WriteError(x.rf)] else []
  {
    errs := WriteRegion(x, cw, e, record);
  }

  /** Line 71 on the region writer. */
  method WriteRegion(x: Context, cw: McaWriter, e: McaEntry, ghost record: Result<seq<byte>, EntryError>)
    returns (errs: seq<OptimizeError>)
    requires cw.Valid() && record == SerializedAt(e.file.data, e.start)
    modifies e.file, Footprint(cw)
    ensures cw.Valid() && cw.writes == old(cw.writes) + RecordPut(ChunkOf(e), record)
    ensures errs == if record.Err? then [WriteError(x.rf)] else []
  {
    var ok := cw.WriteEntry(e);
    errs := if ok.Err? then [WriteError(x.rf)] else [];
  }

  /** Lines 72-85 for both siblings of a kept entry. */
  method ForwardSiblings(x: Context, cw: McaWriter, ew: McaWriter?, pw: McaWriter?, i: SlotIndex, ghost oc: Outcome)
    returns (errs: seq<OptimizeError>)
    requires WritersReady(x, cw, ew, pw)
    requires oc.entity == SiblingOf(x.efile, x.entities, i) && oc.poi == SiblingOf(x.pfile, x.poi, i)
    modifies Footprint(ew), Footprint(pw)
    ensures WritersReady(x, cw, ew, pw)
    ensures errs == SiblingsErrors(x, oc)
    ensures var w := old(WritesOf(cw, ew, pw));
      WritesOf(cw, ew, pw) == w.(entities := w.entities + Forwarded(oc.entity), poi := w.poi + Forwarded(oc.poi))
  {
    var e2 := ForwardSibling(x.efile, x.entities, ew, i, EntitiesError(x.efile), WriteEntitiesError(x.efile));
    var e3 := ForwardSibling(x.pfile, x.poi, pw, i, PoiError(x.pfile), WritePoiError(x.pfile));
    errs := e2 + e3;
  }

  /** The body of the entry loop. */
  method ProcessEntry(o: Options, clock: nat -> int64, x: Context, counter: ProcessedCounter,
                      cw: McaWriter, ew: McaWriter?, pw: McaWriter?, e: McaEntry, r: Run, ghost oc: Outcome) returns (r': Run)
    requires WritersReady(x, cw, ew, pw) && counter.value == r.processed && Apart(counter, cw, ew, pw)
    requires oc == OutcomeOf(o, x, e.file.data, ChunkOf(e))
    modifies counter, e.file, Footprint(cw), Footprint(ew), Footprint(pw)
    ensures WritersReady(x, cw, ew, pw) && counter.value == r'.processed
    ensures r' == Tick(o, clock, x.rf, Judgement(x, r, oc))
    ensures WritesOf(cw, ew, pw) == WritesAfter(ChunkOf(e), oc, old(WritesOf(cw, ew, pw)))
  {
    r' := JudgeEntry(o, x, cw, ew, pw, e, r, oc);
    assert counter.value == r'.processed;
    ghost var w := WritesOf(cw, ew, pw);
    r' := Throttle(o, clock, x.rf, counter, r');
    assert WritesOf(cw, ew, pw) == w;
  }

  /** Lines 62-89: the pattern loop, then the copy of a kept entry or one
      more removed chunk. */
  method JudgeEntry(o: Options, x: Context, cw: McaWriter, ew: McaWriter?, pw: McaWriter?, e: McaEntry, r: Run, ghost oc: Outcome)
    returns (r': Run)
    requires WritersReady(x, cw, ew, pw) && oc == OutcomeOf(o, x, e.file.data, ChunkOf(e))
    modifies e.file, Footprint(cw), Footprint(ew), Footprint(pw)
    ensures WritersReady(x, cw, ew, pw)
    ensures r' == Judgement(x, r, oc)
    ensures WritesOf(cw, ew, pw) == WritesAfter(ChunkOf(e), oc, old(WritesOf(cw, ew, pw)))
  {
    var keep;
    keep, r' := Keep(o.codecs, o.patterns, x.rf, e, r);
    if keep {
      var errs := ForwardKept(x, cw, ew, pw, e, oc);
      r' := r'.(errors := r'.errors + errs);
    } else {
      r' := r'.(removed := Inc64(r'.removed));
    }
  }

  /** The entry loop of one region file. */
  method ProcessEntries(o: Options, clock: nat -> int64, x: Context, counter: ProcessedCounter,
                        cw: McaWriter, ew: McaWriter?, pw: McaWriter?, file: MemoryAccess,
                        es: seq<McaEntry>, ghost cs: seq<Chunk>, r: Run) returns (r': Run)
    requires WritersReady(x, cw, ew, pw) && counter.value == r.processed && Apart(counter, cw, ew, pw)
    requires |es| == |cs| && forall k :: 0 <= k < |es| ==> ChunkOf(es[k]) == cs[k] && es[k].file == file
    modifies counter, file, Footprint(cw), Footprint(ew), Footprint(pw)
    ensures WritersReady(x, cw, ew, pw) && counter.value == r'.processed
    ensures Pass(r', WritesOf(cw, ew, pw)) == ChunksRun(o, clock, x, OutcomesOf(o, x, file.data), Pass(r, old(WritesOf(cw, ew, pw))), cs)
  {
    ghost var p0 := Pass(r, WritesOf(cw, ew, pw));
    r' := r;
    for i := 0 to |es|
      invariant WritersReady(x, cw, ew, pw) && counter.value == r'.processed
      invariant Pass(r', WritesOf(cw, ew, pw)) == ChunksRun(o, clock, x, OutcomesOf(o, x, file.data), p0, cs[..i])
    {
      assert cs[..i + 1][..i] == cs[..i];
      r' := ProcessEntry(o, clock, x, counter, cw, ew, pw, es[i], r', OutcomesOf(o, x, file.data)(cs[i]));
    }
    assert cs[..|es|] == cs;
  }

  /** Lines 51-103 once the reader is open: list the entries, create the
      writers, run the entry loop, finalize the writers. */
  method ProcessOpened(o: Options, clock: nat -> int64, target: string, x: Context, f: RegionFile,
                       reader: McaReader, counter: ProcessedCounter, r: Run) returns (r': Run)
    requires reader.Valid() && reader.file.data == f.bytes && counter.value == r.processed
    modifies counter, reader, reader.file
    ensures counter.value == r'.processed
    ensures r' == OpenedStep(o, clock, Judged(o), target, x, f, reader.xPos, reader.zPos, r)
  {
    var es, r1;
    ghost var cs;
    es, cs, r1 := ListEntries(x, f, reader, r);
    var cw, ew, pw := OpenWriters(target, f.name, x);
    r' := ProcessEntries(o, clock, x, counter, cw, ew, pw, reader.file, es, cs, r1);
    ghost var oc := Slice(Judged(o), x, f.bytes);
    assert Pass(r', WritesOf(cw, ew, pw)) == ChunksRun(o, clock, x, oc, Pass(r1, Writes([], [], [])), cs);
    r' := FinishWriters(target, f.name, x, cw, ew, pw, r');
    assert r' == FilePass(o, clock, target, x, oc, f.name, r1, cs);
  }

  /** Lines 51-55: the region writer, and a writer for each usable sibling. */
  method OpenWriters(target: string, name: string, x: Context) returns (cw: McaWriter, ew: McaWriter?, pw: McaWriter?)
    ensures WritersReady(x, cw, ew, pw) && WritesOf(cw, ew, pw) == Writes([], [], [])
    ensures fresh(Footprint(cw)) && fresh(Footprint(ew)) && fresh(Footprint(pw))
    ensures cw.path == Resolve(Resolve(target, "region"), name)
    ensures ew != null ==> ew.path == Resolve(Resolve(target, "entities"), name)
    ensures pw != null ==> pw.path == Resolve(Resolve(target, "poi"), name)
  {
    cw := new McaWriter(Resolve(Resolve(target, "region"), name));
    ew := SiblingWriter(x.entities.Some?, Resolve(Resolve(target, "entities"), name));
    assert cw.Valid() && Footprint(cw) !! Footprint(ew);
    pw := SiblingWriter(x.poi.Some?, Resolve(Resolve(target, "poi"), name));
    assert cw.Valid() && (ew != null ==> ew.Valid());
    assert Footprint(cw) !! Footprint(pw) && Footprint(ew) !! Footprint(pw);
  }

  /** Lines 54-55: a writer for a sibling file only when the sibling is there. */
  method SiblingWriter(present: bool, path: string) returns (w: McaWriter?)
    ensures (w != null <==> present) && fresh(Footprint(w))
    ensures w != null ==> w.Valid() && w.writes == [] && w.path == path
  {
    w := null;
    if present {
      w := new McaWriter(path);
    }
  }

  /** Lines 57-60: the entries of the open file, and the chunks they stand for;
      a header that cannot be read is an `Entries` report and no entries. */
  method ListEntries(x: Context, f: RegionFile, reader: McaReader, r: Run)
    returns (es: seq<McaEntry>, ghost cs: seq<Chunk>, r': Run)
    requires reader.Valid() && reader.file.data == f.bytes
    modifies reader, reader.file
    ensures cs == ListedChunks(f.bytes, reader.xPos, reader.zPos)
    ensures |es| == |cs| && forall k :: 0 <= k < |es| ==> ChunkOf(es[k]) == cs[k] && es[k].file == reader.file
    ensures r' == if HeaderOf(f.bytes).Err? then r.WithError(EntriesError(x.rf)) else r
  {
    var entries := reader.Entries();
    es, cs, r' := [], [], r;
    if entries.Err? {
      r' := r'.WithError(EntriesError(x.rf));
    } else {
      es := entries.value;
      cs := ChunksBelow(HeaderOf(f.bytes).value, reader.xPos, reader.zPos, 1024);
      EntriesAsChunks(reader.file, HeaderOf(f.bytes).value, reader.xPos, reader.zPos, 1024);
    }
  }

  /** Lines 101-103: finalize the writers and record their files. */
  method FinishWriters(target: string, name: string, x: Context, cw: McaWriter, ew: McaWriter?, pw: McaWriter?, r: Run) returns (r': Run)
    requires WritersReady(x, cw, ew, pw)
    modifies Footprint(cw), Footprint(ew), Footprint(pw)
    ensures r' == r.(outputs := Finished(r.outputs, target, name, x, old(WritesOf(cw, ew, pw))))
  {
    cw.FinalizeFile();
    var outputs := r.outputs[Resolve(Resolve(target, "region"), name) := cw.file];
    if ew != null {
      ew.FinalizeFile();
      outputs := outputs[Resolve(Resolve(target, "entities"), name) := ew.file];
    }
    if pw != null {
      pw.FinalizeFile();
      outputs := outputs[Resolve(Resolve(target, "poi"), name) := pw.file];
    }
    r' := r.(outputs := outputs);
  }

  /** The body of the region loop for one listed file. */
  method ProcessRegion(o: Options, clock: nat -> int64, d: Dimension, target: string, f: RegionFile,
                       counter: ProcessedCounter, r: Run) returns (r': Run)
    requires counter.value == r.processed
    modifies counter
    ensures counter.value == r'.processed
    ensures r' == RegionStep(o, clock, Judged(o), d, target, r, f)
  {
    var x := ContextOf(d, f.name);
    if !EndsWith(x.rf, ".mca") {
      return r;
    }
    r' := r.WithEvent(ProgressEvent(RegionStart, None, None, Some(x.rf), None));
    if !IsValidMca(f.bytes) {
      r' := r'.WithError(CorruptError(x.rf));
      if !o.strict {
        return;
      }
    }
    var reader := OpenFromBytes(x.rf, f.bytes);
    if reader.Err? {
      r' := r'.WithError(OpenError(x.rf));
      return;
    }
    r' := ProcessOpened(o, clock, target, x, f, reader.value, counter, r');
  }

  /** `DimensionProcessor.process`: the loop over the region listing.  The
      errors, events and written files are what `onError`, `onProgress` and
      the output directory receive. */
  method Process(o: Options, clock: nat -> int64, d: Dimension, target: string, counter: ProcessedCounter)
    returns (result: Result<DimensionResult, ProcessFailure>, dirs: set<string>,
             errors: seq<OptimizeError>, events: seq<ProgressEvent>, outputs: map<string, seq<byte>>)
    modifies counter
    ensures dirs == CreatedDirs(d, target)
    ensures var (res, r) := ProcessOf(o, clock, Judged(o), d, target, old(counter.value));
      && result == res && errors == r.errors && events == r.events && outputs == r.outputs
      && counter.value == r.processed
  {
    dirs := {target};
    dirs := dirs + {Resolve(target, "region")};
    if d.entities.Some? {
      dirs := dirs + {Resolve(target, "entities")};
    }
    if d.poi.Some? {
      dirs := dirs + {Resolve(target, "poi")};
    }
    var lastEmit := clock(0);
    var r := Run(counter.value, 0, lastEmit, 1, [], [ProgressEvent(DimensionStart, None, None, Some(d.path), None)], map[]);
    if d.regions.None? {
      result := Err(NoSuchFile(Resolve(d.path, "region")));
      errors, events, outputs := r.errors, r.events, r.outputs;
      return;
    }
    var fs := d.regions.value;
    ghost var r0 := r;
    for i := 0 to |fs|
      invariant counter.value == r.processed
      invariant r == RegionsRun(o, clock, Judged(o), d, target, r0, fs[..i])
    {
      assert fs[..i + 1][..i] == fs[..i];
      r := ProcessRegion(o, clock, d, target, fs[i], counter, r);
    }
    assert fs[..|fs|] == fs;
    r := r.WithEvent(ProgressEvent(DimensionEnd, None, None, Some(d.path), None));
    result := Ok(DimensionResult(counter.value, r.removed));
    errors, events, outputs := r.errors, r.events, r.outputs;
  }
}
