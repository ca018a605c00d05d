/** The retention patterns (ChunkPattern.kt, InhabitedTimePattern.kt,
    ListPattern.kt): a chunk survives when a pattern says it matches.

    `InhabitedTimePattern` scans the decoded chunk bytes for the NBT long
    tag `InhabitedTime` and compares its value with a threshold; chunks
    whose time cannot be found count as matching unless `removeUnknown`.
    `ListPattern` matches the chunks whose global coordinates are pinned. */
module Patterns {
  import opened Bytes
  import opened Wrappers
  import opened Codecs
  import opened Entry

  /** The NBT tag type of a long. */
  const LONG_TAG: byte := 4

  /** The ASCII bytes of `InhabitedTime`. */
  const NAME: seq<byte> := [0x49, 0x6E, 0x68, 0x61, 0x62, 0x69, 0x74, 0x65, 0x64, 0x54, 0x69, 0x6D, 0x65]

  /** The searched prefix: tag type, big-endian name length 13, name. */
  const PREFIX: seq<byte> := [LONG_TAG, 0x00, 0x0D] + NAME

  /** A position the scan accepts: the prefix starts there and the eight
      bytes of the value follow inside the buffer. */
  predicate Candidate(data: seq<byte>, i: int)
  {
    0 <= i && i + |PREFIX| + 8 <= |data| && data[i..i + |PREFIX|] == PREFIX
  }

  /** The big-endian long just after the prefix at `i`. */
  function ValueAt(data: seq<byte>, i: nat): int64
    requires i + |PREFIX| + 8 <= |data|
  {
    Int64BE(data[i + |PREFIX|..i + |PREFIX| + 8])
  }

  /** The value after the first candidate at or after `i`. */
  function FindFrom(data: seq<byte>, i: nat): Option<int64>
    decreases |data| - i
  {
    if i + |PREFIX| + 8 > |data| then None
    else if data[i..i + |PREFIX|] == PREFIX then Some(ValueAt(data, i))
    else FindFrom(data, i + 1)
  }

  /** What `findInhabitedFast` returns for `data`. */
  function FindInhabited(data: seq<byte>): Option<int64>
  {
    FindFrom(data, 0)
  }

  /** The scan yields nothing exactly when no position is a candidate. */
  lemma {:induction false} FindFromNone(data: seq<byte>, i: nat)
    ensures FindFrom(data, i).None? <==> forall j :: i <= j ==> !Candidate(data, j)
    decreases |data| - i
  {
    if i + |PREFIX| + 8 > |data| {
      assert forall j :: i <= j ==> !Candidate(data, j);
    } else if data[i..i + |PREFIX|] == PREFIX {
      assert Candidate(data, i);
    } else {
      FindFromNone(data, i + 1);
      assert !Candidate(data, i);
    }
  }

  /** The scan yields the value after the first candidate. */
  lemma {:induction false} FindFromFirst(data: seq<byte>, i: nat, j: nat)
    requires i <= j && Candidate(data, j)
    requires forall k :: i <= k < j ==> !Candidate(data, k)
    ensures FindFrom(data, i) == Some(ValueAt(data, j))
    decreases j - i
  {
    if i < j {
      assert !Candidate(data, i);
      FindFromFirst(data, i + 1, j);
    }
  }

  /** `findInhabitedFast` gives `null` iff the prefix occurs nowhere with
      eight bytes after it. */
  lemma FindInhabitedNone(data: seq<byte>)
    ensures FindInhabited(data).None? <==> forall j :: 0 <= j ==> !Candidate(data, j)
  {
    FindFromNone(data, 0);
  }

  /** `findInhabitedFast` gives the value after the first occurrence. */
  lemma FindInhabitedFirst(data: seq<byte>, j: nat)
    requires Candidate(data, j)
    requires forall k :: 0 <= k < j ==> !Candidate(data, k)
    ensures FindInhabited(data) == Some(ValueAt(data, j))
  {
    FindFromFirst(data, 0, j);
  }

  /** `findInhabitedFast`: compare the prefix at each position in turn,
      stopping at the first position that matches. */
  method FindInhabitedFast(data: seq<byte>) returns (r: Option<int64>)
    ensures r == FindInhabited(data)
  {
    var plen := |PREFIX|;
    var i := 0;
    while i + plen + 8 <= |data|
      invariant FindFrom(data, i) == FindInhabited(data)
      decreases |data| - i
    {
      var matched := PrefixAt(data, i);
      if matched {
        var v := Int64BE(data[i + plen..i + plen + 8]);
        return Some(v);
      }
      i := i + 1;
    }
    r := None;
  }

  /** The inner loop of `findInhabitedFast`: byte by byte, the first
      difference ending the comparison. */
  method PrefixAt(data: seq<byte>, i: nat) returns (matched: bool)
    requires i + |PREFIX| <= |data|
    ensures matched <==> data[i..i + |PREFIX|] == PREFIX
  {
    var plen := |PREFIX|;
    matched := true;
    for j := 0 to plen
      invariant matched && data[i..i + j] == PREFIX[..j]
    {
      if data[i + j] != PREFIX[j] {
        assert data[i..i + plen][j] != PREFIX[j];
        matched := false;
        return;
      }
      assert data[i..i + j + 1] == data[i..i + j] + [data[i + j]];
      assert PREFIX[..j + 1] == PREFIX[..j] + [PREFIX[j]];
    }
    assert PREFIX[..plen] == PREFIX;
  }

  /** `InhabitedTimePattern.matches` as a function of the region file's
      bytes and the record's offset: external records and records whose
      time is unknown (no decoded bytes, no tag) give `!removeUnknown`, a
      found time is compared with the threshold, and a failing read or
      decoder makes the call throw. */
  function InhabitedMatchesAt(c: Codecs, threshold: int64, removeUnknown: bool, data: seq<byte>, start: int): Result<bool, EntryError>
  {
    match IsExternalAt(data, start)
    case Err(e) => Err(e)
    case Ok(external) =>
      if external then Ok(!removeUnknown)
      else
        match AllDataAt(c, data, start)
        case Err(e) => Err(e)
        case Ok(decoded) =>
          if decoded == [] then Ok(!removeUnknown)
          else
            match FindInhabited(decoded)
            case None => Ok(!removeUnknown)
            case Some(v) => Ok(v >= threshold)
  }

  /** The time the pattern decides on, when it can find one. */
  function KnownTime(c: Codecs, data: seq<byte>, start: int): Option<int64>
  {
    match IsExternalAt(data, start)
    case Ok(false) =>
      (match AllDataAt(c, data, start)
       case Ok(decoded) => if decoded == [] then None else FindInhabited(decoded)
       case Err(_) => None)
    case _ => None
  }

  /** The decision of the pattern: a known time is kept iff it reaches the
      threshold, an unknown time iff unknown chunks are not removed. */
  lemma InhabitedDecision(c: Codecs, threshold: int64, removeUnknown: bool, data: seq<byte>, start: int)
    requires InhabitedMatchesAt(c, threshold, removeUnknown, data, start).Ok?
    ensures var keep := InhabitedMatchesAt(c, threshold, removeUnknown, data, start).value;
      match KnownTime(c, data, start)
      case Some(v) => keep == (v >= threshold)
      case None => keep == !removeUnknown
  {
  }

  /** With `removeUnknown` fixed, raising the threshold never keeps a chunk
      that a lower threshold removed, and never changes whether the call
      throws. */
  lemma InhabitedMonotonic(c: Codecs, low: int64, high: int64, removeUnknown: bool, data: seq<byte>, start: int)
    requires low <= high
    ensures InhabitedMatchesAt(c, high, removeUnknown, data, start) == Ok(true)
        ==> InhabitedMatchesAt(c, low, removeUnknown, data, start) == Ok(true)
    ensures InhabitedMatchesAt(c, high, removeUnknown, data, start).Err?
        <==> InhabitedMatchesAt(c, low, removeUnknown, data, start).Err?
  {
  }

  /** `coords.any { it.first == gx && it.second == gz }`. */
  function AnyCoord(coords: seq<(int32, int32)>, gx: int32, gz: int32): bool
  {
    if coords == [] then false
    else (coords[0].0 == gx && coords[0].1 == gz) || AnyCoord(coords[1..], gx, gz)
  }

  /** `ListPattern.matches`: the entry's global chunk coordinates are pinned. */
  function ListMatches(coords: seq<(int32, int32)>, e: McaEntry): bool
  {
    AnyCoord(coords, e.GlobalX(), e.GlobalZ())
  }

  lemma {:induction false} AnyCoordMember(coords: seq<(int32, int32)>, gx: int32, gz: int32)
    ensures AnyCoord(coords, gx, gz) <==> (gx, gz) in coords
  {
    if coords != [] {
      AnyCoordMember(coords[1..], gx, gz);
      assert coords == [coords[0]] + coords[1..];
    }
  }

  /** A list pattern matches iff the pair of global coordinates is in the
      list; so an empty list never matches, and the order and repetition of
      the pins do not matter. */
  lemma ListMembership(coords: seq<(int32, int32)>, e: McaEntry)
    ensures ListMatches(coords, e) <==> (e.GlobalX(), e.GlobalZ()) in coords
    ensures coords == [] ==> !ListMatches(coords, e)
  {
    AnyCoordMember(coords, e.GlobalX(), e.GlobalZ());
  }

  lemma ListOrderFree(a: seq<(int32, int32)>, b: seq<(int32, int32)>, e: McaEntry)
    requires forall p :: p in a <==> p in b
    ensures ListMatches(a, e) == ListMatches(b, e)
  {
    ListMembership(a, e);
    ListMembership(b, e);
  }

  /** Only the coordinates are read: two entries of the same slot of the same
      region agree, whatever their files hold. */
  lemma ListReadsCoordinates(coords: seq<(int32, int32)>, e1: McaEntry, e2: McaEntry)
    requires e1.regionX == e2.regionX && e1.regionZ == e2.regionZ && e1.index == e2.index
    ensures ListMatches(coords, e1) == ListMatches(coords, e2)
  {
  }

  /** The two implementations of `ChunkPattern`. */
  datatype ChunkPattern =
    | InhabitedTimePattern(threshold: int64, removeUnknown: bool)
    | ListPattern(coords: seq<(int32, int32)>)

  /** What `p.matches` decides for the record at `start` of the region bytes
      `data` whose global chunk coordinates are `(gx, gz)`; `Err` where the
      call throws. */
  function PatternAt(c: Codecs, p: ChunkPattern, data: seq<byte>, start: int, gx: int32, gz: int32): Result<bool, EntryError>
  {
    match p
    case InhabitedTimePattern(threshold, removeUnknown) => InhabitedMatchesAt(c, threshold, removeUnknown, data, start)
    case ListPattern(coords) => Ok(AnyCoord(coords, gx, gz))
  }

  /** `p.matches(entry)`. */
  function MatchesOf(c: Codecs, p: ChunkPattern, e: McaEntry): Result<bool, EntryError>
  {
    PatternAt(c, p, e.file.data, e.start, e.GlobalX(), e.GlobalZ())
  }

  /** `InhabitedTimePattern.matches`: reads the record through the entry's
      cursor. */
  method InhabitedMatches(c: Codecs, threshold: int64, removeUnknown: bool, e: McaEntry) returns (r: Result<bool, EntryError>)
    modifies e.file
    ensures r == InhabitedMatchesAt(c, threshold, removeUnknown, e.file.data, e.start)
  {
    var external := e.IsExternal();
    if external.Err? {
      return Err(external.error);
    }
    if external.value {
      return Ok(!removeUnknown);
    }
    var data := e.AllDataUncompressed(c);
    if data.Err? {
      return Err(data.error);
    }
    if |data.value| == 0 {
      return Ok(!removeUnknown);
    }
    var t := FindInhabitedFast(data.value);
    if t.Some? {
      r := Ok(t.value >= threshold);
    } else {
      r := Ok(!removeUnknown);
    }
  }

  /** `ChunkPattern.matches`, dispatched on the pattern. */
  method Matches(c: Codecs, p: ChunkPattern, e: McaEntry) returns (r: Result<bool, EntryError>)
    modifies e.file
    ensures r == MatchesOf(c, p, e)
  {
    match p
    case InhabitedTimePattern(threshold, removeUnknown) =>
      r := InhabitedMatches(c, threshold, removeUnknown, e);
    case ListPattern(coords) =>
      r := Ok(ListMatches(coords, e));
  }
}
