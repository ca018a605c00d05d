/** `MemoryFS`, the in-memory file system of the tests and of in-memory
    processing (FileSystem.kt).  Paths are their `toString()` strings: a set
    of directory paths and a map from file paths to contents.  Listings are
    produced by iterating a snapshot of the set and of the map's keys, in
    whatever order the hash containers give them. */
module MemFS {
  import opened Bytes
  import opened Wrappers

  predicate StartsWith(s: string, prefix: string)
  {
    |prefix| <= |s| && s[..|prefix|] == prefix
  }

  /** `removePrefix`. */
  function RemovePrefix(s: string, prefix: string): string
  {
    if StartsWith(s, prefix) then s[|prefix|..] else s
  }

  /** `trimEnd('/')`. */
  function TrimEndSlash(s: string): (r: string)
    ensures StartsWith(s, r)
    ensures r == [] || r[|r| - 1] != '/'
    ensures forall i :: |r| <= i < |s| ==> s[i] == '/'
  {
    if s != [] && s[|s| - 1] == '/' then
      var r := TrimEndSlash(s[..|s| - 1]);
      assert s[..|r|] == s[..|s| - 1][..|r|];
      r
    else s
  }

  /** Whether `list(path)` reports `q`, `base` being the trimmed path: `q`
      starts with `base`, differs from it, and what is left after removing
      `base/` contains no `/`. */
  predicate IsListed(base: string, q: string)
  {
    StartsWith(q, base) && q != base && '/' !in RemovePrefix(q, base + "/")
  }

  /** Whether `walk(path)` reports `q`. */
  predicate IsWalked(base: string, q: string)
  {
    StartsWith(q, base)
  }

  datatype Mode = ListMode | WalkMode

  predicate Selected(mode: Mode, base: string, q: string)
  {
    match mode
    case ListMode => IsListed(base, q)
    case WalkMode => IsWalked(base, q)
  }

  predicate Distinct(s: seq<string>)
  {
    forall i, j :: 0 <= i < j < |s| ==> s[i] != s[j]
  }

  /** The `forEach` over one snapshot: every selected path of `pool`, once
      each, in an unspecified order. */
  method SelectFrom(pool: set<string>, mode: Mode, base: string) returns (out: seq<string>)
    ensures forall q :: q in out <==> q in pool && Selected(mode, base, q)
    ensures Distinct(out)
  {
    var snapshot := pool;
    out := [];
    while snapshot != {}
      invariant snapshot <= pool
      invariant forall q :: q in out <==> q in pool - snapshot && Selected(mode, base, q)
      invariant Distinct(out)
      decreases |snapshot|
    {
      var q :| q in snapshot;
      if Selected(mode, base, q) {
        out := out + [q];
      }
      snapshot := snapshot - {q};
    }
  }

  datatype FsError =
    | SourceNotFound(src: string)   // IOException("source not found")
    | DestExists(dst: string)       // IOException("dest exists")

  class MemoryFS {
    var dirs: set<string>
    var files: map<string, seq<byte>>

    constructor ()
      ensures dirs == {} && files == map[]
    {
      dirs := {};
      files := map[];
    }

    /** `isDirectory`. */
    function IsDirectory(path: string): bool
      reads this
    {
      path in dirs
    }

    /** `exists`: a directory or a file. */
    function Exists(path: string): bool
      reads this
    {
      path in dirs || path in files
    }

    /** `read`: the contents of a file, `None` for anything else. */
    function Read(path: string): (r: Option<seq<byte>>)
      reads this
      ensures r.Some? <==> path in files
      ensures r.Some? ==> r.value == files[path]
    {
      if path in files then Some(files[path]) else None
    }

    /** `list(path)`: the listed directories (the first `nDirs` elements),
      then the listed files; a path that is both a directory and a file
      appears in both parts. */
    method List(path: string) returns (r: seq<string>, ghost nDirs: nat)
      ensures nDirs <= |r|
      ensures var base := TrimEndSlash(path);
        forall q :: q in r[..nDirs] <==> q in dirs && IsListed(base, q)
      ensures var base := TrimEndSlash(path);
        forall q :: q in r[nDirs..] <==> q in files && IsListed(base, q)
      ensures Distinct(r[..nDirs]) && Distinct(r[nDirs..])
      ensures forall q :: q in r <==>
        (q in dirs || q in files) && IsListed(TrimEndSlash(path), q)
    {
      var base := TrimEndSlash(path);
      var ds := SelectFrom(dirs, ListMode, base);
      var fs := SelectFrom(files.Keys, ListMode, base);
      r, nDirs := ds + fs, |ds|;
      assert r[..nDirs] == ds && r[nDirs..] == fs;
    }

    /** `walk(path)`: every directory, then every file, whose path starts
      with the trimmed `path`, the path itself included. */
    method Walk(path: string) returns (r: seq<string>, ghost nDirs: nat)
      ensures nDirs <= |r|
      ensures var base := TrimEndSlash(path);
        forall q :: q in r[..nDirs] <==> q in dirs && IsWalked(base, q)
      ensures var base := TrimEndSlash(path);
        forall q :: q in r[nDirs..] <==> q in files && IsWalked(base, q)
      ensures Distinct(r[..nDirs]) && Distinct(r[nDirs..])
      ensures forall q :: q in r <==>
        (q in dirs || q in files) && IsWalked(TrimEndSlash(path), q)
    {
      var base := TrimEndSlash(path);
      var ds := SelectFrom(dirs, WalkMode, base);
      var fs := SelectFrom(files.Keys, WalkMode, base);
      r, nDirs := ds + fs, |ds|;
      assert r[..nDirs] == ds && r[nDirs..] == fs;
    }

    /** `createDirectories`: adds exactly `path`, not its parents. */
    method CreateDirectories(path: string)
      modifies this
      ensures dirs == old(dirs) + {path} && files == old(files)
    {
      dirs := dirs + {path};
    }

    /** `deleteIfExists`: `path` leaves both the directories and the files. */
    method DeleteIfExists(path: string)
      modifies this
      ensures files == old(files) - {path} && dirs == old(dirs) - {path}
    {
      files := files - {path};
      dirs := dirs - {path};
    }

    /** `copy`: a missing source, or an existing destination when replacing
      is not allowed, throws and changes nothing; otherwise the destination
      gets the source's bytes. */
    method Copy(src: string, dst: string, replaceExisting: bool) returns (r: Result<(), FsError>)
      modifies this
      ensures src !in old(files) ==> r == Err(SourceNotFound(src))
      ensures src in old(files) && !replaceExisting && dst in old(files) ==> r == Err(DestExists(dst))
      ensures r.Err? ==> files == old(files)
      ensures r.Ok? <==> src in old(files) && (replaceExisting || dst !in old(files))
      ensures r.Ok? ==> files == old(files)[dst := old(files)[src]]
      ensures dirs == old(dirs)
    {
      if src !in files {
        return Err(SourceNotFound(src));
      }
      var data := files[src];
      if !replaceExisting && dst in files {
        return Err(DestExists(dst));
      }
      files := files[dst := data];
      r := Ok(());
    }

    /** `write`: `read(path)` afterwards gives `bytes`; nothing else changes. */
    method Write(path: string, bytes: seq<byte>)
      modifies this
      ensures files == old(files)[path := bytes] && dirs == old(dirs)
      ensures Read(path) == Some(bytes)
    {
      files := files[path := bytes];
    }

    /** `deleteTreeWithRetry` on the in-memory part: every walked path is
      deleted, everything else is kept as it was, and the root no longer
      exists. */
    method DeleteTreeWithRetry(root: string, attempts: int, sleepMs: int) returns (r: bool)
      modifies this
      ensures r
      ensures forall q :: q in dirs <==> q in old(dirs) && !StartsWith(q, TrimEndSlash(root))
      ensures forall q :: q in files <==> q in old(files) && !StartsWith(q, TrimEndSlash(root))
      ensures forall q :: q in files ==> files[q] == old(files)[q]
      ensures !Exists(root)
    {
      var base := TrimEndSlash(root);
      var targets, nDirs := Walk(root);
      assert forall q :: q in targets <==> (q in dirs || q in files) && StartsWith(q, base) by {
        assert targets == targets[..nDirs] + targets[nDirs..];
      }
      DeleteAll(targets);
      r := true;
    }

    /** `deleteIfExists` on each path in turn. */
    method DeleteAll(targets: seq<string>)
      modifies this
      ensures forall q :: q in dirs <==> q in old(dirs) && q !in targets
      ensures forall q :: q in files <==> q in old(files) && q !in targets
      ensures forall q :: q in files ==> files[q] == old(files)[q]
    {
      for i := 0 to |targets|
        invariant forall q :: q in dirs <==> q in old(dirs) && q !in targets[..i]
        invariant forall q :: q in files <==> q in old(files) && q !in targets[..i]
        invariant forall q :: q in files ==> files[q] == old(files)[q]
      {
        DeleteIfExists(targets[i]);
        assert targets[..i + 1] == targets[..i] + [targets[i]];
      }
      assert targets[..|targets|] == targets;
    }
  }

  /** `list` compares strings, not path components: for a relative base, a
      sibling whose name extends the base name is reported as a child. */
  lemma ListSharesPrefix()
    ensures IsListed("region", "region2")
    ensures !IsListed("/w/region", "/w/region2")
    ensures IsListed("/w/region", "/w/region/r.0.0.mca")
    ensures !IsListed("/w/region", "/w/region/sub/a.mca")
  {
    RelativeSibling();
    AbsoluteSibling();
    DirectChild();
    Grandchild();
  }

  lemma RelativeSibling()
    ensures IsListed("region", "region2")
  {
    assert !StartsWith("region2", "region/") by {
      assert "region2"[6] != "region/"[6];
    }
  }

  lemma AbsoluteSibling()
    ensures !IsListed("/w/region", "/w/region2")
  {
    assert !StartsWith("/w/region2", "/w/region/") by {
      assert "/w/region2"[9] != "/w/region/"[9];
    }
    assert "/w/region2"[0] == '/';
  }

  lemma DirectChild()
    ensures IsListed("/w/region", "/w/region/r.0.0.mca")
  {
    assert RemovePrefix("/w/region/r.0.0.mca", "/w/region/") == "r.0.0.mca";
  }

  lemma Grandchild()
    ensures !IsListed("/w/region", "/w/region/sub/a.mca")
  {
    assert RemovePrefix("/w/region/sub/a.mca", "/w/region/") == "sub/a.mca";
    assert "sub/a.mca"[3] == '/';
  }

  /** A path listed under `base` that lies below `base/` is a direct child:
      `base/` followed by a name without `/`. */
  lemma ListedBelowIsChild(base: string, q: string)
    requires IsListed(base, q) && StartsWith(q, base + "/")
    ensures q == base + "/" + q[|base| + 1..] && '/' !in q[|base| + 1..]
  {
  }
}
