/**
 * The block lifecycle protocol: uploading a local block directory so that
 * meta.json appears last, downloading a block while skipping files whose
 * hash is unchanged, deleting a block with meta.json first and the deletion
 * mark last, the three lifecycle marks, and the file manifest (`files`)
 * recorded in meta.json.
 */
module Block {
  import opened Wrappers
  import opened Paths
  import opened ObjStore
  import opened LocalFs
  import opened Metadata
  import opened Transfer

  const IndexFilename := "index"
  const IndexHeaderFilename := "index-header"
  const ChunksDirname := "chunks"

  const DeletionMarkFilename := "deletion-mark.json"
  const NoCompactMarkFilename := "no-compact-mark.json"
  const NoDownsampleMarkFilename := "no-downsample-mark.json"
  const DeletionMarkVersion1 := 1
  const NoCompactMarkVersion1 := 1
  const NoDownsampleMarkVersion1 := 1

  /** The 32 characters of the ULID text encoding (Crockford base32). */
  const UlidAlphabet := "0123456789ABCDEFGHJKMNPQRSTVWXYZ"

  /** The canonical text of a ULID, as `ulid.ULID.String` renders it. */
  type BlockId = s: string | |s| == 26 && forall i :: 0 <= i < |s| ==> s[i] in UlidAlphabet
    witness "00000000000000000000000000"

  /** `ulid.Parse`: the block id a name denotes, if any. It is not modelled further. */
  type UlidParser = string -> Option<BlockId>

  /** The key of object `name` inside the block's prefix (path.Join(id, name)). */
  function BlockKey(id: BlockId, name: string): string {
    id + "/" + name
  }

  predicate IsChunkKey(id: BlockId, k: string) {
    StartsWith(k, BlockKey(id, ChunksDirname) + "/")
  }

  lemma BlockIdHasNoSlash(id: BlockId)
    ensures '/' !in id
  {
    assert '/' !in UlidAlphabet;
  }

  /** The keys of one block's fixed objects are distinct and none is a chunk key. */
  lemma FixedKeysDistinct(id: BlockId)
    ensures !IsChunkKey(id, BlockKey(id, IndexFilename)) && !IsChunkKey(id, BlockKey(id, MetaFilename))
    ensures BlockKey(id, IndexFilename) != BlockKey(id, MetaFilename)
    ensures BlockKey(id, MetaFilename) != BlockKey(id, DeletionMarkFilename)
  {
    assert BlockKey(id, IndexFilename)[27] == 'i';
    assert BlockKey(id, MetaFilename)[27] == 'm';
    assert BlockKey(id, DeletionMarkFilename)[27] == 'd';
    assert (BlockKey(id, ChunksDirname) + "/")[27] == 'c';
  }

  // ---------------------------------------------------------------------
  // The file manifest

  /** Entries ordered by RelPath with no two equal (strings.Compare(a, b) < 0 between neighbours). */
  predicate SortedByPath(s: seq<File>) {
    forall i, j :: 0 <= i < j < |s| ==> Less(s[i].relPath, s[j].relPath)
  }

  predicate DistinctPaths(s: seq<File>) {
    forall i, j :: 0 <= i < j < |s| ==> s[i].relPath != s[j].relPath
  }

  /** `f` inserted into `s` before the first entry whose path is greater. */
  function InsertByPath(s: seq<File>, f: File): (r: seq<File>)
    ensures multiset(r) == multiset(s) + multiset{f}
  {
    if s == [] then [f]
    else if Less(f.relPath, s[0].relPath) then [f] + s
    else
      assert s == [s[0]] + s[1..];
      [s[0]] + InsertByPath(s[1..], f)
  }

  lemma {:induction false} InsertByPathSorted(s: seq<File>, f: File)
    requires SortedByPath(s)
    requires forall i :: 0 <= i < |s| ==> s[i].relPath != f.relPath
    ensures SortedByPath(InsertByPath(s, f))
    decreases |s|
  {
    if s == [] {
    } else if Less(f.relPath, s[0].relPath) {
      forall j | 0 <= j < |s|
        ensures Less(f.relPath, s[j].relPath)
      {
        if j > 0 {
          LessTransitive(f.relPath, s[0].relPath, s[j].relPath);
        }
      }
      ConsSorted(f, s);
    } else {
      LessTotal(s[0].relPath, f.relPath);
      InsertByPathSorted(s[1..], f);
      InsertAboveHead(s, f);
      ConsSorted(s[0], InsertByPath(s[1..], f));
    }
  }

  /** An entry below every entry of a sorted list may go in front of it. */
  lemma ConsSorted(x: File, t: seq<File>)
    requires SortedByPath(t)
    requires forall j :: 0 <= j < |t| ==> Less(x.relPath, t[j].relPath)
    ensures SortedByPath([x] + t)
  {
    forall i, j | 0 <= i < j < |[x] + t|
      ensures Less(([x] + t)[i].relPath, ([x] + t)[j].relPath)
    {
      assert ([x] + t)[j] == t[j - 1];
      if i > 0 {
        assert ([x] + t)[i] == t[i - 1];
      }
    }
  }

  /** Inserting an entry above the head into the tail keeps every entry above the head. */
  lemma InsertAboveHead(s: seq<File>, f: File)
    requires SortedByPath(s) && s != [] && Less(s[0].relPath, f.relPath)
    ensures forall j :: 0 <= j < |InsertByPath(s[1..], f)| ==> Less(s[0].relPath, InsertByPath(s[1..], f)[j].relPath)
  {
    var t := InsertByPath(s[1..], f);
    forall j | 0 <= j < |t|
      ensures Less(s[0].relPath, t[j].relPath)
    {
      assert t[j] in multiset(t);
      if t[j] != f {
        assert t[j] in multiset(s[1..]);
        var k :| 0 <= k < |s[1..]| && s[1..][k] == t[j];
        assert s[k + 1] == t[j];
      }
    }
  }

  /** sort.Slice by RelPath (insertion sort; with distinct paths every sort gives this result). */
  function SortByRelPath(s: seq<File>): (r: seq<File>)
    ensures multiset(r) == multiset(s)
  {
    if s == [] then []
    else
      assert s == s[..|s| - 1] + [s[|s| - 1]];
      InsertByPath(SortByRelPath(s[..|s| - 1]), s[|s| - 1])
  }

  /** Sorting keeps exactly the entries it was given. */
  lemma SortedSameMembers(s: seq<File>)
    ensures forall f :: f in SortByRelPath(s) <==> f in s
  {
    var r := SortByRelPath(s);
    forall f
      ensures f in r <==> f in s
    {
      assert f in r <==> f in multiset(r);
    }
  }

  /** Sorting entries with distinct paths orders them strictly and loses or adds none. */
  lemma {:induction false} SortByRelPathSorted(s: seq<File>)
    requires DistinctPaths(s)
    ensures SortedByPath(SortByRelPath(s))
    ensures forall f :: f in SortByRelPath(s) <==> f in s
    decreases |s|
  {
    SortedSameMembers(s);
    if s != [] {
      var init := s[..|s| - 1];
      var last := s[|s| - 1];
      SortByRelPathSorted(init);
      var t := SortByRelPath(init);
      forall i | 0 <= i < |t|
        ensures t[i].relPath != last.relPath
      {
        assert t[i] in init;
        var k :| 0 <= k < |init| && init[k] == t[i];
        assert s[k] == t[i];
      }
      InsertByPathSorted(t, last);
    }
  }

  function ChunksDir(blockDir: string): (d: string)
    ensures d != ""
  {
    Join(blockDir, ChunksDirname)
  }

  /** The size os.Stat reports for `p`: a file's length, the filesystem's directory size, 0 when absent. */
  function SizeOf(fs: FileSystem, p: string): int
    reads fs
  {
    if fs.IsFile(p) then |fs.entries[p].data| else if fs.IsDir(p) then fs.dirSize else 0
  }

  /** The hash recorded for `p`: computed only when a hash function is set and `p` is a regular file. */
  function HashOf(fs: FileSystem, p: string, hf: HashFunc, sha256: seq<byte> -> string): Option<ObjectHash>
    reads fs
  {
    if hf != NoneFunc && fs.IsFile(p) && CalculateHash(fs.entries, p, hf, sha256).Ok? then Some(CalculateHash(fs.entries, p, hf, sha256).value)
    else None
  }

  /** The entry for name `n` of the chunks directory `chunksDir`. */
  function ChunkEntry(fs: FileSystem, chunksDir: string, n: string, hf: HashFunc, sha256: seq<byte> -> string): File
    reads fs
  {
    var p := Join(chunksDir, n);
    File(Join(ChunksDirname, n), SizeOf(fs, p), HashOf(fs, p, hf, sha256))
  }

  function IndexEntry(fs: FileSystem, blockDir: string, hf: HashFunc, sha256: seq<byte> -> string): File
    reads fs
  {
    var p := Join(blockDir, IndexFilename);
    File(IndexFilename, SizeOf(fs, p), HashOf(fs, p, hf, sha256))
  }

  /** meta.json's own entry: its contents are not final yet, so no size and no hash. */
  const MetaEntry := File(MetaFilename, 0, None)

  /** The entries GatherFileStats reports: one per chunks-dir entry, the index, and meta.json. */
  function ExpectedStats(fs: FileSystem, blockDir: string, hf: HashFunc, sha256: seq<byte> -> string): set<File>
    reads fs
  {
    (set n | n in fs.ChildNames(ChunksDir(blockDir)) :: ChunkEntry(fs, ChunksDir(blockDir), n, hf, sha256))
    + {IndexEntry(fs, blockDir, hf, sha256), MetaEntry}
  }

  /** What GatherFileStats needs: the chunks directory, a usable hash function and both index and meta.json. */
  predicate StatsAvailable(fs: FileSystem, blockDir: string, hf: HashFunc)
    reads fs
  {
    fs.IsDir(ChunksDir(blockDir))
    && (hf == NoneFunc || hf == SHA256Func)
    && Join(blockDir, IndexFilename) in fs.entries
    && (hf == SHA256Func ==> fs.IsFile(Join(blockDir, IndexFilename)))
    && Join(blockDir, MetaFilename) in fs.entries
  }

  lemma JoinChunks(n: string)
    ensures Join(ChunksDirname, n) == "chunks/" + n
  {
    assert TrimTrailingSlashes(ChunksDirname) == ChunksDirname;
  }

  /** A chunk entry's path lies in the chunks directory; it has a hash only when one is set and the entry is a file. */
  lemma ChunkEntryShape(fs: FileSystem, blockDir: string, n: string, hf: HashFunc, sha256: seq<byte> -> string)
    ensures var f := ChunkEntry(fs, ChunksDir(blockDir), n, hf, sha256);
      StartsWith(f.relPath, "chunks/") && f.relPath != IndexFilename && f.relPath != MetaFilename &&
      (f.hash.Some? ==> hf != NoneFunc && fs.IsFile(Join(blockDir, f.relPath)))
  {
    JoinChunks(n);
    ChunkPathJoin(blockDir, n);
    var f := ChunkEntry(fs, ChunksDir(blockDir), n, hf, sha256);
    assert f.relPath[0] == 'c';
  }

  /**
   * The manifest's shape: the index and meta.json entries are the only ones
   * with those paths, meta.json's has size 0 and no hash, and a hash appears
   * only when a hash function is set and never on a directory.
   */
  lemma ExpectedStatsShape(fs: FileSystem, blockDir: string, hf: HashFunc, sha256: seq<byte> -> string)
    ensures IndexEntry(fs, blockDir, hf, sha256) in ExpectedStats(fs, blockDir, hf, sha256)
    ensures MetaEntry in ExpectedStats(fs, blockDir, hf, sha256)
    ensures forall f :: f in ExpectedStats(fs, blockDir, hf, sha256) && f.relPath == IndexFilename ==>
              f == IndexEntry(fs, blockDir, hf, sha256)
    ensures forall f :: f in ExpectedStats(fs, blockDir, hf, sha256) && f.relPath == MetaFilename ==>
              f == MetaEntry && f.sizeBytes == 0 && f.hash.None?
    ensures forall f :: f in ExpectedStats(fs, blockDir, hf, sha256) && f.hash.Some? ==>
              hf != NoneFunc && fs.IsFile(Join(blockDir, f.relPath))
    ensures forall n :: n in fs.ChildNames(ChunksDir(blockDir)) ==>
              ChunkEntry(fs, ChunksDir(blockDir), n, hf, sha256) in ExpectedStats(fs, blockDir, hf, sha256)
  {
    var all := ExpectedStats(fs, blockDir, hf, sha256);
    forall f | f in all && f != IndexEntry(fs, blockDir, hf, sha256) && f != MetaEntry
      ensures f.relPath != IndexFilename && f.relPath != MetaFilename
      ensures f.hash.Some? ==> hf != NoneFunc && fs.IsFile(Join(blockDir, f.relPath))
    {
      var n :| n in fs.ChildNames(ChunksDir(blockDir)) && f == ChunkEntry(fs, ChunksDir(blockDir), n, hf, sha256);
      ChunkEntryShape(fs, blockDir, n, hf, sha256);
    }
  }

  /** The chunk file a chunk entry's RelPath points at, joined onto the block directory. */
  lemma ChunkPathJoin(blockDir: string, n: string)
    ensures Join(blockDir, Join(ChunksDirname, n)) == Join(ChunksDir(blockDir), n)
  {
    JoinChunks(n);
    var x := if blockDir == "" then "" else TrimTrailingSlashes(blockDir) + "/";
    assert Join(blockDir, "chunks/" + n) == x + "chunks/" + n;
    assert ChunksDir(blockDir) == x + "chunks";
    assert TrimTrailingSlashes(x + "chunks") == x + "chunks";
  }

  datatype StatsError = ReadChunksDir(cause: FsError) | HashFailed(path: string) | StatFailed(path: string)

  /** The entries for the first `n` names of the chunks-dir listing `names`, in listing order. */
  function ChunkEntries(fs: FileSystem, chunksDir: string, names: seq<string>, n: nat, hf: HashFunc, sha256: seq<byte> -> string): seq<File>
    requires n <= |names|
    reads fs
  {
    if n == 0 then []
    else ChunkEntries(fs, chunksDir, names, n - 1, hf, sha256) + [ChunkEntry(fs, chunksDir, names[n - 1], hf, sha256)]
  }

  /** The j-th of the chunk entries is the entry of the j-th name. */
  lemma {:induction false} ChunkEntriesAt(fs: FileSystem, chunksDir: string, names: seq<string>, n: nat, hf: HashFunc, sha256: seq<byte> -> string)
    requires n <= |names|
    ensures |ChunkEntries(fs, chunksDir, names, n, hf, sha256)| == n
    ensures forall j :: 0 <= j < n ==> ChunkEntries(fs, chunksDir, names, n, hf, sha256)[j] == ChunkEntry(fs, chunksDir, names[j], hf, sha256)
  {
    if n > 0 {
      ChunkEntriesAt(fs, chunksDir, names, n - 1, hf, sha256);
    }
  }

  /** Every name of `names` is an entry of directory `chunksDir`. */
  ghost predicate AllInDir(fs: FileSystem, chunksDir: string, names: seq<string>)
    reads fs
  {
    forall j :: 0 <= j < |names| ==> Join(chunksDir, names[j]) in fs.entries
  }

  /** The entries for the chunks directory's listing `names`, in listing order (the first loop of GatherFileStats). */
  method ChunkStats(fs: FileSystem, chunksDir: string, names: seq<string>, hf: HashFunc, sha256: seq<byte> -> string)
    returns (r: Result<seq<File>, StatsError>)
    requires AllInDir(fs, chunksDir, names)
    ensures r.Ok? ==> r.value == ChunkEntries(fs, chunksDir, names, |names|, hf, sha256)
    ensures r.Err? ==> hf != NoneFunc && hf != SHA256Func
  {
    var res: seq<File> := [];
    var i := 0;
    while i < |names|
      invariant 0 <= i <= |names|
      invariant res == ChunkEntries(fs, chunksDir, names, i, hf, sha256)
    {
      var mf := ChunkStat(fs, chunksDir, names, i, hf, sha256);
      if mf.Err? {
        return Err(mf.error);
      }
      res := res + [mf.value];
      i := i + 1;
    }
    return Ok(res);
  }

  lemma ListedEntriesExist(fs: FileSystem, chunksDir: string, names: seq<string>)
    requires chunksDir != "" && forall n :: n in names ==> n in fs.ChildNames(chunksDir)
    ensures AllInDir(fs, chunksDir, names)
  {
    forall j | 0 <= j < |names|
      ensures Join(chunksDir, names[j]) in fs.entries
    {
      ChildNameJoin(fs, chunksDir, names[j]);
    }
  }

  /** The i-th chunks-dir entry: os.Stat's size and, for a file when a hash function is set, its hash. */
  method ChunkStat(fs: FileSystem, chunksDir: string, names: seq<string>, i: nat, hf: HashFunc, sha256: seq<byte> -> string)
    returns (r: Result<File, StatsError>)
    requires i < |names| && AllInDir(fs, chunksDir, names)
    ensures r.Ok? ==> r.value == ChunkEntry(fs, chunksDir, names[i], hf, sha256)
    ensures r.Err? ==> hf != NoneFunc && hf != SHA256Func
  {
    var n := names[i];
    var p := Join(chunksDir, n);
    var info := fs.Stat(p).value;
    var mf := File(Join(ChunksDirname, n), info.size, None);
    if hf != NoneFunc && !info.isDir {
      var h := CalculateHash(fs.entries, p, hf, sha256);
      if h.Err? {
        return Err(HashFailed(mf.relPath));
      }
      mf := mf.(hash := Some(h.value));
    }
    return Ok(mf);
  }

  /**
   * GatherFileStats: the manifest of a block directory, sorted by RelPath:
   * one entry per chunks-dir entry (size, and a hash when a hash function is
   * set and the entry is a file), one for the index (size, hash when set)
   * and one for meta.json (neither).
   */
  method GatherFileStats(fs: FileSystem, blockDir: string, hf: HashFunc, sha256: seq<byte> -> string)
    returns (r: Result<seq<File>, StatsError>)
    ensures r.Ok? <==> StatsAvailable(fs, blockDir, hf)
    ensures r.Ok? ==> SortedByPath(r.value)
    ensures r.Ok? ==> forall f :: f in r.value <==> f in ExpectedStats(fs, blockDir, hf, sha256)
  {
    var chunksDir := ChunksDir(blockDir);
    var files := fs.ReadDir(chunksDir);
    if files.Err? {
      return Err(ReadChunksDir(files.error));
    }
    var names := files.value;
    ListedEntriesExist(fs, chunksDir, names);
    var chunks := ChunkStats(fs, chunksDir, names, hf, sha256);
    if chunks.Err? {
      return Err(chunks.error);
    }
    var res := chunks.value;
    ChunkEntriesAt(fs, chunksDir, names, |names|, hf, sha256);

    var index := IndexStat(fs, blockDir, hf, sha256);
    if index.Err? {
      return Err(index.error);
    }
    res := res + [index.value];

    var meta := MetaStat(fs, blockDir);
    if meta.Err? {
      return Err(meta.error);
    }
    res := res + [meta.value];

    SortedManifest(fs, blockDir, names, res, hf, sha256);
    r := Ok(SortByRelPath(res));
  }

  /** meta.json's entry: os.Stat's name only. */
  method MetaStat(fs: FileSystem, blockDir: string) returns (r: Result<File, StatsError>)
    ensures r.Ok? <==> Join(blockDir, MetaFilename) in fs.entries
    ensures r.Ok? ==> r.value == MetaEntry
  {
    var metaPath := Join(blockDir, MetaFilename);
    var metaFile := fs.Stat(metaPath);
    if metaFile.None? {
      return Err(StatFailed(metaPath));
    }
    BaseOfJoin(blockDir, MetaFilename);
    return Ok(File(metaFile.value.name, 0, None));
  }

  /** The index's entry: os.Stat's name and size, and the hash when a hash function is set. */
  method IndexStat(fs: FileSystem, blockDir: string, hf: HashFunc, sha256: seq<byte> -> string) returns (r: Result<File, StatsError>)
    ensures r.Ok? <==> Join(blockDir, IndexFilename) in fs.entries && (hf == NoneFunc || (hf == SHA256Func && fs.IsFile(Join(blockDir, IndexFilename))))
    ensures r.Ok? ==> r.value == IndexEntry(fs, blockDir, hf, sha256)
  {
    var indexPath := Join(blockDir, IndexFilename);
    var indexFile := fs.Stat(indexPath);
    if indexFile.None? {
      return Err(StatFailed(indexPath));
    }
    BaseOfJoin(blockDir, IndexFilename);
    var mf := File(indexFile.value.name, indexFile.value.size, None);
    if hf != NoneFunc {
      var h := CalculateHash(fs.entries, indexPath, hf, sha256);
      if h.Err? {
        return Err(HashFailed(IndexFilename));
      }
      mf := mf.(hash := Some(h.value));
    }
    return Ok(mf);
  }

  /** The collected entries, sorted, are exactly the expected manifest in RelPath order. */
  lemma SortedManifest(fs: FileSystem, blockDir: string, names: seq<string>, res: seq<File>, hf: HashFunc, sha256: seq<byte> -> string)
    requires StrictlySorted(names)
    requires forall n :: n in names <==> n in fs.ChildNames(ChunksDir(blockDir))
    requires |res| == |names| + 2
    requires forall j :: 0 <= j < |names| ==> res[j] == ChunkEntry(fs, ChunksDir(blockDir), names[j], hf, sha256)
    requires res[|names|] == IndexEntry(fs, blockDir, hf, sha256) && res[|names| + 1] == MetaEntry
    ensures SortedByPath(SortByRelPath(res))
    ensures forall f :: f in SortByRelPath(res) <==> f in ExpectedStats(fs, blockDir, hf, sha256)
  {
    ManifestPathsDistinct(fs, blockDir, names, res, hf, sha256);
    SortByRelPathSorted(res);
    ManifestMembers(fs, blockDir, names, res, hf, sha256);
  }

  lemma ManifestPathsDistinct(fs: FileSystem, blockDir: string, names: seq<string>, res: seq<File>, hf: HashFunc, sha256: seq<byte> -> string)
    requires StrictlySorted(names)
    requires |res| == |names| + 2
    requires forall j :: 0 <= j < |names| ==> res[j] == ChunkEntry(fs, ChunksDir(blockDir), names[j], hf, sha256)
    requires res[|names|].relPath == IndexFilename && res[|names| + 1].relPath == MetaFilename
    ensures DistinctPaths(res)
  {
    forall i, j | 0 <= i < j < |res|
      ensures res[i].relPath != res[j].relPath
    {
      if j < |names| {
        JoinChunks(names[i]);
        JoinChunks(names[j]);
        LessIrreflexive("chunks/" + names[i]);
        LessCommonPrefix("chunks/", names[i], names[j]);
      } else if i < |names| {
        JoinChunks(names[i]);
        assert res[i].relPath[0] == 'c';
      }
    }
  }

  lemma ManifestMembers(fs: FileSystem, blockDir: string, names: seq<string>, res: seq<File>, hf: HashFunc, sha256: seq<byte> -> string)
    requires forall n :: n in names <==> n in fs.ChildNames(ChunksDir(blockDir))
    requires |res| == |names| + 2
    requires forall j :: 0 <= j < |names| ==> res[j] == ChunkEntry(fs, ChunksDir(blockDir), names[j], hf, sha256)
    requires res[|names|] == IndexEntry(fs, blockDir, hf, sha256) && res[|names| + 1] == MetaEntry
    ensures forall f :: f in res <==> f in ExpectedStats(fs, blockDir, hf, sha256)
  {
    forall f | f in ExpectedStats(fs, blockDir, hf, sha256)
      ensures f in res
    {
      if f != IndexEntry(fs, blockDir, hf, sha256) && f != MetaEntry {
        var n :| n in fs.ChildNames(ChunksDir(blockDir)) && f == ChunkEntry(fs, ChunksDir(blockDir), n, hf, sha256);
        var j :| 0 <= j < |names| && names[j] == n;
        assert res[j] == f;
      }
    }
    forall i | 0 <= i < |names|
      ensures res[i] in ExpectedStats(fs, blockDir, hf, sha256)
    {
      ChunkEntryExpected(fs, blockDir, names[i], hf, sha256);
    }
  }

  lemma ChunkEntryExpected(fs: FileSystem, blockDir: string, n: string, hf: HashFunc, sha256: seq<byte> -> string)
    requires n in fs.ChildNames(ChunksDir(blockDir))
    ensures ChunkEntry(fs, ChunksDir(blockDir), n, hf, sha256) in ExpectedStats(fs, blockDir, hf, sha256)
  {
  }

  /**
   * GetSegmentFiles: the names in the chunks directory, in os.ReadDir's
   * sorted order; an unreadable directory gives no names.
   */
  method GetSegmentFiles(fs: FileSystem, blockDir: string) returns (r: seq<string>)
    ensures !fs.IsDir(ChunksDir(blockDir)) ==> r == []
    ensures StrictlySorted(r)
    ensures fs.IsDir(ChunksDir(blockDir)) ==> forall n :: n in r <==> n in fs.ChildNames(ChunksDir(blockDir))
  {
    var files := fs.ReadDir(Join(blockDir, ChunksDirname));
    if files.Err? {
      return [];
    }
    r := [];
    var i := 0;
    while i < |files.value|
      invariant 0 <= i <= |files.value|
      invariant r == files.value[..i]
    {
      r := r + [files.value[i]];
      i := i + 1;
    }
    assert r == files.value;
  }

  /** IsBlockMetaFile: the path's base name is meta.json. */
  predicate IsBlockMetaFile(path: string) {
    Base(path) == MetaFilename
  }

  /** A file named directly inside any directory is a block meta file exactly when its name is meta.json. */
  lemma IsBlockMetaFileOfJoin(dir: string, name: string)
    requires name != "" && '/' !in name
    ensures IsBlockMetaFile(Join(dir, name)) <==> name == MetaFilename
  {
    BaseOfJoin(dir, name);
  }

  /** IsBlockDir: the block id the path's base name denotes, if any. */
  function IsBlockDir(path: string, parse: UlidParser): Option<BlockId> {
    parse(Base(path))
  }

  /** A directory named after a block id is recognised as that block's directory, wherever it sits. */
  lemma IsBlockDirOfJoin(dir: string, id: BlockId, parse: UlidParser)
    requires parse(id) == Some(id)
    ensures IsBlockDir(Join(dir, id), parse) == Some(id)
  {
    BlockIdHasNoSlash(id);
    BaseOfJoin(dir, id);
  }

  // ---------------------------------------------------------------------
  // Upload

  datatype UploadError =
    | StatBlockDir(path: string)
    | NotADirectory(path: string)
    | NotABlockDir(name: string)
    | ReadMeta(metaError: MetaError)
    | EmptyExternalLabels
    | GatherStats(statsError: StatsError)
    | UploadChunks(chunksError: TransferError)
    | UploadIndex(indexError: TransferError)
    | UploadMetaFile(storeError: StoreError)

  /** What the checks before any bucket write establish: the block id and the meta read from the directory. */
  datatype Checked = Checked(id: BlockId, meta: Meta)

  /**
   * The checks `upload` makes before touching the bucket: the path is a
   * directory, its base name parses as a block id, its meta.json reads, and
   * (when asked) the external labels are not empty.
   */
  function Preflight(fs: FileSystem, bdir: string, checkExternalLabels: bool, parse: UlidParser, codec: Codec): Result<Checked, UploadError>
    reads fs
  {
    var df := fs.Stat(bdir);
    if df.None? then Err(StatBlockDir(bdir))
    else if !df.value.isDir then Err(NotADirectory(bdir))
    else
      match parse(df.value.name)
      case None => Err(NotABlockDir(df.value.name))
      case Some(id) =>
        var meta := ReadFromDir(fs, bdir, codec);
        if meta.Err? then Err(ReadMeta(meta.error))
        else if checkExternalLabels && |LabelsOf(meta.value.thanos)| == 0 then Err(EmptyExternalLabels)
        else Ok(Checked(id, meta.value))
  }

  /** The checks pass exactly when each of the four conditions holds. */
  lemma PreflightPasses(fs: FileSystem, bdir: string, checkExternalLabels: bool, parse: UlidParser, codec: Codec)
    ensures Preflight(fs, bdir, checkExternalLabels, parse, codec).Ok? <==>
              fs.IsDir(bdir) && parse(Base(bdir)).Some? && ReadFromDir(fs, bdir, codec).Ok? &&
              (checkExternalLabels ==> |LabelsOf(ReadFromDir(fs, bdir, codec).value.thanos)| > 0)
    ensures Preflight(fs, bdir, checkExternalLabels, parse, codec).Ok? ==>
              Preflight(fs, bdir, checkExternalLabels, parse, codec).value ==
              Checked(parse(Base(bdir)).value, ReadFromDir(fs, bdir, codec).value)
  {
  }

  /** UploadPromBlock's checks differ from Upload's only by the external-labels check. */
  lemma PromBlockSkipsLabelCheck(fs: FileSystem, bdir: string, parse: UlidParser, codec: Codec)
    ensures var loose := Preflight(fs, bdir, false, parse, codec);
      Preflight(fs, bdir, true, parse, codec) ==
        if loose.Ok? && |LabelsOf(loose.value.meta.thanos)| == 0 then Err(EmptyExternalLabels) else loose
  {
  }

  /** The meta that goes to the bucket: the local one with the manifest and the upload time filled in. */
  function UploadedMeta(meta: Meta, files: seq<File>, now: int): (m: Meta)
    ensures m.block == meta.block && m.thanos.files == files && m.thanos.uploadTime == now
    ensures m.thanos.(files := meta.thanos.files, uploadTime := meta.thanos.uploadTime) == meta.thanos
  {
    meta.(thanos := meta.thanos.(files := files, uploadTime := now))
  }

  /**
   * The bucket writes of one upload of block `id`: all puts, of chunk
   * objects, the index and meta.json; every chunk put precedes the index
   * and meta.json puts; meta.json is put only as the last event and only
   * when the upload completed, right after the index.
   */
  predicate UploadTrace(id: BlockId, es: seq<Event>, complete: bool) {
    (forall i :: 0 <= i < |es| ==>
       es[i].Put? && (IsChunkKey(id, es[i].path) || es[i].path == BlockKey(id, IndexFilename) || es[i].path == BlockKey(id, MetaFilename)))
    && (forall i :: 0 <= i < |es| && es[i].path == BlockKey(id, MetaFilename) ==> i == |es| - 1 && complete)
    && (forall i, j :: 0 <= i < |es| && 0 <= j < |es| && IsChunkKey(id, es[i].path) && !IsChunkKey(id, es[j].path) ==> i < j)
    && (complete ==> |es| >= 2 && es[|es| - 2] == Put(BlockKey(id, IndexFilename)) && es[|es| - 1] == Put(BlockKey(id, MetaFilename)))
  }

  predicate ChunkPuts(id: BlockId, es: seq<Event>) {
    forall i :: 0 <= i < |es| ==> es[i].Put? && IsChunkKey(id, es[i].path)
  }

  lemma ChunkPutsTrace(id: BlockId, es: seq<Event>)
    requires ChunkPuts(id, es)
    ensures UploadTrace(id, es, false)
    ensures UploadTrace(id, es + [Put(BlockKey(id, IndexFilename))], false)
    ensures UploadTrace(id, es + [Put(BlockKey(id, IndexFilename))] + [Put(BlockKey(id, MetaFilename))], true)
  {
    FixedKeysDistinct(id);
  }

  /** Chunk puts followed by the index put and then the meta.json put, cut short unless complete, form an upload trace. */
  lemma PutsTrace(id: BlockId, chunkEvents: seq<Event>, tail: seq<Event>, complete: bool)
    requires ChunkPuts(id, chunkEvents)
    requires tail == [] || tail == [Put(BlockKey(id, IndexFilename))] ||
             (tail == [Put(BlockKey(id, IndexFilename)), Put(BlockKey(id, MetaFilename))] && complete)
    requires complete ==> tail == [Put(BlockKey(id, IndexFilename)), Put(BlockKey(id, MetaFilename))]
    ensures UploadTrace(id, chunkEvents + tail, complete)
  {
    ChunkPutsTrace(id, chunkEvents);
    if tail != [] && tail != [Put(BlockKey(id, IndexFilename))] {
      assert chunkEvents + tail == chunkEvents + [Put(BlockKey(id, IndexFilename))] + [Put(BlockKey(id, MetaFilename))];
    }
  }

  lemma UploadedChunkPuts(fs: FileSystem, chunksDir: string, id: BlockId, es: seq<Event>)
    requires forall e :: e in es ==> e.Put? && UploadsTo(fs, chunksDir, BlockKey(id, ChunksDirname), e.path)
    ensures ChunkPuts(id, es)
  {
    forall i | 0 <= i < |es|
      ensures es[i].Put? && IsChunkKey(id, es[i].path)
    {
      assert es[i] in es;
    }
  }

  lemma UploadedChunk(fs: FileSystem, src: string, dst: string, objects0: map<string, seq<byte>>, es: seq<Event>, q: string)
    requires Put(q) in es && UploadsTo(fs, src, dst, q)
    ensures q in objects0 + UploadedContents(fs, src, dst, es)
    ensures (objects0 + UploadedContents(fs, src, dst, es))[q] == fs.entries[UploadSource(src, dst, q)].data
  {
    assert q in PutPaths(es);
  }

  /** The chunk objects a successful UploadDir wrote survive the two later puts of other keys. */
  lemma ChunksUploaded(fs: FileSystem, chunksDir: string, chunksKey: string, indexKey: string, metaKey: string,
                       objects0: map<string, seq<byte>>, chunkEvents: seq<Event>, objects: map<string, seq<byte>>,
                       indexData: seq<byte>, metaData: seq<byte>)
    requires forall q :: UploadsTo(fs, chunksDir, chunksKey, q) ==> Put(q) in chunkEvents && q != indexKey && q != metaKey
    requires objects == (objects0 + UploadedContents(fs, chunksDir, chunksKey, chunkEvents))[indexKey := indexData][metaKey := metaData]
    ensures forall q :: UploadsTo(fs, chunksDir, chunksKey, q) ==>
              q in objects && objects[q] == fs.entries[UploadSource(chunksDir, chunksKey, q)].data
  {
    forall q | UploadsTo(fs, chunksDir, chunksKey, q)
      ensures q in objects && objects[q] == fs.entries[UploadSource(chunksDir, chunksKey, q)].data
    {
      UploadedChunk(fs, chunksDir, chunksKey, objects0, chunkEvents, q);
    }
  }

  /**
   * Uploading adds or overwrites objects and removes none: every object of
   * `before` is in `after`, with its old contents unless a put of `es`
   * wrote it.
   */
  ghost predicate KeepsUnwritten(before: map<string, seq<byte>>, after: map<string, seq<byte>>, es: seq<Event>) {
    forall k :: k in before ==> k in after && (k !in PutPaths(es) ==> after[k] == before[k])
  }

  /** UploadDir's puts keep every object they do not write. */
  lemma DirKeepsUnwritten(fs: FileSystem, src: string, dst: string, objects0: map<string, seq<byte>>, es: seq<Event>)
    ensures KeepsUnwritten(objects0, objects0 + UploadedContents(fs, src, dst, es), es)
  {
  }

  /** One more put keeps every object no put so far has written, other than its own key. */
  lemma PutKeepsUnwritten(before: map<string, seq<byte>>, mid: map<string, seq<byte>>, es: seq<Event>, k: string, data: seq<byte>)
    requires KeepsUnwritten(before, mid, es)
    ensures KeepsUnwritten(before, mid[k := data], es + [Put(k)])
  {
    assert PutPaths(es + [Put(k)]) == PutPaths(es) + {k};
  }

  /** Every key an upload of block `id` writes lies below the block's prefix. */
  lemma UploadWritesBelowBlock(id: BlockId, es: seq<Event>, complete: bool, k: string)
    requires UploadTrace(id, es, complete) && k in PutPaths(es)
    ensures StartsWith(k, id + "/")
  {
    var i :| 0 <= i < |es| && es[i].Put? && es[i].path == k;
    var p := id + "/";
    if IsChunkKey(id, k) {
      assert k[..|p|] == k[..|BlockKey(id, ChunksDirname) + "/"|][..|p|];
    } else {
      assert k[..|p|] == p;
    }
  }

  /** An upload of block `id`, complete or not, leaves every object outside the block's prefix as it was. */
  lemma UploadKeepsOtherObjects(id: BlockId, before: map<string, seq<byte>>, after: map<string, seq<byte>>,
                                es: seq<Event>, complete: bool)
    requires UploadTrace(id, es, complete) && KeepsUnwritten(before, after, es)
    ensures forall k :: k in before && !StartsWith(k, id + "/") ==> k in after && after[k] == before[k]
  {
    forall k | k in before && !StartsWith(k, id + "/")
      ensures k in after && after[k] == before[k]
    {
      if k in PutPaths(es) {
        UploadWritesBelowBlock(id, es, complete, k);
      }
    }
  }

  /**
   * The puts of upload, on the keys it computes: every file below
   * `chunksDir` below `chunksKey`, then `indexPath` at `indexKey`, then
   * `metaData` at `metaKey`; the first failure stops it.
   */
  method PutObjects(fs: FileSystem, bkt: Bucket, chunksDir: string, chunksKey: string, indexPath: string, indexKey: string,
                    metaKey: string, metaData: seq<byte>)
    returns (err: Option<UploadError>, ghost chunkEvents: seq<Event>, ghost tail: seq<Event>)
    requires bkt.Valid() && indexKey != metaKey
    requires forall q :: UploadsTo(fs, chunksDir, chunksKey, q) ==> q != indexKey && q != metaKey
    modifies bkt
    ensures bkt.Valid() && bkt.origin == old(bkt.origin)
    ensures bkt.log == old(bkt.log) + chunkEvents + tail
    ensures forall e :: e in chunkEvents ==> e.Put? && UploadsTo(fs, chunksDir, chunksKey, e.path)
    ensures tail == [] || tail == [Put(indexKey)] || (tail == [Put(indexKey), Put(metaKey)] && err.None?)
    ensures err.None? ==> tail == [Put(indexKey), Put(metaKey)]
    ensures KeepsUnwritten(old(bkt.objects), bkt.objects, chunkEvents + tail)
    ensures err.None? ==>
              (forall q :: UploadsTo(fs, chunksDir, chunksKey, q) ==>
                 q in bkt.objects && bkt.objects[q] == fs.entries[UploadSource(chunksDir, chunksKey, q)].data) &&
              fs.IsFile(indexPath) && indexKey in bkt.objects && bkt.objects[indexKey] == fs.entries[indexPath].data &&
              metaKey in bkt.objects && bkt.objects[metaKey] == metaData
  {
    ghost var objects0 := bkt.objects;
    var e;
    e, chunkEvents := UploadDir(fs, bkt, chunksDir, chunksKey);
    DirKeepsUnwritten(fs, chunksDir, chunksKey, objects0, chunkEvents);
    tail := [];
    assert chunkEvents + tail == chunkEvents;
    if e.Some? {
      return Some(UploadChunks(e.value)), chunkEvents, tail;
    }
    ghost var objects1 := bkt.objects;
    e := UploadFile(fs, bkt, indexPath, indexKey);
    if e.Some? {
      return Some(UploadIndex(e.value)), chunkEvents, tail;
    }
    PutKeepsUnwritten(objects0, objects1, chunkEvents, indexKey, fs.entries[indexPath].data);
    tail := [Put(indexKey)];
    ghost var objects2 := bkt.objects;
    var se := bkt.Upload(metaKey, metaData);
    if se.Some? {
      return Some(UploadMetaFile(se.value)), chunkEvents, tail;
    }
    PutKeepsUnwritten(objects0, objects2, chunkEvents + tail, metaKey, metaData);
    assert (chunkEvents + [Put(indexKey)]) + [Put(metaKey)] == chunkEvents + [Put(indexKey), Put(metaKey)];
    tail := [Put(indexKey), Put(metaKey)];
    ChunksUploaded(fs, chunksDir, chunksKey, indexKey, metaKey, objects0, chunkEvents, bkt.objects, fs.entries[indexPath].data, metaData);
    return None, chunkEvents, tail;
  }

  /** Keys below the chunks prefix are neither the index's nor meta.json's. */
  lemma ChunkKeysAreNotFixed(fs: FileSystem, chunksDir: string, id: BlockId)
    ensures forall q :: UploadsTo(fs, chunksDir, BlockKey(id, ChunksDirname), q) ==>
              q != BlockKey(id, IndexFilename) && q != BlockKey(id, MetaFilename)
  {
    FixedKeysDistinct(id);
    forall q | UploadsTo(fs, chunksDir, BlockKey(id, ChunksDirname), q)
      ensures IsChunkKey(id, q)
    {
    }
  }

  /**
   * The bucket phase of upload: the chunks directory, then the index, then
   * `metaData` at meta.json as the very last put. Any failure stops at once
   * and nothing is undone. `es` are the events it adds to the log.
   */
  method PutBlock(fs: FileSystem, bkt: Bucket, bdir: string, id: BlockId, metaData: seq<byte>)
    returns (err: Option<UploadError>, ghost es: seq<Event>)
    requires bkt.Valid()
    modifies bkt
    ensures bkt.Valid() && bkt.origin == old(bkt.origin)
    ensures bkt.log == old(bkt.log) + es
    ensures UploadTrace(id, es, err.None?)
    ensures KeepsUnwritten(old(bkt.objects), bkt.objects, es)
    ensures err.None? ==>
              (forall q :: UploadsTo(fs, ChunksDir(bdir), BlockKey(id, ChunksDirname), q) ==>
                 q in bkt.objects && bkt.objects[q] == fs.entries[UploadSource(ChunksDir(bdir), BlockKey(id, ChunksDirname), q)].data) &&
              fs.IsFile(Join(bdir, IndexFilename)) && BlockKey(id, IndexFilename) in bkt.objects &&
              bkt.objects[BlockKey(id, IndexFilename)] == fs.entries[Join(bdir, IndexFilename)].data &&
              BlockKey(id, MetaFilename) in bkt.objects && bkt.objects[BlockKey(id, MetaFilename)] == metaData
  {
    FixedKeysDistinct(id);
    ChunkKeysAreNotFixed(fs, ChunksDir(bdir), id);
    ghost var chunkEvents, tail;
    err, chunkEvents, tail := PutObjects(fs, bkt, ChunksDir(bdir), BlockKey(id, ChunksDirname), Join(bdir, IndexFilename),
                                         BlockKey(id, IndexFilename), BlockKey(id, MetaFilename), metaData);
    es := chunkEvents + tail;
    UploadedChunkPuts(fs, ChunksDir(bdir), id, chunkEvents);
    PutsTrace(id, chunkEvents, tail, err.None?);
  }

  /**
   * The bucket holds block `id` as uploaded from `bdir`: every chunk file,
   * the index, and meta.json encoding `m` with a sorted manifest of the
   * block's files and `now` as upload time.
   */
  ghost predicate HoldsUploadedBlock(fs: FileSystem, objects: map<string, seq<byte>>, bdir: string, id: BlockId, m: Meta,
                                     hf: HashFunc, codec: Codec, sha256: seq<byte> -> string, now: int)
    reads fs
  {
    (forall q :: UploadsTo(fs, ChunksDir(bdir), BlockKey(id, ChunksDirname), q) ==>
       q in objects && objects[q] == fs.entries[UploadSource(ChunksDir(bdir), BlockKey(id, ChunksDirname), q)].data) &&
    fs.IsFile(Join(bdir, IndexFilename)) && BlockKey(id, IndexFilename) in objects &&
    objects[BlockKey(id, IndexFilename)] == fs.entries[Join(bdir, IndexFilename)].data &&
    BlockKey(id, MetaFilename) in objects &&
    exists files :: SortedByPath(files) && (forall f :: f in files <==> f in ExpectedStats(fs, bdir, hf, sha256)) &&
      objects[BlockKey(id, MetaFilename)] == codec.encode(UploadedMeta(m, files, now))
  }

  /**
   * upload: after the checks, gather the manifest, then put the chunks, the
   * index, and meta.json (with the manifest and `now` as upload time) as
   * the very last object.
   */
  method DoUpload(fs: FileSystem, bkt: Bucket, bdir: string, hf: HashFunc, checkExternalLabels: bool,
                  parse: UlidParser, codec: Codec, sha256: seq<byte> -> string, now: int)
    returns (err: Option<UploadError>)
    requires bkt.Valid()
    modifies bkt
    ensures bkt.Valid() && bkt.origin == old(bkt.origin)
    ensures |old(bkt.log)| <= |bkt.log| && bkt.log[..|old(bkt.log)|] == old(bkt.log)
    ensures Preflight(fs, bdir, checkExternalLabels, parse, codec).Err? ==>
              err == Some(Preflight(fs, bdir, checkExternalLabels, parse, codec).error) &&
              bkt.log == old(bkt.log) && bkt.objects == old(bkt.objects)
    ensures Preflight(fs, bdir, checkExternalLabels, parse, codec).Ok? && !StatsAvailable(fs, bdir, hf) ==>
              err.Some? && bkt.log == old(bkt.log) && bkt.objects == old(bkt.objects)
    ensures Preflight(fs, bdir, checkExternalLabels, parse, codec).Ok? ==>
              UploadTrace(Preflight(fs, bdir, checkExternalLabels, parse, codec).value.id, bkt.log[|old(bkt.log)|..], err.None?)
    ensures KeepsUnwritten(old(bkt.objects), bkt.objects, bkt.log[|old(bkt.log)|..])
    ensures err.None? ==> Preflight(fs, bdir, checkExternalLabels, parse, codec).Ok? && StatsAvailable(fs, bdir, hf)
    ensures err.None? ==>
              var c := Preflight(fs, bdir, checkExternalLabels, parse, codec).value;
              HoldsUploadedBlock(fs, bkt.objects, bdir, c.id, c.meta, hf, codec, sha256, now)
  {
    var checked := Preflight(fs, bdir, checkExternalLabels, parse, codec);
    if checked.Err? {
      return Some(checked.error);
    }
    var files := GatherFileStats(fs, bdir, hf, sha256);
    if files.Err? {
      return Some(GatherStats(files.error));
    }
    var uploaded := UploadedMeta(checked.value.meta, files.value, now);
    ghost var log0 := bkt.log;
    ghost var es;
    err, es := PutBlock(fs, bkt, bdir, checked.value.id, codec.encode(uploaded));
    assert bkt.log[..|log0|] == log0 && bkt.log[|log0|..] == es;
  }

  /** Upload: upload with the external-labels check. */
  method Upload(fs: FileSystem, bkt: Bucket, bdir: string, hf: HashFunc, parse: UlidParser, codec: Codec,
                sha256: seq<byte> -> string, now: int)
    returns (err: Option<UploadError>)
    requires bkt.Valid()
    modifies bkt
    ensures bkt.Valid() && bkt.origin == old(bkt.origin)
    ensures |old(bkt.log)| <= |bkt.log| && bkt.log[..|old(bkt.log)|] == old(bkt.log)
    ensures Preflight(fs, bdir, true, parse, codec).Err? ==>
              err == Some(Preflight(fs, bdir, true, parse, codec).error) &&
              bkt.log == old(bkt.log) && bkt.objects == old(bkt.objects)
    ensures Preflight(fs, bdir, true, parse, codec).Ok? && !StatsAvailable(fs, bdir, hf) ==>
              err.Some? && bkt.log == old(bkt.log) && bkt.objects == old(bkt.objects)
    ensures Preflight(fs, bdir, true, parse, codec).Ok? ==>
              UploadTrace(Preflight(fs, bdir, true, parse, codec).value.id, bkt.log[|old(bkt.log)|..], err.None?)
    ensures KeepsUnwritten(old(bkt.objects), bkt.objects, bkt.log[|old(bkt.log)|..])
    ensures err.None? ==> Preflight(fs, bdir, true, parse, codec).Ok? && StatsAvailable(fs, bdir, hf)
    ensures err.None? ==>
              var c := Preflight(fs, bdir, true, parse, codec).value;
              HoldsUploadedBlock(fs, bkt.objects, bdir, c.id, c.meta, hf, codec, sha256, now)
  {
    err := DoUpload(fs, bkt, bdir, hf, true, parse, codec, sha256, now);
  }

  /** UploadPromBlock: upload without the external-labels check. */
  method UploadPromBlock(fs: FileSystem, bkt: Bucket, bdir: string, hf: HashFunc, parse: UlidParser, codec: Codec,
                         sha256: seq<byte> -> string, now: int)
    returns (err: Option<UploadError>)
    requires bkt.Valid()
    modifies bkt
    ensures bkt.Valid() && bkt.origin == old(bkt.origin)
    ensures |old(bkt.log)| <= |bkt.log| && bkt.log[..|old(bkt.log)|] == old(bkt.log)
    ensures Preflight(fs, bdir, false, parse, codec).Err? ==>
              err == Some(Preflight(fs, bdir, false, parse, codec).error) &&
              bkt.log == old(bkt.log) && bkt.objects == old(bkt.objects)
    ensures Preflight(fs, bdir, false, parse, codec).Ok? && !StatsAvailable(fs, bdir, hf) ==>
              err.Some? && bkt.log == old(bkt.log) && bkt.objects == old(bkt.objects)
    ensures Preflight(fs, bdir, false, parse, codec).Ok? ==>
              UploadTrace(Preflight(fs, bdir, false, parse, codec).value.id, bkt.log[|old(bkt.log)|..], err.None?)
    ensures KeepsUnwritten(old(bkt.objects), bkt.objects, bkt.log[|old(bkt.log)|..])
    ensures err.None? ==> Preflight(fs, bdir, false, parse, codec).Ok? && StatsAvailable(fs, bdir, hf)
    ensures err.None? ==>
              var c := Preflight(fs, bdir, false, parse, codec).value;
              HoldsUploadedBlock(fs, bkt.objects, bdir, c.id, c.meta, hf, codec, sha256, now)
  {
    err := DoUpload(fs, bkt, bdir, hf, false, parse, codec, sha256, now);
  }

  // ---------------------------------------------------------------------
  // Deletion
  // ---------------------------------------------------------------------

  /**
   * Object `k` is one that deleteDirRec(dir, keep) removes: it lies strictly
   * below the listing prefix of `dir`, is not itself a nested prefix (a key
   * ending in '/'), and `keep` does not hold for it.
   */
  predicate Removable(dir: string, keep: string -> bool, k: string) {
    var p := IterPrefix(dir);
    StartsWith(k, p) && |k| > |p| && !EndsWith(k, "/") && !keep(k)
  }

  /** The keys the events `es` delete. */
  function DeletedPaths(es: seq<Event>): set<string> {
    set e | e in es && e.Delete? :: e.path
  }

  /** No object of `before` that deleteDirRec(dir, keep) removes is left in `after`. */
  ghost predicate AllRemoved(before: map<string, seq<byte>>, after: map<string, seq<byte>>, dir: string, keep: string -> bool) {
    forall k :: k in before && Removable(dir, keep, k) ==> k !in after
  }

  /** Every object of `before` that deleteDirRec(dir, keep) removes and that is listed under one of `names` is gone from `after`. */
  ghost predicate RemovedFor(before: map<string, seq<byte>>, after: map<string, seq<byte>>, dir: string, keep: string -> bool, names: seq<string>) {
    forall k :: k in before && Removable(dir, keep, k) && ChildName(k, IterPrefix(dir)) in names ==> k !in after
  }

  /** Every event of `es` deletes an object that deleteDirRec(dir, keep) may remove. */
  predicate DirDeletes(dir: string, keep: string -> bool, es: seq<Event>) {
    forall e :: e in es ==> e.Delete? && Removable(dir, keep, e.path)
  }

  lemma EndsWithSlash(s: string)
    requires EndsWith(s, "/")
    ensures s != "" && s[|s| - 1] == '/' && IterPrefix(s) == s
  {
    assert s[|s| - 1..] == "/";
  }

  /** What a listed nested prefix `name` below `dir` removes, `dir` removes too. */
  lemma NestedDeletes(dir: string, name: string, keep: string -> bool, es: seq<Event>)
    requires StartsWith(name, IterPrefix(dir)) && |name| > |IterPrefix(dir)| && EndsWith(name, "/")
    requires DirDeletes(name, keep, es)
    ensures DirDeletes(dir, keep, es)
  {
    EndsWithSlash(name);
    var p := IterPrefix(dir);
    forall e | e in es
      ensures e.Delete? && Removable(dir, keep, e.path)
    {
      var k := e.path;
      assert k[..|p|] == k[..|name|][..|p|];
    }
  }

  /** A removable key whose listed name is a nested prefix is removable below that prefix. */
  lemma RemovableBelowChild(dir: string, keep: string -> bool, k: string)
    requires Removable(dir, keep, k)
    requires EndsWith(ChildName(k, IterPrefix(dir)), "/")
    ensures Removable(ChildName(k, IterPrefix(dir)), keep, k)
  {
    var c := ChildName(k, IterPrefix(dir));
    ChildNameFacts(k, IterPrefix(dir));
    EndsWithSlash(c);
    assert k != c by {
      assert !EndsWith(k, "/");
    }
  }

  /** A removable key whose listed name is not a nested prefix is listed as itself. */
  lemma RemovableListedAsItself(dir: string, keep: string -> bool, k: string)
    requires Removable(dir, keep, k)
    requires !EndsWith(ChildName(k, IterPrefix(dir)), "/")
    ensures ChildName(k, IterPrefix(dir)) == k
  {
    ChildNameFacts(k, IterPrefix(dir));
  }

  lemma DeletedPathsAppend(a: seq<Event>, b: seq<Event>)
    ensures DeletedPaths(a + b) == DeletedPaths(a) + DeletedPaths(b)
  {
    assert forall e :: e in a + b <==> e in a || e in b;
  }

  lemma DeletedPathsOne(k: string)
    ensures DeletedPaths([Event.Delete(k)]) == {k}
  {
    assert Event.Delete(k) in [Event.Delete(k)];
  }

  /** Two walks below `dir`, one after the other, are one walk. */
  lemma DeletesCompose(dir: string, keep: string -> bool, log0: seq<Event>, objects0: map<string, seq<byte>>,
                       logI: seq<Event>, objectsI: map<string, seq<byte>>, logN: seq<Event>, objectsN: map<string, seq<byte>>)
    requires Walked(log0, objects0, logI, objectsI, dir, keep)
    requires Walked(logI, objectsI, logN, objectsN, dir, keep)
    ensures Walked(log0, objects0, logN, objectsN, dir, keep)
  {
    assert logN[|log0|..] == logI[|log0|..] + logN[|logI|..];
    DeletedPathsAppend(logI[|log0|..], logN[|logI|..]);
    assert logN[..|log0|] == logI[..|log0|];
  }

  /**
   * The bucket's `log` and `objects` are those of a walk below `dir` that
   * started from `log0` and `objects0`: the log only grew, by deletions
   * deleteDirRec(dir, keep) may make, and exactly those objects are gone.
   */
  ghost predicate Walked(log0: seq<Event>, objects0: map<string, seq<byte>>, log: seq<Event>, objects: map<string, seq<byte>>,
                         dir: string, keep: string -> bool) {
    |log0| <= |log| && log[..|log0|] == log0
    && DirDeletes(dir, keep, log[|log0|..])
    && objects == objects0 - DeletedPaths(log[|log0|..])
  }

  /** A walk that deletes nothing. */
  lemma WalkedNone(dir: string, keep: string -> bool, log: seq<Event>, objects: map<string, seq<byte>>)
    ensures Walked(log, objects, log, objects, dir, keep)
  {
    assert log[|log|..] == [];
  }

  /** Deleting one removable key is a walk. */
  lemma WalkedOne(dir: string, keep: string -> bool, log: seq<Event>, objects: map<string, seq<byte>>, k: string)
    requires Removable(dir, keep, k)
    ensures Walked(log, objects, log + [Event.Delete(k)], objects - {k}, dir, keep)
  {
    assert (log + [Event.Delete(k)])[|log|..] == [Event.Delete(k)];
    DeletedPathsOne(k);
  }

  /** A walk below a nested directory `name` of `dir` is a walk below `dir`. */
  lemma WalkedNested(dir: string, name: string, keep: string -> bool, log0: seq<Event>, objects0: map<string, seq<byte>>,
                     log: seq<Event>, objects: map<string, seq<byte>>)
    requires StartsWith(name, IterPrefix(dir)) && |name| > |IterPrefix(dir)| && EndsWith(name, "/")
    requires Walked(log0, objects0, log, objects, name, keep)
    ensures Walked(log0, objects0, log, objects, dir, keep)
  {
    NestedDeletes(dir, name, keep, log[|log0|..]);
  }

  /**
   * deleteDirRec: lists one level below `dir` and handles each listed name
   * in turn (`DeleteListed`); the first failure stops the walk. `bound`
   * bounds the length of every key and of `dir`, and so the depth of the
   * recursion.
   */
  method DeleteDirRec(bkt: Bucket, dir: string, keep: string -> bool, ghost bound: nat) returns (err: Option<StoreError>)
    requires bkt.Valid()
    requires |dir| <= bound && forall k :: k in bkt.objects ==> |k| <= bound
    modifies bkt
    ensures bkt.Valid() && bkt.origin == old(bkt.origin)
    ensures Walked(old(bkt.log), old(bkt.objects), bkt.log, bkt.objects, dir, keep)
    ensures err.None? ==> AllRemoved(old(bkt.objects), bkt.objects, dir, keep)
    decreases bound - |dir|, 3
  {
    var listing := bkt.Iter(dir);
    if listing.Err? {
      WalkedNone(dir, keep, bkt.log, bkt.objects);
      return Some(listing.error);
    }
    err := DeleteNames(bkt, dir, keep, bound, listing.value);
  }

  /** deleteDirRec's walk over the names `names` listed below `dir`; the first failure stops it. */
  method DeleteNames(bkt: Bucket, dir: string, keep: string -> bool, ghost bound: nat, names: seq<string>)
    returns (err: Option<StoreError>)
    requires bkt.Valid()
    requires |dir| <= bound && forall k :: k in bkt.objects ==> |k| <= bound
    requires forall n :: n in names <==> n in Children(bkt.objects.Keys, IterPrefix(dir))
    modifies bkt
    ensures bkt.Valid() && bkt.origin == old(bkt.origin)
    ensures Walked(old(bkt.log), old(bkt.objects), bkt.log, bkt.objects, dir, keep)
    ensures err.None? ==> AllRemoved(old(bkt.objects), bkt.objects, dir, keep)
    decreases bound - |dir|, 2
  {
    WalkedNone(dir, keep, bkt.log, bkt.objects);
    var i := 0;
    err := None;
    while i < |names|
      invariant 0 <= i <= |names| && err.None?
      invariant bkt.Valid() && bkt.origin == old(bkt.origin)
      invariant Walked(old(bkt.log), old(bkt.objects), bkt.log, bkt.objects, dir, keep)
      invariant RemovedFor(old(bkt.objects), bkt.objects, dir, keep, names[..i])
    {
      err := DeleteStep(bkt, dir, keep, bound, names, i, old(bkt.log), old(bkt.objects));
      if err.Some? {
        break;
      }
      i := i + 1;
    }
    if err.None? {
      AllListedRemoved(old(bkt.objects), bkt.objects, dir, keep, names);
    }
  }

  /** Once every listed name is handled, every removable object is gone. */
  lemma AllListedRemoved(objects0: map<string, seq<byte>>, objects: map<string, seq<byte>>, dir: string, keep: string -> bool,
                         names: seq<string>)
    requires forall n :: n in names <==> n in Children(objects0.Keys, IterPrefix(dir))
    requires RemovedFor(objects0, objects, dir, keep, names[..|names|])
    ensures AllRemoved(objects0, objects, dir, keep)
  {
    assert names[..|names|] == names;
    forall k | k in objects0 && Removable(dir, keep, k)
      ensures ChildName(k, IterPrefix(dir)) in names
    {
      assert ChildName(k, IterPrefix(dir)) in Children(objects0.Keys, IterPrefix(dir));
    }
  }

  /** One turn of deleteDirRec's walk: handles `names[i]`, one of the names listed below `dir` in `objects0`. */
  method DeleteStep(bkt: Bucket, dir: string, keep: string -> bool, ghost bound: nat, names: seq<string>, i: nat,
                    ghost log0: seq<Event>, ghost objects0: map<string, seq<byte>>)
    returns (err: Option<StoreError>)
    requires bkt.Valid()
    requires |dir| <= bound && forall k :: k in objects0 ==> |k| <= bound
    requires i < |names| && names[i] in Children(objects0.Keys, IterPrefix(dir))
    requires Walked(log0, objects0, bkt.log, bkt.objects, dir, keep)
    requires RemovedFor(objects0, bkt.objects, dir, keep, names[..i])
    modifies bkt
    ensures bkt.Valid() && bkt.origin == old(bkt.origin)
    ensures Walked(log0, objects0, bkt.log, bkt.objects, dir, keep)
    ensures err.None? ==> RemovedFor(objects0, bkt.objects, dir, keep, names[..i + 1])
    decreases bound - |dir|, 1
  {
    var p := IterPrefix(dir);
    ghost var logI, objectsI := bkt.log, bkt.objects;
    ghost var k0 :| k0 in objects0 && StartsWith(k0, p) && k0 != p && names[i] == ChildName(k0, p);
    err := DeleteListed(bkt, dir, keep, bound, names[i], k0);
    DeletesCompose(dir, keep, log0, objects0, logI, objectsI, bkt.log, bkt.objects);
    if err.None? {
      RemovedForAdd(objects0, objectsI, bkt.objects, dir, keep, names, i);
    }
  }

  /** Handling one more name extends what is removed by the objects listed under it. */
  lemma RemovedForAdd(objects0: map<string, seq<byte>>, objectsI: map<string, seq<byte>>, objectsN: map<string, seq<byte>>,
                      dir: string, keep: string -> bool, names: seq<string>, i: nat)
    requires i < |names|
    requires RemovedFor(objects0, objectsI, dir, keep, names[..i])
    requires objectsN.Keys <= objectsI.Keys
    requires forall k :: k in objectsI && Removable(dir, keep, k) && ChildName(k, IterPrefix(dir)) == names[i] ==> k !in objectsN
    ensures RemovedFor(objects0, objectsN, dir, keep, names[..i + 1])
  {
    assert names[..i + 1] == names[..i] + [names[i]];
  }

  /**
   * The callback deleteDirRec runs for one name listed below `dir` (listed
   * for key `k0`): a name ending in '/' is deleted recursively, a name
   * `keep` holds for is skipped, and every other name is deleted.
   */
  method DeleteListed(bkt: Bucket, dir: string, keep: string -> bool, ghost bound: nat, name: string, ghost k0: string)
    returns (err: Option<StoreError>)
    requires bkt.Valid()
    requires |dir| <= bound && |k0| <= bound && forall k :: k in bkt.objects ==> |k| <= bound
    requires StartsWith(k0, IterPrefix(dir)) && k0 != IterPrefix(dir) && name == ChildName(k0, IterPrefix(dir))
    modifies bkt
    ensures bkt.Valid() && bkt.origin == old(bkt.origin)
    ensures Walked(old(bkt.log), old(bkt.objects), bkt.log, bkt.objects, dir, keep)
    ensures err.None? ==>
              forall k :: k in old(bkt.objects) && Removable(dir, keep, k) && ChildName(k, IterPrefix(dir)) == name ==> k !in bkt.objects
    decreases bound - |dir|, 0
  {
    var p := IterPrefix(dir);
    ChildNameFacts(k0, p);
    if EndsWith(name, "/") {
      err := DeleteDirRec(bkt, name, keep, bound);
      WalkedNested(dir, name, keep, old(bkt.log), old(bkt.objects), bkt.log, bkt.objects);
      if err.None? {
        forall k | k in old(bkt.objects) && Removable(dir, keep, k) && ChildName(k, p) == name
          ensures k !in bkt.objects
        {
          RemovableBelowChild(dir, keep, k);
        }
      }
    } else if !keep(name) {
      err := bkt.Delete(name);
      if err.Some? {
        WalkedNone(dir, keep, bkt.log, bkt.objects);
      } else {
        assert name == k0 && Removable(dir, keep, name);
        WalkedOne(dir, keep, old(bkt.log), old(bkt.objects), name);
        forall k | k in old(bkt.objects) && Removable(dir, keep, k) && ChildName(k, p) == name
          ensures k !in bkt.objects
        {
          RemovableListedAsItself(dir, keep, k);
        }
      }
    } else {
      ListedKeptIsNotRemovable(dir, keep, name);
      WalkedNone(dir, keep, bkt.log, bkt.objects);
      err := None;
    }
  }

  /** A kept name that is not a nested prefix stands for no removable key. */
  lemma ListedKeptIsNotRemovable(dir: string, keep: string -> bool, name: string)
    requires keep(name) && !EndsWith(name, "/")
    ensures forall k :: Removable(dir, keep, k) ==> ChildName(k, IterPrefix(dir)) != name
  {
    forall k | Removable(dir, keep, k)
      ensures ChildName(k, IterPrefix(dir)) != name
    {
      ChildNameFacts(k, IterPrefix(dir));
    }
  }

  /** The names Delete keeps out of the recursive walk: meta.json (already gone) and the deletion mark (removed last). */
  function KeepOnDelete(id: BlockId): string -> bool {
    k => k == BlockKey(id, MetaFilename) || k == BlockKey(id, DeletionMarkFilename)
  }

  /** A bound on the length of every key of `keys`. */
  ghost function MaxLen(keys: set<string>): (m: nat)
    ensures forall k :: k in keys ==> |k| <= m
    decreases keys
  {
    if keys == {} then 0
    else
      var k :| k in keys;
      var rest := MaxLen(keys - {k});
      if |k| > rest then |k| else rest
  }

  lemma BlockPrefix(id: BlockId)
    ensures IterPrefix(id) == id + "/"
  {
    BlockIdHasNoSlash(id);
    assert id[|id| - 1] in id;
  }

  /**
   * The bucket writes of one Delete of block `id`: deletes only, all below
   * the block's prefix; meta.json is deleted only as the first event and the
   * deletion mark only as the last one.
   */
  predicate DeleteTrace(id: BlockId, es: seq<Event>) {
    (forall i :: 0 <= i < |es| ==> es[i].Delete? && StartsWith(es[i].path, id + "/"))
    && (forall i :: 0 <= i < |es| && es[i].path == BlockKey(id, MetaFilename) ==> i == 0)
    && (forall i :: 0 <= i < |es| && es[i].path == BlockKey(id, DeletionMarkFilename) ==> i == |es| - 1)
  }

  /** A run of at most one meta.json delete, the walk's deletes, and at most one mark delete, is a Delete trace. */
  lemma DeletePhases(id: BlockId, es1: seq<Event>, es2: seq<Event>, es3: seq<Event>)
    requires es1 == [] || es1 == [Event.Delete(BlockKey(id, MetaFilename))]
    requires DirDeletes(id, KeepOnDelete(id), es2)
    requires es3 == [] || es3 == [Event.Delete(BlockKey(id, DeletionMarkFilename))]
    ensures DeleteTrace(id, es1 + (es2 + es3))
  {
    BlockPrefix(id);
    FixedKeysDistinct(id);
    var es := es1 + (es2 + es3);
    forall i | 0 <= i < |es|
      ensures es[i].Delete? && StartsWith(es[i].path, id + "/")
      ensures es[i].path == BlockKey(id, MetaFilename) ==> i == 0
      ensures es[i].path == BlockKey(id, DeletionMarkFilename) ==> i == |es| - 1
    {
      if i < |es1| {
        assert es[i] == es1[i];
      } else if i < |es1| + |es2| {
        assert es[i] == es2[i - |es1|] && es2[i - |es1|] in es2;
      } else {
        assert es[i] == es3[i - |es1| - |es2|];
      }
    }
  }

  /** The step Delete takes for meta.json and for the deletion mark: delete the object if it exists. */
  method DeleteIfPresent(bkt: Bucket, key: string) returns (err: Option<StoreError>)
    requires bkt.Valid()
    modifies bkt
    ensures bkt.Valid() && bkt.origin == old(bkt.origin)
    ensures |old(bkt.log)| <= |bkt.log| && bkt.log[..|old(bkt.log)|] == old(bkt.log)
    ensures bkt.log[|old(bkt.log)|..] == [] || bkt.log[|old(bkt.log)|..] == [Event.Delete(key)]
    ensures err.None? && key in old(bkt.objects) ==> bkt.log[|old(bkt.log)|..] == [Event.Delete(key)]
    ensures err.Some? || key !in old(bkt.objects) ==> bkt.log == old(bkt.log)
    ensures bkt.log[|old(bkt.log)|..] != [] ==> err.None?
    ensures bkt.objects == old(bkt.objects) - DeletedPaths(bkt.log[|old(bkt.log)|..])
    ensures err.None? ==> key !in bkt.objects
  {
    var ok := bkt.Exists(key);
    if ok.Err? {
      return Some(ok.error);
    }
    if ok.value {
      err := bkt.Delete(key);
      if err.None? {
        assert bkt.log[|old(bkt.log)|..] == [Event.Delete(key)];
        DeletedPathsOne(key);
      }
    } else {
      err := None;
    }
  }

  /**
   * Delete: removes every object of block `id` such that readers never see
   * a partial block with meta.json: meta.json first (when present), then
   * the rest of the block's objects except the deletion mark, then the
   * deletion mark (when present).
   */
  method Delete(bkt: Bucket, id: BlockId) returns (err: Option<StoreError>)
    requires bkt.Valid()
    modifies bkt
    ensures bkt.Valid() && bkt.origin == old(bkt.origin)
    ensures |old(bkt.log)| <= |bkt.log| && bkt.log[..|old(bkt.log)|] == old(bkt.log)
    ensures DeleteTrace(id, bkt.log[|old(bkt.log)|..])
    ensures BlockKey(id, MetaFilename) in old(bkt.objects) && |bkt.log| > |old(bkt.log)| ==>
              bkt.log[|old(bkt.log)|] == Event.Delete(BlockKey(id, MetaFilename))
    ensures bkt.objects == old(bkt.objects) - DeletedPaths(bkt.log[|old(bkt.log)|..])
    ensures err.None? ==>
              forall k :: k in old(bkt.objects) && StartsWith(k, id + "/") && !EndsWith(k, "/") ==> k !in bkt.objects
    ensures var es := bkt.log[|old(bkt.log)|..];
            es != [] && es[|es| - 1] == Event.Delete(BlockKey(id, DeletionMarkFilename)) ==>
              err.None? && GoneButMark(old(bkt.objects), old(bkt.objects) - DeletedPaths(es[..|es| - 1]), id)
  {
    ghost var log0, objects0 := bkt.log, bkt.objects;
    err := DeleteIfPresent(bkt, BlockKey(id, MetaFilename));
    ghost var log1, objects1 := bkt.log, bkt.objects;
    if err.Some? {
      DeleteComposed(id, log0, log1, |log1|, log1, objects0, objects1, objects1);
      FixedKeysDistinct(id);
      return;
    }
    ghost var mid;
    err, mid := DeleteRest(bkt, id);
    DeleteComposed(id, log0, log1, mid, bkt.log, objects0, objects1, bkt.objects);
    MarkDeletedLast(id, log0, log1, mid, bkt.log, objects0, objects1);
    if err.None? {
      DeletedAll(id, objects0, objects1, bkt.objects);
    }
  }

  /** Every object of block `id` in `before`, other than the deletion mark, is gone from `after`. */
  ghost predicate GoneButMark(before: map<string, seq<byte>>, after: map<string, seq<byte>>, id: BlockId) {
    forall k :: k in before && StartsWith(k, id + "/") && !EndsWith(k, "/") && k != BlockKey(id, DeletionMarkFilename) ==> k !in after
  }

  /**
   * In Delete's log the deletion mark can only be the mark phase's delete,
   * which comes after meta.json and the walk have removed everything else.
   */
  lemma MarkDeletedLast(id: BlockId, log0: seq<Event>, log1: seq<Event>, mid: nat, log3: seq<Event>,
                        objects0: map<string, seq<byte>>, objects1: map<string, seq<byte>>)
    requires |log0| <= |log1| && log1[..|log0|] == log0
    requires |log1| <= mid <= |log3| && log3[..|log1|] == log1
    requires log1[|log0|..] == [] || log1[|log0|..] == [Event.Delete(BlockKey(id, MetaFilename))]
    requires objects1 == objects0 - DeletedPaths(log1[|log0|..]) && BlockKey(id, MetaFilename) !in objects1
    requires DirDeletes(id, KeepOnDelete(id), log3[|log1|..mid])
    requires log3[mid..] == [] || log3[mid..] == [Event.Delete(BlockKey(id, DeletionMarkFilename))]
    requires log3[mid..] != [] ==> AllRemoved(objects1, objects1 - DeletedPaths(log3[|log1|..mid]), id, KeepOnDelete(id))
    ensures var es := log3[|log0|..];
            es != [] && es[|es| - 1] == Event.Delete(BlockKey(id, DeletionMarkFilename)) ==>
              log3[mid..] != [] && GoneButMark(objects0, objects0 - DeletedPaths(es[..|es| - 1]), id)
  {
    var es := log3[|log0|..];
    var mark := BlockKey(id, DeletionMarkFilename);
    if es != [] && es[|es| - 1] == Event.Delete(mark) {
      FixedKeysDistinct(id);
      SliceThree(log0, log1, mid, log3);
      if log3[mid..] == [] {
        assert false;
      }
      assert es[..|es| - 1] == log1[|log0|..] + log3[|log1|..mid];
      GoneAfterPhases(id, objects0, log1[|log0|..], log3[|log1|..mid]);
    }
  }

  /**
   * Deletions `a` that remove meta.json, then deletions `b` of the walk that
   * leave nothing removable, leave nothing of the block but the deletion mark.
   */
  lemma GoneAfterPhases(id: BlockId, objects0: map<string, seq<byte>>, a: seq<Event>, b: seq<Event>)
    requires BlockKey(id, MetaFilename) !in objects0 - DeletedPaths(a)
    requires AllRemoved(objects0 - DeletedPaths(a), (objects0 - DeletedPaths(a)) - DeletedPaths(b), id, KeepOnDelete(id))
    ensures GoneButMark(objects0, objects0 - DeletedPaths(a + b), id)
  {
    DeletedPathsAppend(a, b);
    BlockPrefix(id);
    var mark := BlockKey(id, DeletionMarkFilename);
    forall k | k in objects0 && StartsWith(k, id + "/") && !EndsWith(k, "/") && k != mark
      ensures k !in objects0 - DeletedPaths(a + b)
    {
      if k != BlockKey(id, MetaFilename) && k !in DeletedPaths(a) {
        assert k != id + "/";
        assert Removable(id, KeepOnDelete(id), k);
      }
    }
  }

  /**
   * Delete once meta.json is gone: the walk below the block's prefix, which
   * skips meta.json and the deletion mark, then the deletion mark. `mid` is
   * where the walk's events end in the log.
   */
  method DeleteRest(bkt: Bucket, id: BlockId) returns (err: Option<StoreError>, ghost mid: nat)
    requires bkt.Valid()
    modifies bkt
    ensures bkt.Valid() && bkt.origin == old(bkt.origin)
    ensures |old(bkt.log)| <= mid <= |bkt.log| && bkt.log[..|old(bkt.log)|] == old(bkt.log)
    ensures DirDeletes(id, KeepOnDelete(id), bkt.log[|old(bkt.log)|..mid])
    ensures bkt.log[mid..] == [] || bkt.log[mid..] == [Event.Delete(BlockKey(id, DeletionMarkFilename))]
    ensures bkt.objects == old(bkt.objects) - DeletedPaths(bkt.log[|old(bkt.log)|..])
    ensures err.None? ==> AllRemoved(old(bkt.objects), bkt.objects, id, KeepOnDelete(id)) && BlockKey(id, DeletionMarkFilename) !in bkt.objects
    ensures bkt.log[mid..] != [] ==>
              err.None? && AllRemoved(old(bkt.objects), old(bkt.objects) - DeletedPaths(bkt.log[|old(bkt.log)|..mid]), id, KeepOnDelete(id))
  {
    ghost var log0, objects0 := bkt.log, bkt.objects;
    err := DeleteDirRec(bkt, id, KeepOnDelete(id), MaxLen(bkt.objects.Keys) + |id|);
    mid := |bkt.log|;
    ghost var log1, objects1 := bkt.log, bkt.objects;
    assert log1[|log0|..mid] == log1[|log0|..];
    if err.Some? {
      return;
    }
    err := DeleteIfPresent(bkt, BlockKey(id, DeletionMarkFilename));
    TwoPhases(log0, log1, bkt.log, objects0, objects1, bkt.objects);
  }

  /** Two runs of deletions, one after the other, are one run. */
  lemma TwoPhases(log0: seq<Event>, log1: seq<Event>, log2: seq<Event>,
                  objects0: map<string, seq<byte>>, objects1: map<string, seq<byte>>, objects2: map<string, seq<byte>>)
    requires |log0| <= |log1| && log1[..|log0|] == log0
    requires |log1| <= |log2| && log2[..|log1|] == log1
    requires objects1 == objects0 - DeletedPaths(log1[|log0|..])
    requires objects2 == objects1 - DeletedPaths(log2[|log1|..])
    ensures |log0| <= |log2| && log2[..|log0|] == log0
    ensures log2[|log0|..|log1|] == log1[|log0|..]
    ensures objects2 == objects0 - DeletedPaths(log2[|log0|..])
  {
    assert log2[..|log0|] == log1[..|log0|];
    assert log2[|log0|..] == log1[|log0|..] + log2[|log1|..];
    DeletedPathsAppend(log1[|log0|..], log2[|log1|..]);
  }

  /** Delete's phases, meta.json and then the rest, together give a Delete trace with meta.json first. */
  lemma DeleteComposed(id: BlockId, log0: seq<Event>, log1: seq<Event>, mid: nat, log3: seq<Event>,
                       objects0: map<string, seq<byte>>, objects1: map<string, seq<byte>>, objects3: map<string, seq<byte>>)
    requires |log0| <= |log1| && log1[..|log0|] == log0
    requires |log1| <= mid <= |log3| && log3[..|log1|] == log1
    requires log1[|log0|..] == [] || log1[|log0|..] == [Event.Delete(BlockKey(id, MetaFilename))]
    requires DirDeletes(id, KeepOnDelete(id), log3[|log1|..mid])
    requires log3[mid..] == [] || log3[mid..] == [Event.Delete(BlockKey(id, DeletionMarkFilename))]
    requires BlockKey(id, MetaFilename) in objects0 ==> log1[|log0|..] == [Event.Delete(BlockKey(id, MetaFilename))] || log3 == log0
    requires objects1 == objects0 - DeletedPaths(log1[|log0|..])
    requires objects3 == objects1 - DeletedPaths(log3[|log1|..])
    ensures |log0| <= |log3| && log3[..|log0|] == log0
    ensures DeleteTrace(id, log3[|log0|..])
    ensures BlockKey(id, MetaFilename) in objects0 && |log3| > |log0| ==> log3[|log0|] == Event.Delete(BlockKey(id, MetaFilename))
    ensures objects3 == objects0 - DeletedPaths(log3[|log0|..])
  {
    SliceThree(log0, log1, mid, log3);
    DeletePhases(id, log1[|log0|..], log3[|log1|..mid], log3[mid..]);
    DeletedPathsAppend(log1[|log0|..], log3[|log1|..]);
    if BlockKey(id, MetaFilename) in objects0 && |log3| > |log0| {
      assert log3[|log0|] == log3[|log0|..][0];
    }
  }

  /** A log grown in two steps, the second cut at `mid`, splits into its three pieces. */
  lemma SliceThree<T>(log0: seq<T>, log1: seq<T>, mid: nat, log3: seq<T>)
    requires |log0| <= |log1| && log1[..|log0|] == log0
    requires |log1| <= mid <= |log3| && log3[..|log1|] == log1
    ensures log3[..|log0|] == log0
    ensures log3[|log0|..] == log1[|log0|..] + log3[|log1|..]
    ensures log3[|log1|..] == log3[|log1|..mid] + log3[mid..]
  {
    assert log3[..|log0|] == log1[..|log0|];
  }

  /** Every non-prefix key of the block is gone once meta.json, the walk and the deletion mark all succeeded. */
  lemma DeletedAll(id: BlockId, objects0: map<string, seq<byte>>, objects1: map<string, seq<byte>>, objects3: map<string, seq<byte>>)
    requires BlockKey(id, MetaFilename) !in objects1 && objects1.Keys <= objects0.Keys
    requires AllRemoved(objects1, objects3, id, KeepOnDelete(id)) && objects3.Keys <= objects1.Keys
    requires BlockKey(id, DeletionMarkFilename) !in objects3
    ensures forall k :: k in objects0 && StartsWith(k, id + "/") && !EndsWith(k, "/") ==> k !in objects3
  {
    BlockPrefix(id);
    forall k | k in objects0 && StartsWith(k, id + "/") && !EndsWith(k, "/")
      ensures k !in objects3
    {
      if k != BlockKey(id, MetaFilename) && k != BlockKey(id, DeletionMarkFilename) {
        assert k != id + "/";
        assert Removable(id, KeepOnDelete(id), k);
      }
    }
  }

  // ---------------------------------------------------------------------
  // Marks
  // ---------------------------------------------------------------------

  /** The payloads of the three marks (metadata.DeletionMark, NoCompactMark, NoDownsampleMark). */
  datatype Mark =
    | DeletionMark(id: BlockId, deletionTime: int, version: int, details: string)
    | NoCompactMark(id: BlockId, version: int, noCompactTime: int, reason: string, details: string)
    | NoDownsampleMark(id: BlockId, version: int, noDownsampleTime: int, reason: string, details: string)

  datatype MarkError = CheckExists(existsCause: StoreError) | UploadMark(uploadCause: StoreError) | DeleteMark(deleteCause: StoreError)

  /** A Prometheus counter, reduced to its value. */
  class Counter {
    var value: int

    constructor ()
      ensures value == 0
    {
      value := 0;
    }

    method Inc()
      modifies this
      ensures value == old(value) + 1
    {
      value := value + 1;
    }
  }

  /**
   * The shared shape of MarkForDeletion, MarkForNoCompact and
   * MarkForNoDownsample: an existing mark is left alone and reported as
   * success; otherwise `payload` is put at `key` and the counter rises.
   */
  method WriteMarkIfAbsent(bkt: Bucket, counter: Counter, key: string, payload: seq<byte>) returns (err: Option<MarkError>)
    requires bkt.Valid()
    modifies bkt, counter
    ensures bkt.Valid() && bkt.origin == old(bkt.origin)
    ensures key in old(bkt.objects) || err.Some? ==>
              bkt.objects == old(bkt.objects) && bkt.log == old(bkt.log) && counter.value == old(counter.value)
    ensures err.None? && key !in old(bkt.objects) ==>
              bkt.objects == old(bkt.objects)[key := payload] && bkt.log == old(bkt.log) + [Put(key)] &&
              counter.value == old(counter.value) + 1
    ensures err.None? ==> key in bkt.objects
  {
    var present := bkt.Exists(key);
    if present.Err? {
      return Some(CheckExists(present.error));
    }
    if present.value {
      return None;
    }
    var e := bkt.Upload(key, payload);
    if e.Some? {
      return Some(UploadMark(e.value));
    }
    counter.Inc();
    err := None;
  }

  /** MarkForDeletion: writes the deletion mark, stamped with `now`, unless one exists. */
  method MarkForDeletion(bkt: Bucket, id: BlockId, details: string, counter: Counter, now: int, encodeMark: Mark -> seq<byte>)
    returns (err: Option<MarkError>)
    requires bkt.Valid()
    modifies bkt, counter
    ensures bkt.Valid() && bkt.origin == old(bkt.origin)
    ensures BlockKey(id, DeletionMarkFilename) in old(bkt.objects) || err.Some? ==>
              bkt.objects == old(bkt.objects) && bkt.log == old(bkt.log) && counter.value == old(counter.value)
    ensures err.None? && BlockKey(id, DeletionMarkFilename) !in old(bkt.objects) ==>
              bkt.objects == old(bkt.objects)[BlockKey(id, DeletionMarkFilename) := encodeMark(DeletionMark(id, now, DeletionMarkVersion1, details))] &&
              bkt.log == old(bkt.log) + [Put(BlockKey(id, DeletionMarkFilename))] && counter.value == old(counter.value) + 1
  {
    err := WriteMarkIfAbsent(bkt, counter, BlockKey(id, DeletionMarkFilename), encodeMark(DeletionMark(id, now, DeletionMarkVersion1, details)));
  }

  /** MarkForNoCompact: writes the no-compact mark, stamped with `now`, unless one exists. */
  method MarkForNoCompact(bkt: Bucket, id: BlockId, reason: string, details: string, counter: Counter, now: int, encodeMark: Mark -> seq<byte>)
    returns (err: Option<MarkError>)
    requires bkt.Valid()
    modifies bkt, counter
    ensures bkt.Valid() && bkt.origin == old(bkt.origin)
    ensures BlockKey(id, NoCompactMarkFilename) in old(bkt.objects) || err.Some? ==>
              bkt.objects == old(bkt.objects) && bkt.log == old(bkt.log) && counter.value == old(counter.value)
    ensures err.None? && BlockKey(id, NoCompactMarkFilename) !in old(bkt.objects) ==>
              bkt.objects == old(bkt.objects)[BlockKey(id, NoCompactMarkFilename) := encodeMark(NoCompactMark(id, NoCompactMarkVersion1, now, reason, details))] &&
              bkt.log == old(bkt.log) + [Put(BlockKey(id, NoCompactMarkFilename))] && counter.value == old(counter.value) + 1
  {
    err := WriteMarkIfAbsent(bkt, counter, BlockKey(id, NoCompactMarkFilename), encodeMark(NoCompactMark(id, NoCompactMarkVersion1, now, reason, details)));
  }

  /** MarkForNoDownsample: writes the no-downsample mark, stamped with `now`, unless one exists. */
  method MarkForNoDownsample(bkt: Bucket, id: BlockId, reason: string, details: string, counter: Counter, now: int, encodeMark: Mark -> seq<byte>)
    returns (err: Option<MarkError>)
    requires bkt.Valid()
    modifies bkt, counter
    ensures bkt.Valid() && bkt.origin == old(bkt.origin)
    ensures BlockKey(id, NoDownsampleMarkFilename) in old(bkt.objects) || err.Some? ==>
              bkt.objects == old(bkt.objects) && bkt.log == old(bkt.log) && counter.value == old(counter.value)
    ensures err.None? && BlockKey(id, NoDownsampleMarkFilename) !in old(bkt.objects) ==>
              bkt.objects == old(bkt.objects)[BlockKey(id, NoDownsampleMarkFilename) := encodeMark(NoDownsampleMark(id, NoDownsampleMarkVersion1, now, reason, details))] &&
              bkt.log == old(bkt.log) + [Put(BlockKey(id, NoDownsampleMarkFilename))] && counter.value == old(counter.value) + 1
  {
    err := WriteMarkIfAbsent(bkt, counter, BlockKey(id, NoDownsampleMarkFilename), encodeMark(NoDownsampleMark(id, NoDownsampleMarkVersion1, now, reason, details)));
  }

  /**
   * RemoveMark: deletes the mark `markedFilename` of block `id` when it
   * exists, counting the removal; an absent mark is reported as success.
   */
  method RemoveMark(bkt: Bucket, id: BlockId, counter: Counter, markedFilename: string) returns (err: Option<MarkError>)
    requires bkt.Valid()
    modifies bkt, counter
    ensures bkt.Valid() && bkt.origin == old(bkt.origin)
    ensures BlockKey(id, markedFilename) !in old(bkt.objects) || err.Some? ==>
              bkt.objects == old(bkt.objects) && bkt.log == old(bkt.log) && counter.value == old(counter.value)
    ensures err.None? && BlockKey(id, markedFilename) in old(bkt.objects) ==>
              bkt.objects == old(bkt.objects) - {BlockKey(id, markedFilename)} &&
              bkt.log == old(bkt.log) + [Event.Delete(BlockKey(id, markedFilename))] && counter.value == old(counter.value) + 1
    ensures err.None? ==> BlockKey(id, markedFilename) !in bkt.objects
  {
    var markedFile := BlockKey(id, markedFilename);
    var present := bkt.Exists(markedFile);
    if present.Err? {
      return Some(CheckExists(present.error));
    }
    if !present.value {
      return None;
    }
    var e := bkt.Delete(markedFile);
    if e.Some? {
      return Some(DeleteMark(e.value));
    }
    counter.Inc();
    err := None;
  }

  // ---------------------------------------------------------------------
  // Download
  // ---------------------------------------------------------------------

  /**
   * Manifest entry `f` need not be fetched into `dst`: it records a hash
   * with a hash function, a non-empty path, and the local file's hash, as
   * computed in `entries`, equals the recorded one. A hash that cannot be
   * computed only means the file is fetched again.
   */
  predicate Skippable(entries: map<string, Node>, dst: string, f: File, sha256: seq<byte> -> string) {
    f.hash.Some? && f.hash.value.func != NoneFunc && f.relPath != "" &&
    var actual := CalculateHash(entries, Join(dst, f.relPath), f.hash.value.func, sha256);
    actual.Ok? && HashEqual(f.hash.value, actual.value)
  }

  /** The paths of the skippable entries of `files`, in manifest order. */
  function SkippedPaths(entries: map<string, Node>, dst: string, files: seq<File>, sha256: seq<byte> -> string): seq<string>
    decreases |files|
  {
    if files == [] then []
    else
      var f := files[|files| - 1];
      SkippedPaths(entries, dst, files[..|files| - 1], sha256) + (if Skippable(entries, dst, f, sha256) then [f.relPath] else [])
  }

  /** An entry is skippable exactly when it records a SHA-256 digest equal to that of the regular file at its local path. */
  lemma SkippableMeans(entries: map<string, Node>, dst: string, f: File, sha256: seq<byte> -> string)
    ensures Skippable(entries, dst, f, sha256) <==>
              f.hash.Some? && f.hash.value.func == SHA256Func && f.relPath != "" &&
              Join(dst, f.relPath) in entries && entries[Join(dst, f.relPath)].FileNode? &&
              f.hash.value.value == sha256(entries[Join(dst, f.relPath)].data)
  {
  }

  /** A path is skipped exactly when some manifest entry with that path is skippable. */
  lemma {:induction false} SkippedPathsIff(entries: map<string, Node>, dst: string, files: seq<File>, sha256: seq<byte> -> string)
    ensures forall i :: 0 <= i < |files| && Skippable(entries, dst, files[i], sha256) ==>
              files[i].relPath in SkippedPaths(entries, dst, files, sha256)
    ensures forall p :: p in SkippedPaths(entries, dst, files, sha256) ==>
              exists i :: 0 <= i < |files| && files[i].relPath == p && Skippable(entries, dst, files[i], sha256)
    decreases |files|
  {
    if files != [] {
      var init := files[..|files| - 1];
      SkippedPathsIff(entries, dst, init, sha256);
      forall p | p in SkippedPaths(entries, dst, files, sha256)
        ensures exists i :: 0 <= i < |files| && files[i].relPath == p && Skippable(entries, dst, files[i], sha256)
      {
        if p in SkippedPaths(entries, dst, init, sha256) {
          var i :| 0 <= i < |init| && init[i].relPath == p && Skippable(entries, dst, init[i], sha256);
          assert files[i] == init[i];
        } else {
          assert files[|files| - 1].relPath == p;
        }
      }
      forall i | 0 <= i < |files| && Skippable(entries, dst, files[i], sha256)
        ensures files[i].relPath in SkippedPaths(entries, dst, files, sha256)
      {
        if i < |init| {
          assert files[i] == init[i];
        }
      }
    }
  }

  /**
   * The ignored-path computation of Download: meta.json, then the path of
   * every skippable manifest entry. Hash failures are not errors.
   */
  method IgnoredPaths(fs: FileSystem, dst: string, files: seq<File>, sha256: seq<byte> -> string) returns (ignored: seq<string>)
    ensures ignored == [MetaFilename] + SkippedPaths(fs.entries, dst, files, sha256)
  {
    ignored := [MetaFilename];
    var i := 0;
    while i < |files|
      invariant 0 <= i <= |files|
      invariant ignored == [MetaFilename] + SkippedPaths(fs.entries, dst, files[..i], sha256)
    {
      var fl := files[i];
      if fl.hash.Some? && fl.hash.value.func != NoneFunc && fl.relPath != "" {
        var actualHash := CalculateHash(fs.entries, Join(dst, fl.relPath), fl.hash.value.func, sha256);
        if actualHash.Ok? && HashEqual(fl.hash.value, actualHash.value) {
          ignored := ignored + [fl.relPath];
        }
      }
      assert files[..i + 1][..i] == files[..i];
      i := i + 1;
    }
    assert files[..i] == files;
  }

  datatype DownloadError =
    | CreateDir(mkdirCause: FsError)
    | FetchMeta(fetchCause: TransferError)
    | ReadDownloadedMeta(metaCause: MetaError)
    | FetchBlock(blockCause: TransferError)
    | MakeChunksDir(chunksCause: FsError)

  /** meta.json below `dst` is never one of the paths DownloadDir writes, as long as it is ignored. */
  lemma MetaNotTarget(objects: map<string, seq<byte>>, id: BlockId, dst: string, ignored: seq<string>)
    requires dst != "" && MetaFilename in ignored
    ensures !IsTarget(objects, id, dst, ignored, MetaPath(dst))
  {
    var q := MetaPath(dst);
    BlockPrefix(id);
    assert q == LocalPrefix(dst) + MetaFilename;
    if StartsWith(q, LocalPrefix(dst)) {
      assert q[|LocalPrefix(dst)|..] == MetaFilename;
      var k := SourceKey(id, dst, q);
      assert k == IterPrefix(id) + MetaFilename;
      assert k[|IterPrefix(id)|..] == MetaFilename;
    }
  }

  /** Every path Download writes lies at or below `dst`. */
  lemma TargetBelow(objects: map<string, seq<byte>>, id: BlockId, dst: string, ignored: seq<string>, q: string)
    requires dst != "" && IsTarget(objects, id, dst, ignored, q)
    ensures AtOrBelow(q, dst)
  {
  }

  lemma JoinBelow(dst: string, name: string)
    requires dst != ""
    ensures AtOrBelow(Join(dst, name), dst)
  {
    assert Join(dst, name) == DirPrefix(dst) + name;
  }

  /**
   * Every path not at or below `dst` keeps what it held, and every such path
   * added is a directory `dst` lies below.
   */
  ghost predicate SameOutside(before: map<string, Node>, after: map<string, Node>, dst: string) {
    forall q :: !AtOrBelow(q, dst) ==>
      (q in before ==> q in after && after[q] == before[q]) &&
      (q in after && q !in before ==> after[q] == DirNode && AtOrBelow(dst, q))
  }

  lemma SameOutsideTrans(e0: map<string, Node>, e1: map<string, Node>, e2: map<string, Node>, dst: string)
    requires SameOutside(e0, e1, dst) && SameOutside(e1, e2, dst)
    ensures SameOutside(e0, e2, dst)
  {
  }

  /** A manifest path Download skips is never one of the paths it fetches. */
  lemma SkippedNotTarget(objects: map<string, seq<byte>>, id: BlockId, dst: string, ignored: seq<string>, p: string)
    requires dst != "" && p in ignored
    ensures !IsTarget(objects, id, dst, ignored, Join(dst, p))
  {
    var q := Join(dst, p);
    BlockPrefix(id);
    assert q == LocalPrefix(dst) + p;
    if StartsWith(q, LocalPrefix(dst)) {
      assert q[|LocalPrefix(dst)|..] == p;
      var k := SourceKey(id, dst, q);
      assert k == IterPrefix(id) + p;
      assert k[|IterPrefix(id)|..] == p;
    }
  }

  /**
   * Whatever else Download does, a local file it skipped because its digest
   * matched the manifest is still there with that digest.
   */
  lemma SkippedFilesKept(objects: map<string, seq<byte>>, id: BlockId, dst: string, hashed: map<string, Node>,
                         after: map<string, Node>, files: seq<File>, sha256: seq<byte> -> string)
    requires dst != ""
    requires OnlyTargets(objects, hashed, after, id, dst, [MetaFilename] + SkippedPaths(hashed, dst, files, sha256))
    ensures forall p :: p in SkippedPaths(hashed, dst, files, sha256) ==>
              Join(dst, p) in after && after[Join(dst, p)].FileNode? &&
              exists i :: 0 <= i < |files| && files[i].relPath == p &&
                files[i].hash == Some(ObjectHash(SHA256Func, sha256(after[Join(dst, p)].data)))
  {
    var ignored := [MetaFilename] + SkippedPaths(hashed, dst, files, sha256);
    SkippedPathsIff(hashed, dst, files, sha256);
    forall p | p in SkippedPaths(hashed, dst, files, sha256)
      ensures Join(dst, p) in after && after[Join(dst, p)].FileNode? &&
              exists i :: 0 <= i < |files| && files[i].relPath == p &&
                files[i].hash == Some(ObjectHash(SHA256Func, sha256(after[Join(dst, p)].data)))
    {
      var i :| 0 <= i < |files| && files[i].relPath == p && Skippable(hashed, dst, files[i], sha256);
      SkippableMeans(hashed, dst, files[i], sha256);
      SkippedNotTarget(objects, id, dst, ignored, p);
    }
  }

  /** DownloadDir's targets lie below `dst`, so what it leaves alone includes everything outside. */
  lemma OnlyTargetsOutside(objects: map<string, seq<byte>>, id: BlockId, dst: string, ignored: seq<string>,
                           before: map<string, Node>, after: map<string, Node>)
    requires dst != "" && OnlyTargets(objects, before, after, id, dst, ignored)
    ensures SameOutside(before, after, dst)
  {
    forall q | IsTarget(objects, id, dst, ignored, q)
      ensures AtOrBelow(q, dst)
    {
      TargetBelow(objects, id, dst, ignored, q);
    }
  }

  lemma ChunksDirIsNotMeta(dst: string)
    ensures Join(dst, ChunksDirname) != MetaPath(dst)
  {
    if dst == "" {
      assert Join(dst, ChunksDirname)[0] != MetaPath(dst)[0];
    } else {
      var n := |DirPrefix(dst)|;
      assert Join(dst, ChunksDirname) == DirPrefix(dst) + ChunksDirname && MetaPath(dst) == DirPrefix(dst) + MetaFilename;
      assert Join(dst, ChunksDirname)[n] != MetaPath(dst)[n];
    }
  }

  /**
   * Download: creates `dst`, always fetches meta.json afresh and reads it,
   * computes the ignored paths from its manifest against the local files,
   * fetches every other object of the block not ignored, and finally
   * creates an empty chunks directory if the block had none. Nothing
   * outside `dst` changes but the directories made on the way to it.
   * `hashed` is the local state the hashes were computed against (the state
   * at the failure when meta.json could not be fetched or read) and `files`
   * the manifest read.
   */
  method Download(bkt: Bucket, fs: FileSystem, id: BlockId, dst: string, codec: Codec, sha256: seq<byte> -> string)
    returns (err: Option<DownloadError>, ghost ignored: seq<string>, ghost hashed: map<string, Node>, ghost files: seq<File>)
    modifies fs
    ensures ignored == [MetaFilename] + SkippedPaths(hashed, dst, files, sha256)
    ensures SameOutside(old(fs.entries), fs.entries, dst)
    ensures OnlyTargets(bkt.objects, hashed, fs.entries, id, dst, ignored)
    ensures forall p :: p in SkippedPaths(hashed, dst, files, sha256) ==>
              Join(dst, p) in fs.entries && fs.entries[Join(dst, p)].FileNode? &&
              exists i :: 0 <= i < |files| && files[i].relPath == p &&
                files[i].hash == Some(ObjectHash(SHA256Func, sha256(fs.entries[Join(dst, p)].data)))
    ensures err.None? ==>
              dst != "" && BlockKey(id, MetaFilename) in bkt.objects &&
              Read(codec, bkt.objects[BlockKey(id, MetaFilename)]).Ok? &&
              files == Read(codec, bkt.objects[BlockKey(id, MetaFilename)]).value.thanos.files &&
              dst in hashed && hashed[dst] == DirNode &&
              MetaPath(dst) in hashed && hashed[MetaPath(dst)] == FileNode(bkt.objects[BlockKey(id, MetaFilename)]) &&
              AddedDirsAbove(old(fs.entries) - {MetaPath(dst)}, hashed - {MetaPath(dst)}, dst)
    ensures err.None? ==>
              fs.IsDir(dst) && Join(dst, ChunksDirname) in fs.entries &&
              MetaPath(dst) in fs.entries && fs.entries[MetaPath(dst)] == FileNode(bkt.objects[BlockKey(id, MetaFilename)])
    ensures err.None? ==>
              forall q :: IsTarget(bkt.objects, id, dst, ignored, q) ==>
                q in fs.entries && fs.entries[q] == FileNode(bkt.objects[SourceKey(id, dst, q)])
  {
    var m := FetchMetaFile(bkt, fs, id, dst, codec);
    if m.Err? {
      return Some(m.error), [MetaFilename], fs.entries, [];
    }
    ghost var entries1 := fs.entries;
    hashed, files := fs.entries, m.value.thanos.files;
    err, ignored := FetchRest(bkt, fs, id, dst, m.value.thanos.files, sha256);
    SameOutsideTrans(old(fs.entries), entries1, fs.entries, dst);
    SkippedFilesKept(bkt.objects, id, dst, hashed, fs.entries, files, sha256);
  }

  /** The first part of Download: create `dst`, fetch meta.json into it, and read it back with ReadFromDir. */
  method FetchMetaFile(bkt: Bucket, fs: FileSystem, id: BlockId, dst: string, codec: Codec) returns (r: Result<Meta, DownloadError>)
    modifies fs
    ensures SameOutside(old(fs.entries), fs.entries, dst)
    ensures r.Ok? ==>
              dst != "" && BlockKey(id, MetaFilename) in bkt.objects &&
              Read(codec, bkt.objects[BlockKey(id, MetaFilename)]) == Ok(r.value) &&
              fs.IsDir(dst) && MetaPath(dst) in fs.entries &&
              fs.entries[MetaPath(dst)] == FileNode(bkt.objects[BlockKey(id, MetaFilename)]) &&
              AddedDirsAbove(old(fs.entries) - {MetaPath(dst)}, fs.entries - {MetaPath(dst)}, dst)
  {
    var e := fs.MkdirAll(dst);
    if e.Some? {
      return Err(CreateDir(e.value));
    }
    JoinBelow(dst, MetaFilename);
    assert MetaPath(dst) != dst;
    var fe := DownloadFile(bkt, fs, BlockKey(id, MetaFilename), MetaPath(dst));
    if fe.Some? {
      return Err(FetchMeta(fe.value));
    }
    var m := ReadFromDir(fs, dst, codec);
    if m.Err? {
      return Err(ReadDownloadedMeta(m.error));
    }
    return Ok(m.value);
  }

  /**
   * The rest of Download once meta.json is in place: the ignored paths,
   * the fetch of every other object, and the empty chunks directory.
   */
  method FetchRest(bkt: Bucket, fs: FileSystem, id: BlockId, dst: string, files: seq<File>, sha256: seq<byte> -> string)
    returns (err: Option<DownloadError>, ghost ignored: seq<string>)
    requires dst != "" && fs.IsDir(dst)
    modifies fs
    ensures ignored == [MetaFilename] + SkippedPaths(old(fs.entries), dst, files, sha256)
    ensures OnlyTargets(bkt.objects, old(fs.entries), fs.entries, id, dst, ignored)
    ensures SameOutside(old(fs.entries), fs.entries, dst)
    ensures MetaPath(dst) in old(fs.entries) ==> MetaPath(dst) in fs.entries && fs.entries[MetaPath(dst)] == old(fs.entries)[MetaPath(dst)]
    ensures err.None? ==> fs.IsDir(dst) && Join(dst, ChunksDirname) in fs.entries
    ensures err.None? ==>
              forall q :: IsTarget(bkt.objects, id, dst, ignored, q) ==>
                q in fs.entries && fs.entries[q] == FileNode(bkt.objects[SourceKey(id, dst, q)])
  {
    var ignoredPaths := IgnoredPaths(fs, dst, files, sha256);
    ignored := ignoredPaths;
    MetaNotTarget(bkt.objects, id, dst, ignoredPaths);
    var fe := DownloadDir(bkt, fs, id, dst, ignoredPaths);
    if fe.Some? {
      OnlyTargetsOutside(bkt.objects, id, dst, ignoredPaths, old(fs.entries), fs.entries);
      return Some(FetchBlock(fe.value)), ignored;
    }
    var chunksDir := Join(dst, ChunksDirname);
    JoinBelow(dst, ChunksDirname);
    ChunksDirIsNotMeta(dst);
    if fs.Stat(chunksDir).None? {
      var e := fs.Mkdir(chunksDir);
      if e.Some? {
        OnlyTargetsOutside(bkt.objects, id, dst, ignoredPaths, old(fs.entries), fs.entries);
        return Some(MakeChunksDir(e.value)), ignored;
      }
    }
    OnlyTargetsOutside(bkt.objects, id, dst, ignoredPaths, old(fs.entries), fs.entries);
    err := None;
  }
}
