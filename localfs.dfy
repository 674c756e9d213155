/**
 * The local filesystem as the block code sees it: a map from path to file
 * contents or directory, and a log of every change made through it. Reads
 * are deterministic functions of the map; every change may fail with an I/O
 * error, and a failed change leaves the map as it was unless stated.
 */
module LocalFs {
  import opened Wrappers
  import opened Paths

  datatype Node = FileNode(data: seq<byte>) | DirNode

  datatype FileInfo = FileInfo(name: string, size: nat, isDir: bool)

  /** One change made to the filesystem, in the order made. */
  datatype FsOp =
    | MadeDir(path: string)
    | Created(path: string)
    | Wrote(path: string)
    | Synced(path: string)
    | Closed(path: string)
    | Removed(path: string)
    | Renamed(from: string, to: string)
    | DirSynced(path: string)

  datatype FsError = NotExist(path: string) | Exist(path: string) | NotADir(path: string) | IsADir(path: string) | NotEmpty(path: string) | IoError(path: string)

  /** The prefix every path directly or indirectly inside `dir` starts with. */
  function DirPrefix(dir: string): string {
    TrimTrailingSlashes(dir) + "/"
  }

  /** `k` is the path of an entry directly inside `dir`. */
  predicate IsChildPath(k: string, dir: string) {
    var pre := DirPrefix(dir);
    StartsWith(k, pre) && |k| > |pre| && '/' !in k[|pre|..]
  }

  /** `k` is `dir` itself or lies below it. */
  predicate AtOrBelow(k: string, dir: string) {
    k == dir || StartsWith(k, DirPrefix(dir))
  }

  /** `entries` without `p` and everything below it. */
  function Without(entries: map<string, Node>, p: string): (r: map<string, Node>)
    ensures forall q :: q in r <==> q in entries && !AtOrBelow(q, p)
    ensures forall q :: q in r ==> r[q] == entries[q]
  {
    map q | q in entries && !AtOrBelow(q, p) :: entries[q]
  }

  /** `after` is `before` with directories added, each of them `p` or a directory `p` lies below. */
  ghost predicate AddedDirsAbove(before: map<string, Node>, after: map<string, Node>, p: string) {
    (forall q :: q in before ==> q in after && after[q] == before[q]) &&
    (forall q :: q in after && q !in before ==> after[q] == DirNode && AtOrBelow(p, q))
  }

  /** Directories added above the parent `d` of `p` are directories above `p` too. */
  lemma AddedAboveParent(before: map<string, Node>, after: map<string, Node>, p: string, d: string)
    requires AtOrBelow(p, d) && AddedDirsAbove(before, after, d)
    ensures AddedDirsAbove(before, after, p)
  {
    forall q | q in after && q !in before
      ensures AtOrBelow(p, q)
    {
      AtOrBelowTrans(p, d, q);
    }
  }

  /** Making the directory `p` once its missing ancestors are made adds only directories at or above `p`. */
  lemma AddedThenMade(before: map<string, Node>, made: map<string, Node>, p: string)
    requires p !in before && AddedDirsAbove(before, made, p)
    ensures AddedDirsAbove(before, made[p := DirNode], p)
  {
  }

  /** A path without trailing separators is its own trimmed form. */
  lemma TrimmedIsTrimmed(t: string)
    requires t == [] || t[|t| - 1] != '/'
    ensures TrimTrailingSlashes(t) == t
  {
  }

  /** The directory filepath.Dir names encloses the path, and is shorter, unless it is "." or "/". */
  lemma DirAbove(p: string)
    requires Dir(p) != "." && Dir(p) != "/"
    ensures |Dir(p)| < |p| && AtOrBelow(p, Dir(p))
  {
    var q := p[..|p| - |LastElem(p)|];
    var t := TrimTrailingSlashes(q);
    assert q != "" && t != "" && Dir(p) == t;
    assert q[|q| - 1] == '/';
    assert |t| < |q|;
    TrimmedIsTrimmed(t);
    assert DirPrefix(t) == q[..|t| + 1];
  }

  lemma AtOrBelowTrans(a: string, b: string, c: string)
    requires AtOrBelow(a, b) && AtOrBelow(b, c)
    ensures AtOrBelow(a, c)
  {
    if a != b && b != c {
      var tb, tc := TrimTrailingSlashes(b), TrimTrailingSlashes(c);
      if tc != [] {
        assert b[|tc| - 1] == tc[|tc| - 1] != '/';
      }
      assert |tc| <= |tb|;
      if |tb| > |tc| {
        assert DirPrefix(tb) == tb + "/";
        assert tb[..|tc| + 1] == DirPrefix(c);
      } else {
        assert tb == b[..|tb|] == tc;
      }
    }
  }

  /** Two directories a path lies below are nested one in the other. */
  lemma Comparable(t: string, d: string, q: string)
    requires StartsWith(t, DirPrefix(d)) && AtOrBelow(t, q)
    ensures AtOrBelow(q, d) || AtOrBelow(d, q)
  {
    if t != q {
      var td, tq := TrimTrailingSlashes(d), TrimTrailingSlashes(q);
      if |tq| > |td| {
        assert q[..|td| + 1] == t[..|td| + 1];
      } else if |tq| < |td| {
        assert d[..|tq| + 1] == t[..|tq| + 1];
      } else {
        assert tq == t[..|tq|] == td;
        if d != q {
          if |d| == |td| {
            assert q[..|td| + 1] == DirPrefix(d);
          } else {
            assert d[..|tq| + 1] == DirPrefix(q);
          }
        }
      }
    }
  }

  class FileSystem {
    var entries: map<string, Node>
    var ops: seq<FsOp>
    /** What stat reports as the size of a directory (filesystem dependent). */
    const dirSize: nat

    constructor (entries: map<string, Node>, dirSize: nat)
      ensures this.entries == entries && ops == [] && this.dirSize == dirSize
    {
      this.entries := entries;
      ops := [];
      this.dirSize := dirSize;
    }

    predicate IsDir(p: string)
      reads this
    {
      p in entries && entries[p].DirNode?
    }

    predicate IsFile(p: string)
      reads this
    {
      p in entries && entries[p].FileNode?
    }

    /** The directory `p` would be created in exists; "." and "/" always do. */
    predicate ParentExists(p: string)
      reads this
    {
      var d := Dir(p);
      d == "." || d == "/" || IsDir(d)
    }

    /** os.Stat: name, size and kind of an existing entry. */
    function Stat(p: string): (r: Option<FileInfo>)
      reads this
      ensures r.Some? <==> p in entries
      ensures r.Some? ==> r.value.isDir == IsDir(p) && r.value.name == Base(p)
      ensures r.Some? && !r.value.isDir ==> r.value.size == |entries[p].data|
      ensures r.Some? && r.value.isDir ==> r.value.size == dirSize
    {
      if p !in entries then None
      else
        match entries[p]
        case FileNode(data) => Some(FileInfo(Base(p), |data|, false))
        case DirNode => Some(FileInfo(Base(p), dirSize, true))
    }

    /** Names of the entries directly inside directory `dir`. */
    function ChildNames(dir: string): set<string>
      reads this
    {
      set k | k in entries && IsChildPath(k, dir) :: k[|DirPrefix(dir)|..]
    }

    /** os.ReadDir: the names inside a directory, sorted; anything but a directory is an error. */
    method ReadDir(dir: string) returns (r: Result<seq<string>, FsError>)
      ensures r.Ok? <==> IsDir(dir)
      ensures r.Ok? ==> StrictlySorted(r.value)
      ensures r.Ok? ==> forall n :: n in r.value <==> n in ChildNames(dir)
    {
      if dir !in entries {
        return Err(NotExist(dir));
      }
      if !IsDir(dir) {
        return Err(NotADir(dir));
      }
      var names := SortedElements(ChildNames(dir));
      return Ok(names);
    }

    /**
     * os.Mkdir: creates one directory; an existing entry, an empty path or a
     * missing parent directory is an error.
     */
    method Mkdir(p: string) returns (err: Option<FsError>)
      modifies this
      ensures err.None? ==> entries == old(entries)[p := DirNode] && ops == old(ops) + [MadeDir(p)]
      ensures err.Some? ==> entries == old(entries) && ops == old(ops)
      ensures p in old(entries) || p == "" || !old(ParentExists(p)) ==> err.Some?
    {
      if p == "" {
        return Some(NotExist(p));
      }
      if p in entries {
        return Some(Exist(p));
      }
      if !ParentExists(p) {
        return Some(if Dir(p) in entries then NotADir(Dir(p)) else NotExist(Dir(p)));
      }
      if * {
        return Some(IoError(p));
      }
      entries := entries[p := DirNode];
      ops := ops + [MadeDir(p)];
      err := None;
    }

    /**
     * os.MkdirAll: succeeds at once on an existing directory and fails on a
     * file; otherwise creates the missing parent directories first, then `p`.
     * A failure part-way leaves the directories already made.
     */
    method MkdirAll(p: string) returns (err: Option<FsError>)
      modifies this
      ensures AddedDirsAbove(old(entries), entries, p)
      ensures err.None? ==> IsDir(p)
      ensures p != "" && old(IsDir(p)) ==> err.None? && entries == old(entries) && ops == old(ops)
      ensures old(IsFile(p)) || p == "" ==> err.Some? && entries == old(entries) && ops == old(ops)
      decreases |p|
    {
      if p == "" {
        return Some(NotExist(p));
      }
      if IsDir(p) {
        return None;
      }
      if p in entries {
        return Some(NotADir(p));
      }
      var d := Dir(p);
      ghost var before := entries;
      if d != "." && d != "/" {
        DirAbove(p);
        err := MkdirAll(d);
        AddedAboveParent(before, entries, p, d);
        if err.Some? {
          return;
        }
      }
      ghost var made := entries;
      err := Mkdir(p);
      if err.None? {
        AddedThenMade(before, made, p);
      }
    }

    /** os.Create: creates or truncates a file; its directory must exist. */
    method Create(p: string) returns (err: Option<FsError>)
      modifies this
      ensures err.None? ==> entries == old(entries)[p := FileNode([])] && ops == old(ops) + [Created(p)]
      ensures err.Some? ==> entries == old(entries) && ops == old(ops)
      ensures old(IsDir(p)) || !old(ParentExists(p)) ==> err.Some?
    {
      if IsDir(p) {
        return Some(IsADir(p));
      }
      if !ParentExists(p) {
        return Some(if Dir(p) in entries then NotADir(Dir(p)) else NotExist(Dir(p)));
      }
      if * {
        return Some(IoError(p));
      }
      entries := entries[p := FileNode([])];
      ops := ops + [Created(p)];
      err := None;
    }

    /** Writes `data` to the open file `p`; a failed write may leave any prefix of it. */
    method Write(p: string, data: seq<byte>) returns (err: Option<FsError>)
      requires IsFile(p)
      modifies this
      ensures err.None? ==> entries == old(entries)[p := FileNode(data)] && ops == old(ops) + [Wrote(p)]
      ensures err.Some? ==> ops == old(ops) && p in entries && entries.Keys == old(entries.Keys)
      ensures err.Some? ==> forall q :: q in old(entries) && q != p ==> entries[q] == old(entries)[q]
    {
      if * {
        var k: nat :| k <= |data|;
        entries := entries[p := FileNode(data[..k])];
        return Some(IoError(p));
      }
      entries := entries[p := FileNode(data)];
      ops := ops + [Wrote(p)];
      err := None;
    }

    /** File.Sync: forces the file's contents to stable storage. */
    method Sync(p: string) returns (err: Option<FsError>)
      modifies this
      ensures entries == old(entries)
      ensures err.None? ==> ops == old(ops) + [Synced(p)]
      ensures err.Some? ==> ops == old(ops)
    {
      if * {
        return Some(IoError(p));
      }
      ops := ops + [Synced(p)];
      err := None;
    }

    /** File.Close. */
    method Close(p: string) returns (err: Option<FsError>)
      modifies this
      ensures entries == old(entries)
      ensures err.None? ==> ops == old(ops) + [Closed(p)]
      ensures err.Some? ==> ops == old(ops)
    {
      if * {
        return Some(IoError(p));
      }
      ops := ops + [Closed(p)];
      err := None;
    }

    /** os.RemoveAll: removes `p` and everything below it; a missing `p` is not an error. */
    method RemoveAll(p: string) returns (err: Option<FsError>)
      modifies this
      ensures err.None? ==> entries == Without(old(entries), p) && ops == old(ops) + [Removed(p)]
      ensures err.Some? ==> entries == old(entries) && ops == old(ops)
    {
      if * {
        return Some(IoError(p));
      }
      entries := Without(entries, p);
      ops := ops + [Removed(p)];
      err := None;
    }

    /** os.Remove: removes a file or an empty directory. */
    method Remove(p: string) returns (err: Option<FsError>)
      modifies this
      ensures err.None? ==> p in old(entries) && entries == old(entries) - {p} && ops == old(ops) + [Removed(p)]
      ensures err.Some? ==> entries == old(entries) && ops == old(ops)
      ensures p !in old(entries) ==> err.Some?
    {
      if p !in entries {
        return Some(NotExist(p));
      }
      if IsDir(p) && ChildNames(p) != {} {
        return Some(NotEmpty(p));
      }
      if * {
        return Some(IoError(p));
      }
      entries := entries - {p};
      ops := ops + [Removed(p)];
      err := None;
    }

    /** os.Rename of one entry onto a path that is not a directory, in an existing directory. */
    method Rename(from: string, to: string) returns (err: Option<FsError>)
      modifies this
      ensures err.None? ==> from in old(entries) && !old(IsDir(to)) && old(ParentExists(to))
      ensures err.None? ==> entries == (old(entries) - {from})[to := old(entries)[from]]
      ensures err.None? ==> ops == old(ops) + [Renamed(from, to)]
      ensures err.Some? ==> entries == old(entries) && ops == old(ops)
    {
      if from !in entries {
        return Some(NotExist(from));
      }
      if IsDir(to) {
        return Some(IsADir(to));
      }
      if !ParentExists(to) {
        return Some(if Dir(to) in entries then NotADir(Dir(to)) else NotExist(Dir(to)));
      }
      if * {
        return Some(IoError(to));
      }
      entries := (entries - {from})[to := entries[from]];
      ops := ops + [Renamed(from, to)];
      err := None;
    }

    /** fileutil.OpenDir, Fdatasync and Close of a directory: makes renames inside it durable. */
    method SyncDir(p: string) returns (err: Option<FsError>)
      modifies this
      ensures entries == old(entries)
      ensures err.None? ==> IsDir(p) && ops == old(ops) + [DirSynced(p)]
      ensures err.Some? ==> ops == old(ops)
    {
      if !IsDir(p) {
        return Some(if p in entries then NotADir(p) else NotExist(p));
      }
      if * {
        return Some(IoError(p));
      }
      ops := ops + [DirSynced(p)];
      err := None;
    }
  }

  /** A name `ReadDir` reports is the base name of an existing entry joined below the directory. */
  lemma ChildNameJoin(fs: FileSystem, dir: string, n: string)
    requires dir != ""
    requires n in fs.ChildNames(dir)
    ensures Join(dir, n) in fs.entries
    ensures n != "" && '/' !in n
  {
    var pre := DirPrefix(dir);
    var k :| k in fs.entries && IsChildPath(k, dir) && n == k[|pre|..];
    assert k == pre + n;
  }
}
