/**
 * The object-store transfer helpers the block protocol calls (objstore's
 * UploadDir, UploadFile, DownloadFile and DownloadDir), specified by their
 * effect: every regular file below a local directory is put below a bucket
 * prefix, and every object below a prefix, minus the ignored relative
 * paths, is written below a local directory.
 */
module Transfer {
  import opened Wrappers
  import opened Paths
  import opened ObjStore
  import opened LocalFs

  datatype TransferError = Local(fsError: FsError) | Remote(storeError: StoreError) | NotAFile(path: string)

  /** The bucket key `dst/rel` (path.Join of a clean prefix and a relative path). */
  function RemoteKey(dst: string, rel: string): string {
    dst + "/" + rel
  }

  /** The local file UploadDir reads for bucket key `q`. */
  function UploadSource(src: string, dst: string, q: string): string
    requires |q| >= |dst| + 1
  {
    DirPrefix(src) + q[|dst| + 1..]
  }

  /** Key `q` is one that UploadDir(src, dst) writes: it names a regular file below `src`. */
  predicate UploadsTo(fs: FileSystem, src: string, dst: string, q: string)
    reads fs
  {
    StartsWith(q, dst + "/") && |q| > |dst| + 1 && fs.IsFile(UploadSource(src, dst, q))
  }

  /** The regular files strictly below `src`. */
  function FilesBelow(fs: FileSystem, src: string): set<string>
    reads fs
  {
    set k | k in fs.entries && fs.entries[k].FileNode? && StartsWith(k, DirPrefix(src)) && |k| > |DirPrefix(src)|
  }

  lemma UploadKeyOfFile(fs: FileSystem, src: string, dst: string, k: string)
    requires k in FilesBelow(fs, src)
    ensures var q := RemoteKey(dst, k[|DirPrefix(src)|..]);
      UploadsTo(fs, src, dst, q) && UploadSource(src, dst, q) == k
  {
    var q := RemoteKey(dst, k[|DirPrefix(src)|..]);
    assert q[|dst| + 1..] == k[|DirPrefix(src)|..];
    assert DirPrefix(src) + k[|DirPrefix(src)|..] == k;
  }

  lemma FileOfUploadKey(fs: FileSystem, src: string, dst: string, q: string)
    requires UploadsTo(fs, src, dst, q)
    ensures UploadSource(src, dst, q) in FilesBelow(fs, src)
    ensures RemoteKey(dst, UploadSource(src, dst, q)[|DirPrefix(src)|..]) == q
  {
    var k := UploadSource(src, dst, q);
    assert k[|DirPrefix(src)|..] == q[|dst| + 1..];
    assert q == q[..|dst| + 1] + q[|dst| + 1..];
  }

  /** The paths of the puts among `es`. */
  function PutPaths(es: seq<Event>): set<string> {
    set e | e in es && e.Put? :: e.path
  }

  /** What the puts among `es` wrote, for puts UploadDir(src, dst) makes. */
  function UploadedContents(fs: FileSystem, src: string, dst: string, es: seq<Event>): map<string, seq<byte>>
    reads fs
  {
    map q | q in PutPaths(es) && UploadsTo(fs, src, dst, q) :: fs.entries[UploadSource(src, dst, q)].data
  }

  lemma UploadedContentsSnoc(fs: FileSystem, src: string, dst: string, es: seq<Event>, q: string)
    requires UploadsTo(fs, src, dst, q)
    ensures UploadedContents(fs, src, dst, es + [Put(q)]) ==
            UploadedContents(fs, src, dst, es)[q := fs.entries[UploadSource(src, dst, q)].data]
  {
    assert PutPaths(es + [Put(q)]) == PutPaths(es) + {q};
  }

  lemma SuffixSnoc(es: seq<Event>, n: nat, e: Event)
    requires n <= |es|
    ensures (es + [e])[n..] == es[n..] + [e]
    ensures (es + [e])[..n] == es[..n]
  {
  }

  lemma MergeUpdate(a: map<string, seq<byte>>, b: map<string, seq<byte>>, k: string, v: seq<byte>)
    ensures (a + b)[k := v] == a + b[k := v]
  {
  }

  /** Every event of `es` is a put UploadDir(src, dst) may make. */
  ghost predicate AllUploads(fs: FileSystem, src: string, dst: string, es: seq<Event>)
    reads fs
  {
    forall e :: e in es ==> e.Put? && UploadsTo(fs, src, dst, e.path)
  }

  /** Every key whose local file is no longer `left` has been put. */
  ghost predicate Covers(fs: FileSystem, src: string, dst: string, left: set<string>, es: seq<Event>)
    reads fs
  {
    forall q :: UploadsTo(fs, src, dst, q) && UploadSource(src, dst, q) !in left ==> Put(q) in es
  }

  lemma UploadStep(fs: FileSystem, src: string, dst: string, left: set<string>, es: seq<Event>, k: string)
    requires k in left && k in FilesBelow(fs, src)
    requires AllUploads(fs, src, dst, es) && Covers(fs, src, dst, left, es)
    ensures var q := RemoteKey(dst, k[|DirPrefix(src)|..]);
      AllUploads(fs, src, dst, es + [Put(q)]) && Covers(fs, src, dst, left - {k}, es + [Put(q)])
  {
    var q := RemoteKey(dst, k[|DirPrefix(src)|..]);
    UploadKeyOfFile(fs, src, dst, k);
    forall q' | UploadsTo(fs, src, dst, q') && UploadSource(src, dst, q') !in left - {k}
      ensures Put(q') in es + [Put(q)]
    {
      if UploadSource(src, dst, q') == k {
        FileOfUploadKey(fs, src, dst, q');
      }
    }
  }

  /**
   * objstore.UploadDir: puts every regular file below the local directory
   * `src` at `dst/<relative path>`, in an unspecified order; it stops at the
   * first failure. Nothing but those puts reaches the bucket.
   */
  method UploadDir(fs: FileSystem, bkt: Bucket, src: string, dst: string) returns (err: Option<TransferError>, ghost es: seq<Event>)
    requires bkt.Valid()
    modifies bkt
    ensures bkt.Valid() && bkt.origin == old(bkt.origin)
    ensures bkt.log == old(bkt.log) + es
    ensures forall e :: e in es ==> e.Put? && UploadsTo(fs, src, dst, e.path)
    ensures bkt.objects == old(bkt.objects) + UploadedContents(fs, src, dst, es)
    ensures !fs.IsDir(src) ==> err.Some? && es == []
    ensures err.None? ==> forall q :: UploadsTo(fs, src, dst, q) ==> Put(q) in es
  {
    es := [];
    if !fs.IsDir(src) {
      return Some(Local(if src in fs.entries then NotADir(src) else NotExist(src))), es;
    }
    var left := FilesBelow(fs, src);
    ghost var objects0 := bkt.objects;
    assert UploadedContents(fs, src, dst, []) == map[];
    while left != {}
      invariant left <= FilesBelow(fs, src)
      invariant bkt.Valid() && bkt.origin == old(bkt.origin)
      invariant bkt.log == old(bkt.log) + es
      invariant AllUploads(fs, src, dst, es)
      invariant bkt.objects == objects0 + UploadedContents(fs, src, dst, es)
      invariant Covers(fs, src, dst, left, es)
      decreases |left|
    {
      var k :| k in left;
      var q;
      err, q := UploadOne(fs, bkt, src, dst, k, left, objects0, es);
      if err.Some? {
        return;
      }
      LogSnoc(old(bkt.log), es, Put(q));
      es := es + [Put(q)];
      left := left - {k};
    }
    err := None;
  }

  /** One step of UploadDir: the put of local file `k`, keeping the loop's facts when it succeeds. */
  method UploadOne(fs: FileSystem, bkt: Bucket, src: string, dst: string, k: string, left: set<string>,
                   ghost objects0: map<string, seq<byte>>, ghost es: seq<Event>)
    returns (err: Option<TransferError>, q: string)
    requires k in left && left <= FilesBelow(fs, src)
    requires bkt.Valid() && AllUploads(fs, src, dst, es) && Covers(fs, src, dst, left, es)
    requires bkt.objects == objects0 + UploadedContents(fs, src, dst, es)
    modifies bkt
    ensures bkt.Valid() && bkt.origin == old(bkt.origin)
    ensures err.Some? ==> bkt.log == old(bkt.log) && bkt.objects == old(bkt.objects)
    ensures err.None? ==>
              bkt.log == old(bkt.log) + [Put(q)] &&
              AllUploads(fs, src, dst, es + [Put(q)]) && Covers(fs, src, dst, left - {k}, es + [Put(q)]) &&
              bkt.objects == objects0 + UploadedContents(fs, src, dst, es + [Put(q)])
  {
    q := RemoteKey(dst, k[|DirPrefix(src)|..]);
    UploadKeyOfFile(fs, src, dst, k);
    var e := bkt.Upload(q, fs.entries[k].data);
    if e.Some? {
      return Some(Remote(e.value)), q;
    }
    UploadedContentsSnoc(fs, src, dst, es, q);
    MergeUpdate(objects0, UploadedContents(fs, src, dst, es), q, fs.entries[k].data);
    UploadStep(fs, src, dst, left, es, k);
    err := None;
  }

  /** objstore.UploadFile: puts one local regular file at `dst`. */
  method UploadFile(fs: FileSystem, bkt: Bucket, src: string, dst: string) returns (err: Option<TransferError>)
    requires bkt.Valid()
    modifies bkt
    ensures bkt.Valid() && bkt.origin == old(bkt.origin)
    ensures err.None? ==> fs.IsFile(src) && bkt.objects == old(bkt.objects)[dst := fs.entries[src].data] &&
                          bkt.log == old(bkt.log) + [Put(dst)]
    ensures err.Some? ==> bkt.objects == old(bkt.objects) && bkt.log == old(bkt.log)
    ensures !fs.IsFile(src) ==> err.Some?
  {
    if !fs.IsFile(src) {
      return Some(if src in fs.entries then NotAFile(src) else Local(NotExist(src)));
    }
    var e := bkt.Upload(dst, fs.entries[src].data);
    if e.Some? {
      return Some(Remote(e.value));
    }
    err := None;
  }

  /**
   * objstore.DownloadFile: writes object `src` to the local file `dst`; a
   * file that could not be written completely is removed again.
   */
  method DownloadFile(bkt: Bucket, fs: FileSystem, src: string, dst: string) returns (err: Option<TransferError>)
    modifies fs
    ensures err.None? ==> src in bkt.objects && fs.entries == old(fs.entries)[dst := FileNode(bkt.objects[src])]
    ensures forall q :: q != dst ==> (q in fs.entries <==> q in old(fs.entries)) && (q in fs.entries ==> fs.entries[q] == old(fs.entries)[q])
    ensures src !in bkt.objects ==> err.Some? && fs.entries == old(fs.entries)
  {
    var r := bkt.Get(src);
    if r.Err? {
      return Some(Remote(r.error));
    }
    var e := fs.Create(dst);
    if e.Some? {
      return Some(Local(e.value));
    }
    e := fs.Write(dst, r.value);
    if e.Some? {
      var _ := fs.Close(dst);
      var _ := fs.Remove(dst);
      return Some(Local(e.value));
    }
    e := fs.Close(dst);
    if e.Some? {
      var _ := fs.Remove(dst);
      return Some(Local(e.value));
    }
    err := None;
  }

  /** The local path of `dst/rel` (filepath.Join). */
  function LocalPrefix(dst: string): string {
    if dst == "" then "" else DirPrefix(dst)
  }

  /** Key `k` is one DownloadDir(src, _, ignored) fetches: an object below `src` whose relative path is not ignored. */
  predicate Fetched(src: string, ignored: seq<string>, k: string) {
    var p := IterPrefix(src);
    StartsWith(k, p) && |k| > |p| && !EndsWith(k, "/") && k[|p|..] !in ignored
  }

  /** The bucket key that DownloadDir writes to local path `q`. */
  function SourceKey(src: string, dst: string, q: string): string
    requires StartsWith(q, LocalPrefix(dst))
  {
    IterPrefix(src) + q[|LocalPrefix(dst)|..]
  }

  /** Local path `q` is one that DownloadDir(src, dst, ignored) writes. */
  predicate IsTarget(objects: map<string, seq<byte>>, src: string, dst: string, ignored: seq<string>, q: string) {
    StartsWith(q, LocalPrefix(dst)) && SourceKey(src, dst, q) in objects && Fetched(src, ignored, SourceKey(src, dst, q))
  }

  function TargetOf(src: string, dst: string, k: string): string
    requires StartsWith(k, IterPrefix(src))
  {
    LocalPrefix(dst) + k[|IterPrefix(src)|..]
  }

  lemma TargetOfFetched(objects: map<string, seq<byte>>, src: string, dst: string, ignored: seq<string>, k: string)
    requires k in objects && Fetched(src, ignored, k)
    ensures IsTarget(objects, src, dst, ignored, TargetOf(src, dst, k))
    ensures SourceKey(src, dst, TargetOf(src, dst, k)) == k
    ensures TargetOf(src, dst, k) != dst
  {
    var t := TargetOf(src, dst, k);
    assert t[|LocalPrefix(dst)|..] == k[|IterPrefix(src)|..];
    assert IterPrefix(src) + k[|IterPrefix(src)|..] == k;
    assert t[|t| - 1] == k[|k| - 1] != '/';
    if dst != "" && dst[|dst| - 1] != '/' {
      assert TrimTrailingSlashes(dst) == dst;
    }
  }

  lemma TargetIsTargetOf(objects: map<string, seq<byte>>, src: string, dst: string, ignored: seq<string>, q: string)
    requires IsTarget(objects, src, dst, ignored, q)
    ensures TargetOf(src, dst, SourceKey(src, dst, q)) == q
  {
    var k := SourceKey(src, dst, q);
    assert k[|IterPrefix(src)|..] == q[|LocalPrefix(dst)|..];
    assert q == q[..|LocalPrefix(dst)|] + q[|LocalPrefix(dst)|..];
  }

  /** Every local path DownloadDir writes whose object is no longer `left` holds that object. */
  ghost predicate Written(objects: map<string, seq<byte>>, entries: map<string, Node>, src: string, dst: string,
                          ignored: seq<string>, left: set<string>) {
    forall q :: IsTarget(objects, src, dst, ignored, q) && SourceKey(src, dst, q) !in left ==>
      q in entries && entries[q] == FileNode(objects[SourceKey(src, dst, q)])
  }

  /**
   * Every local path DownloadDir does not write keeps what it held, and
   * every path it adds that it does not write is a directory on the way to
   * or below `dst`.
   */
  ghost predicate OnlyTargets(objects: map<string, seq<byte>>, before: map<string, Node>, after: map<string, Node>,
                              src: string, dst: string, ignored: seq<string>) {
    forall q :: !IsTarget(objects, src, dst, ignored, q) ==>
      (q in before ==> q in after && after[q] == before[q]) &&
      (q in after && q !in before ==> after[q] == DirNode && (AtOrBelow(q, dst) || AtOrBelow(dst, q)))
  }

  /**
   * objstore.DownloadDir with ignored paths: creates `dst`, then writes every
   * object below `src` to the matching path below `dst`, creating the
   * directories on its way, and skipping objects whose path relative to
   * `src` is listed in `ignored` and nested-prefix names. Nothing else
   * below or outside `dst` changes.
   */
  method DownloadDir(bkt: Bucket, fs: FileSystem, src: string, dst: string, ignored: seq<string>) returns (err: Option<TransferError>)
    modifies fs
    ensures err.None? ==> fs.IsDir(dst)
    ensures err.None? ==> Written(bkt.objects, fs.entries, src, dst, ignored, {})
    ensures OnlyTargets(bkt.objects, old(fs.entries), fs.entries, src, dst, ignored)
  {
    var e := fs.MkdirAll(dst);
    if e.Some? {
      return Some(Local(e.value));
    }
    var left := set k | k in bkt.objects && Fetched(src, ignored, k);
    while left != {}
      invariant left <= set k | k in bkt.objects && Fetched(src, ignored, k)
      invariant dst != "" && fs.IsDir(dst)
      invariant OnlyTargets(bkt.objects, old(fs.entries), fs.entries, src, dst, ignored)
      invariant Written(bkt.objects, fs.entries, src, dst, ignored, left)
      decreases |left|
    {
      var k :| k in left;
      err := DownloadOne(bkt, fs, src, dst, ignored, left, k, old(fs.entries));
      if err.Some? {
        return;
      }
      left := left - {k};
    }
    err := None;
  }

  /**
   * One step of DownloadDir: the directory of object `k`'s local path
   * (os.MkdirAll), then the fetch of `k`, keeping the loop's facts when it
   * succeeds.
   */
  method DownloadOne(bkt: Bucket, fs: FileSystem, src: string, dst: string, ignored: seq<string>, left: set<string>,
                     k: string, ghost entries0: map<string, Node>)
    returns (err: Option<TransferError>)
    requires k in left && k in bkt.objects && Fetched(src, ignored, k)
    requires dst != "" && fs.IsDir(dst) && OnlyTargets(bkt.objects, entries0, fs.entries, src, dst, ignored)
    requires Written(bkt.objects, fs.entries, src, dst, ignored, left)
    modifies fs
    ensures OnlyTargets(bkt.objects, entries0, fs.entries, src, dst, ignored)
    ensures err.None? ==> fs.IsDir(dst) && Written(bkt.objects, fs.entries, src, dst, ignored, left - {k})
  {
    TargetOfFetched(bkt.objects, src, dst, ignored, k);
    var t := TargetOf(src, dst, k);
    var e := MakeParent(fs, t, dst);
    if e.Some? {
      return Some(Local(e.value));
    }
    err := DownloadFile(bkt, fs, k, t);
    if err.Some? {
      return;
    }
    forall q | IsTarget(bkt.objects, src, dst, ignored, q) && SourceKey(src, dst, q) !in left - {k}
      ensures q in fs.entries && fs.entries[q] == FileNode(bkt.objects[SourceKey(src, dst, q)])
    {
      if SourceKey(src, dst, q) == k {
        TargetIsTargetOf(bkt.objects, src, dst, ignored, q);
      }
    }
  }

  /**
   * os.MkdirAll of the directory of local path `t` below `dst`: every entry
   * stays, and every entry added is a directory on the way to or below `dst`.
   */
  method MakeParent(fs: FileSystem, t: string, dst: string) returns (err: Option<FsError>)
    requires dst != "" && StartsWith(t, DirPrefix(dst))
    modifies fs
    ensures forall q :: q in old(fs.entries) ==> q in fs.entries && fs.entries[q] == old(fs.entries)[q]
    ensures forall q :: q in fs.entries && q !in old(fs.entries) ==>
              fs.entries[q] == DirNode && (AtOrBelow(q, dst) || AtOrBelow(dst, q))
  {
    var d := Dir(t);
    if d == "." || d == "/" {
      return None;
    }
    DirAbove(t);
    err := fs.MkdirAll(d);
    forall q | q in fs.entries && q !in old(fs.entries)
      ensures AtOrBelow(q, dst) || AtOrBelow(dst, q)
    {
      AtOrBelowTrans(t, d, q);
      Comparable(t, dst, q);
    }
  }
}
