/**
 * The block descriptor (meta.json) and its codec: version-gated reading,
 * label normalisation, the temp-file-then-rename local write, injection of
 * the Thanos section, lazy extension decoding and the resolution/group keys.
 * JSON itself is abstract: a `Codec` supplies encode and decode.
 */
module Metadata {
  import opened Wrappers
  import opened Paths
  import opened LocalFs

  const MetaFilename := "meta.json"
  /** The only TSDB meta version Thanos reads. */
  const TSDBVersion1 := 1
  /** The only Thanos section version Thanos reads; 0 (absent) is read as this. */
  const ThanosVersion1 := 1

  /** SourceType: the component that produced the block. */
  type SourceType = string
  const UnknownSource: SourceType := ""
  const SidecarSource: SourceType := "sidecar"
  const ReceiveSource: SourceType := "receive"
  const CompactorSource: SourceType := "compactor"
  const CompactorRepairSource: SourceType := "compactor.repair"
  const RulerSource: SourceType := "ruler"
  const BucketRepairSource: SourceType := "bucket.repair"
  const BucketRewriteSource: SourceType := "bucket.rewrite"
  const BucketUploadSource: SourceType := "bucket.upload"
  const TestSource: SourceType := "test"

  /** An opaque JSON document (the `extensions` payload). */
  type Json = seq<byte>

  datatype HashFunc = NoneFunc | SHA256Func | UnsupportedFunc(name: string)

  datatype ObjectHash = ObjectHash(func: HashFunc, value: string)

  /** One entry of the `files` manifest; a size of 0 stands for an omitted size. */
  datatype File = File(relPath: string, sizeBytes: int, hash: Option<ObjectHash>)

  datatype Downsample = Downsample(resolution: int)

  datatype IndexStats = IndexStats(seriesMaxSize: int, chunkMaxSize: int)

  datatype DeletionRequest = DeletionRequest(matchers: seq<string>, intervals: seq<(int, int)>, requestId: string)

  datatype Rewrite = Rewrite(sources: seq<string>, deletionsApplied: seq<DeletionRequest>, relabelsApplied: seq<string>)

  /** The Thanos section; `labels` is None for a JSON null. */
  datatype Thanos = Thanos(
    version: int,
    labels: Option<map<string, string>>,
    downsample: Downsample,
    source: SourceType,
    segmentFiles: seq<string>,
    files: seq<File>,
    rewrites: seq<Rewrite>,
    indexStats: IndexStats,
    extensions: Option<Json>,
    uploadTime: int)

  datatype Compaction = Compaction(level: int, sources: seq<string>, parents: seq<string>, deletable: bool, failed: bool)

  /** tsdb.BlockMeta, the generic part of the descriptor. */
  datatype BlockMeta = BlockMeta(ulid: string, minTime: int, maxTime: int, compaction: Compaction, version: int)

  datatype Meta = Meta(block: BlockMeta, thanos: Thanos)

  /** The JSON encoding of descriptors (json.Encoder with indentation, json.Decoder). */
  datatype Codec = Codec(encode: Meta -> seq<byte>, decode: seq<byte> -> Option<Meta>)

  /** Decoding an encoded descriptor gives it back. */
  ghost predicate RoundTrips(codec: Codec) {
    forall m :: codec.decode(codec.encode(m)) == Some(m)
  }

  /** Labels with a null map read as the empty map. */
  function LabelsOf(t: Thanos): map<string, string> {
    if t.labels.Some? then t.labels.value else map[]
  }

  datatype MetaError =
    | OpenError(path: string)
    | DecodeError
    | UnexpectedVersion(version: int)
    | UnexpectedThanosVersion(reported: int)

  /** The descriptor decoded checks pass on: TSDB version 1, Thanos version 0 or 1. */
  predicate Supported(m: Meta) {
    m.block.version == TSDBVersion1 && (m.thanos.version == 0 || m.thanos.version == ThanosVersion1)
  }

  /** The descriptor with a null label map replaced by the empty map. */
  function Normalized(m: Meta): Meta {
    if m.thanos.labels.None? then m.(thanos := m.thanos.(labels := Some(map[]))) else m
  }

  /**
   * Read, with the Thanos-version error reporting the Thanos section's
   * version (the source reports the TSDB version there; see ReadAsWritten).
   */
  function Read(codec: Codec, data: seq<byte>): (r: Result<Meta, MetaError>)
    ensures codec.decode(data).None? ==> r == Err(DecodeError)
    ensures r.Ok? <==> codec.decode(data).Some? && Supported(codec.decode(data).value)
    ensures codec.decode(data).Some? && codec.decode(data).value.block.version != TSDBVersion1 ==>
              r == Err(UnexpectedVersion(codec.decode(data).value.block.version))
    ensures codec.decode(data).Some? && codec.decode(data).value.block.version == TSDBVersion1 && !Supported(codec.decode(data).value) ==>
              r == Err(UnexpectedThanosVersion(codec.decode(data).value.thanos.version))
    ensures r.Ok? ==> r.value.thanos.labels.Some?
    ensures r.Ok? ==> r.value.thanos.labels == Some(LabelsOf(codec.decode(data).value.thanos))
    ensures r.Ok? ==> r.value.block == codec.decode(data).value.block
    ensures r.Ok? ==> r.value.thanos.(labels := None) == codec.decode(data).value.thanos.(labels := None)
  {
    match codec.decode(data)
    case None => Err(DecodeError)
    case Some(m) =>
      if m.block.version != TSDBVersion1 then Err(UnexpectedVersion(m.block.version))
      else
        var version := if m.thanos.version == 0 then ThanosVersion1 else m.thanos.version;
        if version != ThanosVersion1 then Err(UnexpectedThanosVersion(m.thanos.version))
        else Ok(Normalized(m))
  }

  /** Read exactly as written: the Thanos-version error carries the TSDB version. */
  function ReadAsWritten(codec: Codec, data: seq<byte>): Result<Meta, MetaError> {
    match codec.decode(data)
    case None => Err(DecodeError)
    case Some(m) =>
      if m.block.version != TSDBVersion1 then Err(UnexpectedVersion(m.block.version))
      else
        var version := if m.thanos.version == 0 then ThanosVersion1 else m.thanos.version;
        if version != ThanosVersion1 then Err(UnexpectedThanosVersion(m.block.version))
        else Ok(Normalized(m))
  }

  /** The as-written error for a bad Thanos version always reports 1, whatever the offending version. */
  lemma ReadAsWrittenReportsTSDBVersion(codec: Codec, data: seq<byte>)
    ensures ReadAsWritten(codec, data).Err? && ReadAsWritten(codec, data).error.UnexpectedThanosVersion? ==>
              ReadAsWritten(codec, data).error.reported == TSDBVersion1
  {
  }

  /** A descriptor with Thanos version 2 is rejected by both, but only the corrected Read names 2. */
  lemma ThanosVersionTwoMisreported(codec: Codec, data: seq<byte>)
    requires codec.decode(data).Some?
    requires codec.decode(data).value.block.version == 1 && codec.decode(data).value.thanos.version == 2
    ensures ReadAsWritten(codec, data) == Err(UnexpectedThanosVersion(1))
    ensures Read(codec, data) == Err(UnexpectedThanosVersion(2))
  {
  }

  /** The two agree on everything but that error's number. */
  lemma ReadAgreesWithAsWritten(codec: Codec, data: seq<byte>)
    ensures Read(codec, data).Ok? == ReadAsWritten(codec, data).Ok?
    ensures Read(codec, data).Ok? ==> Read(codec, data) == ReadAsWritten(codec, data)
  {
  }

  /** A supported descriptor with labels survives encoding and reading unchanged. */
  lemma ReadOfEncoded(codec: Codec, m: Meta)
    requires RoundTrips(codec)
    ensures Read(codec, codec.encode(m)).Ok? <==> Supported(m)
    ensures Supported(m) ==> Read(codec, codec.encode(m)) == Ok(Normalized(m))
    ensures Supported(m) && m.thanos.labels.Some? ==> Read(codec, codec.encode(m)) == Ok(m)
  {
    assert codec.decode(codec.encode(m)) == Some(m);
  }

  function MetaPath(dir: string): string {
    Join(dir, MetaFilename)
  }

  function TmpPath(dir: string): string {
    MetaPath(dir) + ".tmp"
  }

  /** ReadFromDir: Read of `<dir>/meta.json`; a missing file or a directory there is an error. */
  function ReadFromDir(fs: FileSystem, dir: string, codec: Codec): (r: Result<Meta, MetaError>)
    reads fs
    ensures !fs.IsFile(MetaPath(dir)) ==> r.Err?
    ensures fs.IsFile(MetaPath(dir)) ==> r == Read(codec, fs.entries[MetaPath(dir)].data)
  {
    var p := MetaPath(dir);
    if p !in fs.entries then Err(OpenError(p))
    else if fs.entries[p].DirNode? then Err(DecodeError)
    else Read(codec, fs.entries[p].data)
  }

  datatype WriteStage = CreateTmp | WriteTmp | SyncTmp | CloseTmp | RemoveTarget | RenameTmp | SyncParent

  datatype WriteError = WriteError(stage: WriteStage, cause: FsError)

  predicate BeforeRename(stage: WriteStage) {
    stage == CreateTmp || stage == WriteTmp || stage == SyncTmp || stage == CloseTmp
  }

  /** The filesystem changes a successful write makes, in order. */
  function WriteOps(dir: string): seq<FsOp> {
    TmpFileOps(TmpPath(dir)) + RenameOps(TmpPath(dir), MetaPath(dir))
  }

  /** Create, write, sync and close of the temporary file. */
  function TmpFileOps(tmp: string): seq<FsOp> {
    [Created(tmp), Wrote(tmp), Synced(tmp), Closed(tmp)]
  }

  /** Removal of the target, the rename onto it, and the sync of its directory. */
  function RenameOps(from: string, to: string): seq<FsOp> {
    [Removed(to), Renamed(from, to), DirSynced(Dir(to))]
  }

  lemma TmpNotBelowTarget(dir: string)
    ensures TmpPath(dir) != MetaPath(dir) && !AtOrBelow(TmpPath(dir), MetaPath(dir))
  {
    var p := MetaPath(dir);
    var t := TmpPath(dir);
    assert |t| == |p| + 4;
    var pre := DirPrefix(p);
    assert p[|p| - 1] == 'n';
    assert TrimTrailingSlashes(p) == p;
    assert pre[|p|] == '/' && t[|p|] == '.';
  }

  /** How many of the rename steps a call of RenameFile ending in `err` completed. */
  function RenameSteps(err: Option<WriteError>): (n: nat)
    ensures n <= 3
  {
    if err.None? then 3
    else match err.value.stage
      case RenameTmp => 1
      case SyncParent => 2
      case _ => 0
  }

  /** The entries after the first `steps` rename steps of `from` onto `to`. */
  function RenamedEntries(entries: map<string, Node>, from: string, to: string, steps: nat): map<string, Node>
    requires steps >= 2 ==> from in entries
  {
    if steps == 0 then entries
    else if steps == 1 then Without(entries, to)
    else (Without(entries, to) - {from})[to := entries[from]]
  }

  /**
   * renameFile: remove whatever is at `to`, rename `from` onto it, then sync
   * the parent directory so the rename is durable. A failure stops at the
   * step that failed, with the earlier steps done.
   */
  method RenameFile(fs: FileSystem, from: string, to: string) returns (err: Option<WriteError>)
    modifies fs
    ensures err.Some? ==> err.value.stage == RemoveTarget || err.value.stage == RenameTmp || err.value.stage == SyncParent
    ensures fs.ops == old(fs.ops) + RenameOps(from, to)[..RenameSteps(err)]
    ensures RenameSteps(err) >= 2 ==> from in old(fs.entries)
    ensures fs.entries == RenamedEntries(old(fs.entries), from, to, RenameSteps(err))
  {
    var e := fs.RemoveAll(to);
    if e.Some? {
      return Some(WriteError(RemoveTarget, e.value));
    }
    e := fs.Rename(from, to);
    if e.Some? {
      return Some(WriteError(RenameTmp, e.value));
    }
    e := fs.SyncDir(Dir(to));
    if e.Some? {
      return Some(WriteError(SyncParent, e.value));
    }
    err := None;
  }

  /** The entries after `data` is written to the temporary file and renamed over the target. */
  function Replaced(entries: map<string, Node>, tmp: string, target: string, data: seq<byte>): map<string, Node> {
    RenamedEntries(entries[tmp := FileNode(data)], tmp, target, 3)
  }

  /**
   * After a complete write the target holds the data, the temporary file is
   * gone, whatever lay below the target is gone, and nothing else changed.
   */
  lemma ReplacedFacts(entries: map<string, Node>, tmp: string, target: string, data: seq<byte>)
    requires tmp != target && !AtOrBelow(tmp, target)
    ensures var r := Replaced(entries, tmp, target, data);
      r[target] == FileNode(data) && tmp !in r &&
      (forall q :: q != target && AtOrBelow(q, target) ==> q !in r) &&
      (forall q :: q != tmp && !AtOrBelow(q, target) ==> (q in r <==> q in entries) && (q in r ==> r[q] == entries[q]))
  {
  }

  /** Every entry other than `p` is as it was. */
  ghost predicate OnlyChanged(before: map<string, Node>, after: map<string, Node>, p: string) {
    forall q :: q != p ==> (q in after <==> q in before) && (q in after ==> after[q] == before[q])
  }

  /** `ops` extends `ops0` by a prefix of `full`, or by the create and close of a write that failed. */
  ghost predicate PartialOps(ops0: seq<FsOp>, ops: seq<FsOp>, full: seq<FsOp>, tmp: string) {
    |ops0| <= |ops| && ops[..|ops0|] == ops0 &&
    (ops[|ops0|..] <= full || ops[|ops0|..] == [Created(tmp), Closed(tmp)])
  }

  /**
   * WriteToDir: encode into `<dir>/meta.json.tmp`, sync and close it, then
   * rename it over `<dir>/meta.json`. Before the rename only the temporary
   * file changes; the old target is removed just before the rename.
   */
  method WriteToDir(fs: FileSystem, m: Meta, dir: string, codec: Codec) returns (err: Option<WriteError>)
    modifies fs
    ensures PartialOps(old(fs.ops), fs.ops, WriteOps(dir), TmpPath(dir))
    ensures err.None? ==> fs.ops == old(fs.ops) + WriteOps(dir)
    ensures err.None? ==> fs.entries == Replaced(old(fs.entries), TmpPath(dir), MetaPath(dir), codec.encode(m))
    ensures err.None? ==> fs.entries[MetaPath(dir)] == FileNode(codec.encode(m)) && TmpPath(dir) !in fs.entries
    ensures err.Some? && BeforeRename(err.value.stage) ==> OnlyChanged(old(fs.entries), fs.entries, TmpPath(dir))
    ensures err.Some? && !BeforeRename(err.value.stage) ==>
              fs.entries == RenamedEntries(old(fs.entries)[TmpPath(dir) := FileNode(codec.encode(m))],
                                           TmpPath(dir), MetaPath(dir), RenameSteps(err))
    ensures !old(fs.ParentExists(TmpPath(dir))) ==> err.Some? && fs.entries == old(fs.entries) && fs.ops == old(fs.ops)
  {
    TmpNotBelowTarget(dir);
    err := WriteThenRename(fs, codec.encode(m), TmpPath(dir), MetaPath(dir));
  }

  /**
   * When the rename fails, the target has already been removed: neither the
   * old nor the new content is at the target, and the new content is left
   * in the temporary file.
   */
  lemma RenameFailureLosesTarget(entries: map<string, Node>, tmp: string, target: string, data: seq<byte>)
    requires tmp != target && !AtOrBelow(tmp, target)
    ensures var r := RenamedEntries(entries[tmp := FileNode(data)], tmp, target, 1);
      target !in r && tmp in r && r[tmp] == FileNode(data)
  {
  }

  /** The body of WriteToDir once the data is encoded: write `tmp`, then rename it onto `path`. */
  method WriteThenRename(fs: FileSystem, data: seq<byte>, tmp: string, path: string) returns (err: Option<WriteError>)
    requires tmp != path && !AtOrBelow(tmp, path)
    modifies fs
    ensures PartialOps(old(fs.ops), fs.ops, TmpFileOps(tmp) + RenameOps(tmp, path), tmp)
    ensures err.None? ==> fs.ops == old(fs.ops) + (TmpFileOps(tmp) + RenameOps(tmp, path))
    ensures err.None? ==> fs.entries == Replaced(old(fs.entries), tmp, path, data)
    ensures err.None? ==> fs.entries[path] == FileNode(data) && tmp !in fs.entries
    ensures err.Some? && BeforeRename(err.value.stage) ==> OnlyChanged(old(fs.entries), fs.entries, tmp)
    ensures err.Some? && !BeforeRename(err.value.stage) ==>
              fs.entries == RenamedEntries(old(fs.entries)[tmp := FileNode(data)], tmp, path, RenameSteps(err))
    ensures !old(fs.ParentExists(tmp)) ==> err.Some? && fs.entries == old(fs.entries) && fs.ops == old(fs.ops)
  {
    ghost var ops0 := fs.ops;
    err := WriteTmpFile(fs, tmp, data);
    if err.Some? {
      PartialPrefix(ops0, fs.ops, TmpFileOps(tmp), RenameOps(tmp, path), tmp);
      return;
    }
    err := RenameFile(fs, tmp, path);
    RenamePhaseOps(ops0, fs.ops, tmp, path, RenameSteps(err));
    if err.None? {
      ReplacedFacts(old(fs.entries), tmp, path, data);
    }
  }

  /**
   * The temporary file's ops followed by the first `n` rename steps are a
   * prefix of a successful write's ops, and all of them when `n` is 3.
   */
  lemma RenamePhaseOps(ops0: seq<FsOp>, ops: seq<FsOp>, tmp: string, path: string, n: nat)
    requires n <= 3 && ops == (ops0 + TmpFileOps(tmp)) + RenameOps(tmp, path)[..n]
    ensures PartialOps(ops0, ops, TmpFileOps(tmp) + RenameOps(tmp, path), tmp)
    ensures n == 3 ==> ops == ops0 + (TmpFileOps(tmp) + RenameOps(tmp, path))
  {
    var a1, a2, rest := TmpFileOps(tmp), RenameOps(tmp, path)[..n], RenameOps(tmp, path);
    assert ops == ops0 + (a1 + a2);
    assert ops[..|ops0|] == ops0 && ops[|ops0|..] == a1 + a2;
    assert (a1 + rest)[..|a1 + a2|] == a1 + a2;
  }

  /** Partial ops of a prefix of `full` are partial ops of `full + more`. */
  lemma PartialPrefix(ops0: seq<FsOp>, ops: seq<FsOp>, full: seq<FsOp>, more: seq<FsOp>, tmp: string)
    requires PartialOps(ops0, ops, full, tmp)
    ensures PartialOps(ops0, ops, full + more, tmp)
  {
    assert (full + more)[..|full|] == full;
  }

  /** The steps of WriteToDir before the rename: create, write, sync and close the temporary file. */
  method WriteTmpFile(fs: FileSystem, tmp: string, data: seq<byte>) returns (err: Option<WriteError>)
    modifies fs
    ensures err.None? ==>
              fs.entries == old(fs.entries)[tmp := FileNode(data)] && fs.ops == old(fs.ops) + TmpFileOps(tmp)
    ensures err.Some? ==> BeforeRename(err.value.stage) && OnlyChanged(old(fs.entries), fs.entries, tmp)
    ensures err.Some? ==> PartialOps(old(fs.ops), fs.ops, TmpFileOps(tmp), tmp)
    ensures !old(fs.ParentExists(tmp)) ==> err.Some? && fs.entries == old(fs.entries) && fs.ops == old(fs.ops)
  {
    var e := fs.Create(tmp);
    if e.Some? {
      TmpPhaseOps(old(fs.ops), fs.ops, tmp, 0);
      return Some(WriteError(CreateTmp, e.value));
    }
    err := FillTmpFile(fs, tmp, data, old(fs.entries), old(fs.ops));
  }

  /** Write, sync and close of the just created temporary file. */
  method FillTmpFile(fs: FileSystem, tmp: string, data: seq<byte>, ghost entries0: map<string, Node>, ghost ops0: seq<FsOp>)
    returns (err: Option<WriteError>)
    requires fs.entries == entries0[tmp := FileNode([])] && fs.ops == ops0 + [Created(tmp)]
    modifies fs
    ensures err.None? ==> fs.entries == entries0[tmp := FileNode(data)] && fs.ops == ops0 + TmpFileOps(tmp)
    ensures err.Some? ==> BeforeRename(err.value.stage) && OnlyChanged(entries0, fs.entries, tmp)
    ensures err.Some? ==> PartialOps(ops0, fs.ops, TmpFileOps(tmp), tmp)
  {
    var e := fs.Write(tmp, data);
    if e.Some? {
      var c := fs.Close(tmp);
      if c.Some? {
        TmpPhaseOps(ops0, fs.ops, tmp, 1);
      } else {
        assert fs.ops[..|ops0|] == ops0 && fs.ops[|ops0|..] == [Created(tmp), Closed(tmp)];
      }
      return Some(WriteError(WriteTmp, e.value));
    }
    e := fs.Sync(tmp);
    if e.Some? {
      TmpPhaseOps(ops0, fs.ops, tmp, 2);
      return Some(WriteError(SyncTmp, e.value));
    }
    e := fs.Close(tmp);
    if e.Some? {
      TmpPhaseOps(ops0, fs.ops, tmp, 3);
      return Some(WriteError(CloseTmp, e.value));
    }
    TmpPhaseOps(ops0, fs.ops, tmp, 4);
    err := None;
  }

  /** The first `n` ops of writing the temporary file are a prefix of all of them. */
  lemma TmpPhaseOps(ops0: seq<FsOp>, ops: seq<FsOp>, tmp: string, n: nat)
    requires n <= 4 && ops == ops0 + TmpFileOps(tmp)[..n]
    ensures PartialOps(ops0, ops, TmpFileOps(tmp), tmp)
    ensures n == 4 ==> ops == ops0 + TmpFileOps(tmp)
  {
    assert ops[..|ops0|] == ops0 && ops[|ops0|..] == TmpFileOps(tmp)[..n];
  }

  datatype InjectError = ReadNewMeta(readCause: MetaError) | WriteNewMeta(writeCause: WriteError)

  /** The descriptor InjectThanos writes: the read one with the new Thanos section and, when given, the downsampled compaction. */
  function Injected(read: Meta, meta: Thanos, downsampledMeta: Option<BlockMeta>): (r: Meta)
    ensures r.thanos == meta
    ensures downsampledMeta.Some? ==> r.block.compaction == downsampledMeta.value.compaction
    ensures downsampledMeta.None? ==> r.block.compaction == read.block.compaction
    ensures r.block.(compaction := read.block.compaction) == read.block
  {
    var m := read.(thanos := meta);
    if downsampledMeta.Some? then m.(block := m.block.(compaction := downsampledMeta.value.compaction)) else m
  }

  /**
   * InjectThanos: read `<bdir>/meta.json`, replace its Thanos section (and
   * compaction, when downsampling), and write it back with WriteToDir.
   */
  method InjectThanos(fs: FileSystem, bdir: string, meta: Thanos, downsampledMeta: Option<BlockMeta>, codec: Codec)
    returns (r: Result<Meta, InjectError>)
    modifies fs
    ensures old(ReadFromDir(fs, bdir, codec)).Err? ==>
              r == Err(ReadNewMeta(old(ReadFromDir(fs, bdir, codec)).error)) && fs.entries == old(fs.entries) && fs.ops == old(fs.ops)
    ensures r.Ok? ==> old(ReadFromDir(fs, bdir, codec)).Ok?
    ensures r.Ok? ==> r.value == Injected(old(ReadFromDir(fs, bdir, codec)).value, meta, downsampledMeta)
    ensures r.Ok? ==> fs.entries == Replaced(old(fs.entries), TmpPath(bdir), MetaPath(bdir), codec.encode(r.value))
    ensures r.Ok? ==> fs.ops == old(fs.ops) + WriteOps(bdir)
    ensures r.Ok? && RoundTrips(codec) && Supported(r.value) ==> ReadFromDir(fs, bdir, codec) == Ok(Normalized(r.value))
    ensures PartialOps(old(fs.ops), fs.ops, WriteOps(bdir), TmpPath(bdir))
    ensures old(ReadFromDir(fs, bdir, codec)).Ok? && r.Err? ==> r.error.WriteNewMeta?
    ensures r.Err? && r.error.WriteNewMeta? && BeforeRename(r.error.writeCause.stage) ==>
              OnlyChanged(old(fs.entries), fs.entries, TmpPath(bdir))
    ensures r.Err? && r.error.WriteNewMeta? && !BeforeRename(r.error.writeCause.stage) ==>
              old(ReadFromDir(fs, bdir, codec)).Ok? &&
              var data := codec.encode(Injected(old(ReadFromDir(fs, bdir, codec)).value, meta, downsampledMeta));
              fs.entries == RenamedEntries(old(fs.entries)[TmpPath(bdir) := FileNode(data)],
                                           TmpPath(bdir), MetaPath(bdir), RenameSteps(Some(r.error.writeCause)))
  {
    var read := ReadFromDir(fs, bdir, codec);
    if read.Err? {
      assert fs.ops[|old(fs.ops)|..] == [];
      return Err(ReadNewMeta(read.error));
    }
    var newMeta := Injected(read.value, meta, downsampledMeta);
    var e := WriteToDir(fs, newMeta, bdir, codec);
    if e.Some? {
      return Err(WriteNewMeta(e.value));
    }
    if RoundTrips(codec) && Supported(newMeta) {
      ReadOfEncoded(codec, newMeta);
    }
    return Ok(newMeta);
  }

  datatype ExtensionsError = UnmarshalError

  /**
   * ConvertExtensions: a null payload gives no value and no error; otherwise
   * the payload decoded as the caller's type.
   */
  function ConvertExtensions<T>(extensions: Option<Json>, decodeAs: Json -> Option<T>): (r: Result<Option<T>, ExtensionsError>)
    ensures extensions.None? ==> r == Ok(None)
    ensures extensions.Some? ==> (r.Ok? <==> decodeAs(extensions.value).Some?)
    ensures extensions.Some? && r.Ok? ==> r.value == decodeAs(extensions.value)
  {
    match extensions
    case None => Ok(None)
    case Some(j) =>
      match decodeAs(j)
      case None => Err(UnmarshalError)
      case Some(v) => Ok(Some(v))
  }

  function DigitChar(d: nat): char
    requires d < 10
  {
    ('0' as int + d) as char
  }

  /** Decimal digits of `n`, most significant first (fmt's %d for a non-negative value). */
  function NatToDecimal(n: nat): string
    decreases n
  {
    if n < 10 then [DigitChar(n)] else NatToDecimal(n / 10) + [DigitChar(n % 10)]
  }

  /** fmt's %d. */
  function IntToDecimal(i: int): string {
    if i < 0 then "-" + NatToDecimal(-i) else NatToDecimal(i)
  }

  predicate IsDigit(c: char) {
    '0' <= c <= '9'
  }

  function DigitsValue(s: string): nat
    requires forall k :: 0 <= k < |s| ==> IsDigit(s[k])
  {
    if s == [] then 0
    else
      assert IsDigit(s[|s| - 1]);
      DigitsValue(s[..|s| - 1]) * 10 + (s[|s| - 1] as int - '0' as int)
  }

  /** The integer a decimal rendering stands for. */
  function ParseDecimal(s: string): int
    requires s != [] && forall k :: 0 <= k < |s| ==> IsDigit(s[k]) || (k == 0 && s[k] == '-' && |s| > 1)
  {
    if s[0] == '-' then -(DigitsValue(s[1..]) as int) else DigitsValue(s)
  }

  lemma {:induction false} NatToDecimalDigits(n: nat)
    ensures NatToDecimal(n) != []
    ensures forall k :: 0 <= k < |NatToDecimal(n)| ==> IsDigit(NatToDecimal(n)[k])
    ensures DigitsValue(NatToDecimal(n)) == n
    decreases n
  {
    if n >= 10 {
      NatToDecimalDigits(n / 10);
      var s := NatToDecimal(n);
      var t := NatToDecimal(n / 10);
      assert s == t + [DigitChar(n % 10)];
      assert s[..|s| - 1] == t;
      assert DigitsValue(s) == DigitsValue(t) * 10 + n % 10;
    }
  }

  /** The rendering of an integer parses back to it. */
  lemma IntToDecimalRoundTrip(i: int)
    ensures var s := IntToDecimal(i);
      s != [] && (forall k :: 0 <= k < |s| ==> IsDigit(s[k]) || (k == 0 && s[k] == '-' && |s| > 1)) &&
      '@' !in s && ParseDecimal(s) == i
  {
    var s := IntToDecimal(i);
    if i < 0 {
      var t := NatToDecimal(-i);
      NatToDecimalDigits(-i);
      assert s == "-" + t && s[1..] == t;
      assert forall k :: 1 <= k < |s| ==> s[k] == t[k - 1];
    } else {
      NatToDecimalDigits(i);
    }
    assert forall k :: 0 <= k < |s| ==> s[k] == '-' || IsDigit(s[k]);
  }

  /** ResolutionString: the downsampling resolution in decimal. */
  function ResolutionString(t: Thanos): string {
    IntToDecimal(t.downsample.resolution)
  }

  /** The resolution can be read back from its string. */
  lemma ResolutionStringRoundTrip(t: Thanos)
    ensures var s := ResolutionString(t);
      s != [] && (forall k :: 0 <= k < |s| ==> IsDigit(s[k]) || (k == 0 && s[k] == '-' && |s| > 1)) &&
      ParseDecimal(s) == t.downsample.resolution
  {
    IntToDecimalRoundTrip(t.downsample.resolution);
  }

  /**
   * GroupKey: "<resolution>@<hash of the labels>". The label hash is a
   * foreign function, given as `labelsHash`; null labels hash as empty ones.
   */
  function GroupKey(t: Thanos, labelsHash: map<string, string> -> nat): string {
    ResolutionString(t) + "@" + NatToDecimal(labelsHash(LabelsOf(t)))
  }

  lemma {:induction false} SplitAtFirst(a: string, b: string, a': string, b': string)
    requires '@' !in a && '@' !in a'
    requires a + "@" + b == a' + "@" + b'
    ensures a == a' && b == b'
  {
    var s := a + "@" + b;
    assert forall k :: 0 <= k < |a| ==> s[k] == a[k];
    assert forall k :: 0 <= k < |a'| ==> s[k] == a'[k];
    assert s[|a|] == '@' && s[|a'|] == '@';
    assert |a| == |a'|;
    assert a == s[..|a|] == a';
    assert b == s[|a| + 1..] == b';
  }

  /** Two blocks share a group key exactly when they share the resolution and the label hash. */
  lemma GroupKeyIdentifiesGroup(t: Thanos, u: Thanos, labelsHash: map<string, string> -> nat)
    ensures GroupKey(t, labelsHash) == GroupKey(u, labelsHash) <==>
              t.downsample.resolution == u.downsample.resolution && labelsHash(LabelsOf(t)) == labelsHash(LabelsOf(u))
  {
    if GroupKey(t, labelsHash) == GroupKey(u, labelsHash) {
      IntToDecimalRoundTrip(t.downsample.resolution);
      IntToDecimalRoundTrip(u.downsample.resolution);
      SplitAtFirst(ResolutionString(t), NatToDecimal(labelsHash(LabelsOf(t))),
                   ResolutionString(u), NatToDecimal(labelsHash(LabelsOf(u))));
      NatToDecimalDigits(labelsHash(LabelsOf(t)));
      NatToDecimalDigits(labelsHash(LabelsOf(u)));
    }
  }

  datatype HashError = UnsupportedHash(func: HashFunc) | CannotRead(path: string)

  /**
   * CalculateHash: the SHA-256 digest (given as `sha256`) of a regular
   * file's contents; any other hash function, or a path that is not a
   * regular file, is an error. The file is looked up in `entries`, the
   * filesystem's state at the time of the call.
   */
  function CalculateHash(entries: map<string, Node>, p: string, hf: HashFunc, sha256: seq<byte> -> string): Result<ObjectHash, HashError> {
    if hf != SHA256Func then Err(UnsupportedHash(hf))
    else if !(p in entries && entries[p].FileNode?) then Err(CannotRead(p))
    else Ok(ObjectHash(SHA256Func, sha256(entries[p].data)))
  }

  /** ObjectHash.Equal compares the digests. */
  predicate HashEqual(a: ObjectHash, b: ObjectHash) {
    a.value == b.value
  }
}
