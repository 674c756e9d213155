# Thanos block lifecycle protocol, modelled in Dafny

This project models the block transfer and lifecycle protocol of Thanos
(`pkg/block/block.go` and `pkg/block/metadata/meta.go`): uploading a TSDB
block directory to an object-store bucket, downloading it back, deleting
it, placing and removing marks (deletion, no-compact, no-downsample),
building the `files` manifest of `meta.json`, and reading, writing and
patching the block descriptor `meta.json` on the local disk.

The protocol is correct because of the order of its operations. The object
store has no multi-object transactions, and readers treat a block as
complete exactly when its `meta.json` is present. The model records that
order and proves it:

- `ObjStore.Bucket` is a class that holds a map from key to bytes and an
  append-only log of `Put(path)` and `Delete(path)` events. Its invariant
  says the keys present are the keys the log produces from the initial keys
  (`Replay`). Every bucket call may fail nondeterministically, and a failed
  call changes nothing. So each contract below holds for every pattern of
  transport failures.
- `LocalFs.FileSystem` is a class that holds a map from path to file
  contents or directory, plus a log of the changes made (create, write,
  sync, close, remove, rename, directory sync). Each change may fail with an
  I/O error.
- `Transfer` specifies the objstore helpers `UploadDir`, `UploadFile`,
  `DownloadFile` and `DownloadDir` by their effect. `UploadDir` puts every
  regular file below a local directory under a bucket prefix. `DownloadDir`
  writes every object under a prefix, except the ignored relative paths,
  below a local directory. objstore itself is not part of this model.
- `Metadata` covers `meta.go`:
  - the descriptor datatypes;
  - `Read`, with its version gating and the normalisation of null labels;
  - `ReadFromDir`;
  - `WriteToDir` and `renameFile` (write a temporary file, then rename it);
  - `InjectThanos`, `ConvertExtensions`, `ResolutionString` and `GroupKey`.
- `Block` covers `block.go`:
  - `upload`, `Upload` and `UploadPromBlock`;
  - `Delete` and `deleteDirRec`;
  - the three mark writers and `RemoveMark`;
  - `Download`: the ignored paths and the chunks directory;
  - `GatherFileStats`, `GetSegmentFiles`, `IsBlockMetaFile` and `IsBlockDir`.
- `Ordering` replays any prefix of an upload's or a deletion's events, as a
  concurrent reader could observe them. It shows that a reader never sees
  `meta.json` next to a partial block.

Some functions are not modelled in detail and become parameters of the
operations:
- JSON encoding and decoding (`Codec`, with a round-trip requirement where a
  lemma needs one);
- mark encoding;
- SHA-256 (`sha256`);
- `ulid.Parse` (`UlidParser`);
- the clock (`now`);
- the label-set hash in `GroupKey` (`labelsHash`).

Prometheus counters are `Block.Counter` objects holding an `int`.

## Model

| member | source | states |
|---|---|---|
| Block.GatherFileStats | pkg/block/block.go:314-366 | Succeeds exactly when the chunks directory exists, the hash function is none or SHA-256, the index exists (as a regular file when hashing) and meta.json exists. The result is strictly sorted by RelPath and holds exactly the expected manifest entries. |
| Block.ExpectedStatsShape | pkg/block/block.go:319-360 | The manifest holds an entry for every chunks-directory name, exactly one index entry and exactly one meta.json entry. The meta.json entry has size 0 and no hash. Any entry with a hash was computed with a hash function other than None, on a regular file, so never on a subdirectory. |
| Block.ChunkEntryShape | pkg/block/block.go:325-335 | A chunk entry's RelPath lies under `chunks/` and is neither the index nor meta.json. It has a hash only when a hash function is set and the entry is a regular file. |
| Block.ChunkStats | pkg/block/block.go:319-337 | The loop over the chunks-directory listing yields one entry per listed name, in listing order. It fails only for an unsupported hash function. |
| Block.ChunkStat | pkg/block/block.go:320-335 | One chunk entry: the stat size, and the hash when a function is set and the entry is not a directory. |
| Block.IndexStat | pkg/block/block.go:339-354 | The index entry exists exactly when the index can be stat'ed and, when hashing, hashed. It carries the index's size and, when a function is set, its hash. |
| Block.MetaStat | pkg/block/block.go:356-360 | The meta.json entry exists exactly when meta.json can be stat'ed. It has size 0 and no hash. |
| Block.SortByRelPathSorted | pkg/block/block.go:362-364 | Sorting entries with distinct paths gives a strictly ascending sequence with the same entries. |
| Block.SortedManifest | pkg/block/block.go:319-364 | The collected chunk, index and meta.json entries, once sorted, are exactly the expected manifest in RelPath order. |
| Block.ManifestPathsDistinct | pkg/block/block.go:319-360 | No two collected entries share a RelPath. |
| Block.GetSegmentFiles | pkg/block/block.go:299-311 | Returns the chunks-directory names in sorted order, and no names when the directory cannot be read. |
| Block.IsBlockMetaFileOfJoin | pkg/block/block.go:288-290 | A name joined below any directory is a block meta file exactly when the name is meta.json. |
| Block.IsBlockDirOfJoin | pkg/block/block.go:292-295 | A directory named after a block id is recognised as that block's directory, wherever it sits. |
| Block.PreflightPasses | pkg/block/block.go:111-136 | The checks pass exactly when four things hold: the path is a directory, its base name parses as a block id, its meta.json reads, and, when asked, the external labels are non-empty. On success they give that id and that meta. |
| Block.PromBlockSkipsLabelCheck | pkg/block/block.go:97-105 | Upload's checks differ from UploadPromBlock's only by the empty-external-labels error. |
| Block.UploadedMeta | pkg/block/block.go:139-152 | The uploaded meta is the local one with the gathered manifest and the upload time, and nothing else changed. |
| Block.PutObjects | pkg/block/block.go:144-162 | Puts the chunk files, then the index, then meta.json. The first failure stops it. On success every chunk file, the index and the encoded meta are in the bucket with the local contents. On every outcome no object is removed, and every object it did not put keeps its contents. |
| Block.PutBlock | pkg/block/block.go:144-162 | The events are an upload trace: chunk puts first, then the index. meta.json is put only as the last event, only when the upload succeeded, and right after the index. On every outcome no object is removed, and every object it did not put keeps its contents. |
| Block.ChunkKeysAreNotFixed | pkg/block/block.go:144-158 | Keys under the chunks prefix are never the index key or the meta.json key. |
| Block.DoUpload | pkg/block/block.go:111-165 | A failed check returns that error with no bucket write. A failed manifest also makes no write. Otherwise the new events form an upload trace. Success means the bucket holds every chunk, the index, and last meta.json, encoding the meta with a sorted manifest equal to the expected one and the upload time. On every outcome no object is removed, and every object not put keeps its contents. |
| Block.Upload | pkg/block/block.go:97-99 | upload with the external-labels check. A failed check or manifest makes no write. Otherwise the events form an upload trace, and success leaves every chunk, the index and the encoded meta with its sorted manifest and upload time in the bucket. On every outcome every object not put keeps its contents. |
| Block.UploadPromBlock | pkg/block/block.go:103-105 | upload without the external-labels check, with the same guarantees as Upload: no write on a failed check or manifest, an upload trace otherwise, the whole block in the bucket on success, and every object not put keeping its contents. |
| Block.Counter.Inc | pkg/block/block.go:192 | The counter rises by exactly 1. |
| Block.WriteMarkIfAbsent | pkg/block/block.go:168-195 | An existing mark or any error leaves the bucket, the log and the counter unchanged. Otherwise exactly one put of the payload at the key is made, and the counter rises by 1. |
| Block.MarkForDeletion | pkg/block/block.go:168-195 | The deletion mark (version 1, stamped `now`) is never overwritten. If absent, it is written with one put, and the counter rises by 1. |
| Block.MarkForNoCompact | pkg/block/block.go:369-398 | The same for the no-compact mark with its reason and details. |
| Block.MarkForNoDownsample | pkg/block/block.go:401-429 | The same for the no-downsample mark. |
| Block.RemoveMark | pkg/block/block.go:432-448 | An absent mark, or an error, leaves the state unchanged. A present mark is deleted with one delete, and the counter rises by 1. |
| Block.DeleteIfPresent | pkg/block/block.go:207-218 | At most one delete, of the key, made only when the key exists and the existence check succeeds. An absent key or an error makes no event. On success the key is absent. |
| Block.DeleteDirRec | pkg/block/block.go:248-263 | Makes only deletes of keys strictly below the prefix that do not end in '/' and that `keep` rejects. The objects lost are exactly those deleted. On success every such key that existed is gone. |
| Block.DeleteNames | pkg/block/block.go:248-262 | The callback runs over the listed names in order, and the first failure stops it. The walk only ever deletes removable keys. On success every removable key listed under any of the names is gone. |
| Block.DeleteStep | pkg/block/block.go:249-262 | Handling the i-th listed name keeps the walk relation. On success, every removable key listed under the first i+1 names is gone. |
| Block.DeleteListed | pkg/block/block.go:250-261 | A name ending in '/' is walked recursively. A kept name is left alone. Any other name is deleted. |
| Block.ListedKeptIsNotRemovable | pkg/block/block.go:254-256 | A kept listed name that is not a nested prefix stands for no key the walk must remove. |
| Block.AllListedRemoved | pkg/block/block.go:249-262 | Once every listed name is handled, every removable key below the prefix is gone. |
| Block.DeleteRest | pkg/block/block.go:220-241 | The walk skips meta.json and the deletion mark. The deletion mark is deleted after it, as the last event, and only once the walk succeeded and every object it must remove is gone. |
| Block.DeletePhases | pkg/block/block.go:203-244 | A meta.json delete, then the walk's deletes, then the mark delete, form a delete trace. Only deletes are made, all below the block prefix. meta.json is deleted only as the first event and the mark only as the last. |
| Block.Delete | pkg/block/block.go:203-244 | The new events are a delete trace. When meta.json existed, its delete comes first. The objects lost are exactly those deleted. A final deletion-mark delete happens only on success, when every other object of the block is already gone. On success no non-prefix key of the block remains. |
| Block.MarkDeletedLast | pkg/block/block.go:220-241 | In Delete's log, a final deletion-mark delete is the mark phase's, and by then every other object of the block has been deleted. |
| Block.DeletedAll | pkg/block/block.go:207-241 | When all three phases succeed, every key of the block not ending in '/' is gone. |
| Block.SkippableMeans | pkg/block/block.go:63-74 | A manifest entry is skipped exactly when it has a SHA-256 hash and a non-empty path, and the local regular file at that path has an equal digest. |
| Block.SkippedPathsIff | pkg/block/block.go:61-75 | A path is in the skipped list exactly when some manifest entry with that path is skippable. |
| Block.IgnoredPaths | pkg/block/block.go:61-75 | The ignored paths are meta.json followed by the skippable entries' paths. A hash failure only leaves an entry out and never fails. |
| Block.MetaNotTarget | pkg/block/block.go:61-77 | With meta.json ignored, the directory download never writes the local meta.json. |
| Block.FetchMetaFile | pkg/block/block.go:49-59 | Creates the destination and fetches meta.json into it every time. It succeeds only when the fetched meta.json reads, and returns what it reads. |
| Block.FetchRest | pkg/block/block.go:61-92 | Fetches every object of the block that is not ignored, then creates the chunks directory if it is missing. Every path it does not fetch, the ignored ones included, keeps its contents, and the only entries it adds are directories. Nothing outside the destination changes, and the fetched meta.json stays as fetched. |
| Block.Download | pkg/block/block.go:45-93 | The ignored list is meta.json plus the skippable manifest paths, hashed against the local state after meta.json was fetched. Every skipped file is left in place and still has the digest its manifest entry records. On success the destination holds the fetched meta.json, a chunks directory and every non-ignored object. Outside the destination every existing entry keeps what it held; the only entries added there are directories the destination lies below, which MkdirAll creates. |
| Block.SkippedNotTarget | pkg/block/block.go:61-79 | A path in the ignored list is never one the directory download writes. |
| Block.SkippedFilesKept | pkg/block/block.go:45-79 | Whatever else the download changes, each skipped path still holds a regular file whose SHA-256 digest is the hash its manifest entry records. |
| Block.OnlyTargetsOutside | pkg/block/block.go:79 | The directory download writes only below the destination. So every existing entry outside it keeps what it held, and the only entries added outside are directories the destination lies below. |
| Block.UploadKeepsOtherObjects | pkg/block/block.go:144-162 | An upload of one block, complete or stopped part-way, leaves every object outside that block's prefix present with its old contents. |
| Ordering.UploadNeverExposesPartialBlock | pkg/block/block.go:144-162 | Suppose a reader, after any prefix of an upload's events, sees meta.json of a block that had none. Then that prefix is the whole upload, the upload succeeded, and the index and every chunk put are present. |
| Ordering.DeleteNeverExposesPartialBlock | pkg/block/block.go:197-244 | After any non-empty prefix of a deletion's events, meta.json is absent. Until the last event, an existing deletion mark is still present. |
| Ordering.MarkOutlivesBlock | pkg/block/block.go:197-244 | A reader that finds an existing deletion mark gone, after any prefix of a deletion's events, has seen the whole deletion and finds no object of the block left. |
| Metadata.Read | pkg/block/metadata/meta.go:272-299 | A decode failure is an error. The result is Ok exactly when the TSDB version is 1 and the Thanos version is 0 or 1. A bad TSDB version reports that version. A bad Thanos version reports the Thanos version. On success the labels are non-null, present labels are kept, and a null map becomes the empty map. Every other field is as decoded. |
| Metadata.ReadOfEncoded | pkg/block/metadata/meta.go:272-299 | Reading an encoded descriptor succeeds exactly when it is supported, and gives it back with its labels normalised. |
| Metadata.ReadAgreesWithAsWritten | pkg/block/metadata/meta.go:272-299 | The corrected Read and the as-written read agree on success, and on every successful result. |
| Metadata.ReadAsWrittenReportsTSDBVersion | pkg/block/metadata/meta.go:290-292 | As written, the Thanos-version error always carries 1, the TSDB version, whatever the offending version was. |
| Metadata.ThanosVersionTwoMisreported | pkg/block/metadata/meta.go:284-292 | For a descriptor with Thanos version 2, both reject it, but only the corrected Read reports 2. |
| Metadata.ReadFromDir | pkg/block/metadata/meta.go:263-269 | A missing `<dir>/meta.json` is an error. An existing one is read with Read. |
| Metadata.WriteTmpFile | pkg/block/metadata/meta.go:214-230 | Creates, writes, syncs and closes the temporary file. On failure only the temporary file changed. |
| Metadata.RenameFile | pkg/block/metadata/meta.go:241-260 | Removes the target, renames the source onto it and syncs the parent directory. It stops at the first failure, with the steps before it done. |
| Metadata.WriteThenRename | pkg/block/metadata/meta.go:209-231 | The temporary file is written before the rename. On success the target holds the data and the temporary file is gone. |
| Metadata.WriteToDir | pkg/block/metadata/meta.go:209-232 | The only changes are to `meta.json.tmp`, then the removal of the target, the rename and the directory sync, in that order. A failure before the rename touches only the temporary file. A failure after it leaves the state the completed rename steps give. Success leaves the encoded meta at the target and no temporary file. |
| Metadata.ReplacedFacts | pkg/block/metadata/meta.go:241-248 | After a complete write, the target holds the data, the temporary path and everything below the target are gone, and every other entry is unchanged. |
| Metadata.RenameFailureLosesTarget | pkg/block/metadata/meta.go:242-247 | In the state WriteToDir leaves when the rename fails after the target was removed, the target is absent and the data is left in the temporary file. |
| Metadata.TmpNotBelowTarget | pkg/block/metadata/meta.go:211-212 | The temporary path differs from the target and is not below it. |
| Metadata.Injected | pkg/block/metadata/meta.go:183-188 | The Thanos section is the given one. The compaction is replaced only when a downsampled meta is given. Every other block field is kept as read. |
| Metadata.InjectThanos | pkg/block/metadata/meta.go:178-195 | A read failure is reported and nothing changes. Once the read succeeded, any failure is a write failure. A write failure before the rename changes only the temporary file. A later one leaves the state of the interrupted rename of the injected meta, which can include no meta.json at all. The ops always extend the old ones by a prefix of WriteToDir's. On success the ops are exactly WriteToDir's, the injected meta replaces meta.json, and it reads back, normalised, when the codec round-trips. |
| Metadata.ConvertExtensions | pkg/block/metadata/meta.go:124-136 | A null payload gives no value and no error. Otherwise the result is Ok exactly when the payload decodes as the requested type, and it is that value. |
| Metadata.ResolutionStringRoundTrip | pkg/block/metadata/meta.go:204-206 | The resolution string is a decimal numeral, with an optional leading '-', that parses back to the resolution. |
| Metadata.IntToDecimalRoundTrip | pkg/block/metadata/meta.go:205 | `%d` rendering is non-empty, contains no '@' and parses back to the integer. |
| Metadata.GroupKeyIdentifiesGroup | pkg/block/metadata/meta.go:199-201 | Two blocks share a group key exactly when they share the resolution and the label hash. |

## Left out

- Metadata.CalculateHash: `hash.go` is not part of this model. SHA-256 on a regular file gives the digest of its contents, any other hash function is an error, and `ObjectHash.Equal` compares digests only.
- Transfer: objstore's `UploadDir`, `UploadFile`, `DownloadFile` and `DownloadDir` are specified by their effect, not by their code. Their retries, their cleanup of partial downloads, their options and their concurrency are not modelled.
- Block.DoUpload: the clock is the parameter `now`. Encoding meta.json (`meta.Write`) is taken never to fail, because `Codec.encode` is total.
- Block.MarkForDeletion, Block.MarkForNoCompact, Block.MarkForNoDownsample: `json.Marshal` of a mark is taken never to fail, because `encodeMark` is total.
- Block.GatherFileStats: `DirEntry.Info()` of a listed chunk is taken never to fail, since the listing and the stat see the same filesystem state. `sort.Slice` is modelled by its result: with distinct RelPaths every sort gives the same order.
- Block.FetchRest: an `os.Stat` error on the chunks directory other than "does not exist" cannot occur in the model. Stat only reports presence.
- Block.DeleteDirRec: a key that itself ends in '/' is listed as a nested prefix and walked, never deleted, as in the code. The walk is over the listing taken when it starts.
- LocalFs.FileSystem: `filepath.Clean` is not modelled. Paths are joined with a single '/' between a trimmed directory and the element. Permissions and file modes are not modelled.
- Metadata.WriteToDir: fsync durability and crashes are not modelled; only the order of the filesystem steps is. The code removes the old meta.json before the rename, so a failed rename leaves no meta.json at all (`RenameFailureLosesTarget`). That is weaker than "old or new content" for a failure that is not a crash. The model follows the code.
- Metadata.GroupKey: the hash of the label set, `labels.FromMap(...).Hash()`, is a foreign call and is a parameter. A null label map hashes like the empty one.
- `DownloadMeta` is not modelled. It decodes meta.json with plain `json.Unmarshal` and skips Read's checks.
- Not modelled: logging, `context` cancellation, concurrent writers to the same block id, relabel configs, PromQL matchers and tombstone intervals inside the descriptor (kept as opaque strings and pairs), and the integer widths of sizes, times and counters (unbounded integers).

## Findings

| source | as written | input that shows it | evidently intended | confidence | as-written member | corrected member |
|---|---|---|---|---|---|---|
| pkg/block/metadata/meta.go:290-291 | The error for an unsupported Thanos-section version prints `m.Version`, which is always 1 at that point. | A meta.json with `"version": 1` and `"thanos": {"version": 2}` is rejected with "Thanos section version 1". | Report the Thanos-section version, 2. | not executed | Metadata.ReadAsWritten | Metadata.Read |
