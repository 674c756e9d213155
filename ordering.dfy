/**
 * Why the order of the block protocol's writes matters. Readers of the
 * bucket treat a block as complete exactly when its meta.json is present,
 * and the bucket has no multi-object transactions, so a reader may observe
 * the bucket after any prefix of an upload's or a deletion's events. These
 * lemmas replay such prefixes and show that a reader never sees meta.json
 * beside a partial block.
 */
module Ordering {
  import opened Wrappers
  import opened Paths
  import opened ObjStore
  import opened Block
  import opened Metadata

  /** The keys the events `es` touch. */
  function Touched(es: seq<Event>): set<string> {
    set i | 0 <= i < |es| :: es[i].path
  }

  /** The keys a non-empty run touches are those of all but its last event, and the last event's. */
  lemma TouchedSnoc(es: seq<Event>)
    requires es != []
    ensures Touched(es) == Touched(es[..|es| - 1]) + {es[|es| - 1].path}
  {
    var init := es[..|es| - 1];
    forall k | k in Touched(es)
      ensures k in Touched(init) + {es[|es| - 1].path}
    {
      var i :| 0 <= i < |es| && es[i].path == k;
      if i < |es| - 1 {
        assert init[i] == es[i];
      }
    }
    forall k | k in Touched(init)
      ensures k in Touched(es)
    {
      var i :| 0 <= i < |init| && init[i].path == k;
      assert es[i] == init[i];
    }
  }

  /** Replaying a log in two pieces is replaying the second piece from the state the first leaves. */
  lemma {:induction false} ReplayAppend(keys: set<string>, a: seq<Event>, b: seq<Event>)
    ensures Replay(keys, a + b) == Replay(Replay(keys, a), b)
    decreases |b|
  {
    if b != [] {
      var b' := b[..|b| - 1];
      assert (a + b)[..|a + b| - 1] == a + b';
      assert (a + b)[|a + b| - 1] == b[|b| - 1];
      ReplayAppend(keys, a, b');
    } else {
      assert a + b == a;
    }
  }

  /** A run of puts adds exactly the keys it puts. */
  lemma {:induction false} ReplayPuts(keys: set<string>, es: seq<Event>)
    requires forall i :: 0 <= i < |es| ==> es[i].Put?
    ensures Replay(keys, es) == keys + Touched(es)
    decreases |es|
  {
    if es != [] {
      var init := es[..|es| - 1];
      ReplayPuts(keys, init);
      TouchedSnoc(es);
    }
  }

  /** A run of deletes removes exactly the keys it deletes. */
  lemma {:induction false} ReplayDeletes(keys: set<string>, es: seq<Event>)
    requires forall i :: 0 <= i < |es| ==> es[i].Delete?
    ensures Replay(keys, es) == keys - Touched(es)
    decreases |es|
  {
    if es != [] {
      var init := es[..|es| - 1];
      ReplayDeletes(keys, init);
      TouchedSnoc(es);
    }
  }

  /**
   * Upload: a reader that sees the block's meta.json after any prefix of an
   * upload's events (the block had none before) sees the whole upload: the
   * prefix is all of it, the upload completed, and every object it put,
   * the index included, is present.
   */
  lemma UploadNeverExposesPartialBlock(id: BlockId, keys0: set<string>, es: seq<Event>, complete: bool, n: nat)
    requires UploadTrace(id, es, complete)
    requires BlockKey(id, MetaFilename) !in keys0
    requires n <= |es|
    requires BlockKey(id, MetaFilename) in Replay(keys0, es[..n])
    ensures n == |es| && complete
    ensures BlockKey(id, IndexFilename) in Replay(keys0, es[..n])
    ensures forall i :: 0 <= i < |es| ==> es[i].path in Replay(keys0, es[..n])
  {
    var seen := es[..n];
    ReplayPuts(keys0, seen);
    var i :| 0 <= i < |seen| && seen[i].path == BlockKey(id, MetaFilename);
    assert es[i] == seen[i];
    assert seen == es;
    forall j | 0 <= j < |es|
      ensures es[j].path in Touched(seen)
    {
      assert seen[j] == es[j];
    }
  }

  /**
   * Delete: once any of a deletion's events has been applied, meta.json is
   * gone (it was the first delete when present, and deletes never add it
   * back), and until the last event the deletion mark, when present, is
   * still there.
   */
  lemma DeleteNeverExposesPartialBlock(id: BlockId, keys0: set<string>, es: seq<Event>, n: nat)
    requires DeleteTrace(id, es)
    requires BlockKey(id, MetaFilename) in keys0 && es != [] ==> es[0] == Event.Delete(BlockKey(id, MetaFilename))
    requires n <= |es|
    ensures 0 < n ==> BlockKey(id, MetaFilename) !in Replay(keys0, es[..n])
    ensures n < |es| && BlockKey(id, DeletionMarkFilename) in keys0 ==> BlockKey(id, DeletionMarkFilename) in Replay(keys0, es[..n])
  {
    var seen := es[..n];
    ReplayDeletes(keys0, seen);
    if 0 < n && BlockKey(id, MetaFilename) in keys0 {
      assert seen[0] == es[0];
    }
    if n < |es| {
      forall j | 0 <= j < |seen|
        ensures seen[j].path != BlockKey(id, DeletionMarkFilename)
      {
        assert seen[j] == es[j];
      }
    }
  }

  /**
   * Delete: given that Delete deletes the deletion mark only once everything
   * else of the block is gone, a reader that finds the mark gone (it was
   * there before) after any prefix of the deletion's events has seen the
   * whole deletion, and finds no object of the block left at all.
   */
  lemma MarkOutlivesBlock(id: BlockId, objects0: map<string, seq<byte>>, es: seq<Event>, n: nat)
    requires DeleteTrace(id, es)
    requires es != [] && es[|es| - 1] == Event.Delete(BlockKey(id, DeletionMarkFilename)) ==>
               GoneButMark(objects0, objects0 - DeletedPaths(es[..|es| - 1]), id)
    requires BlockKey(id, DeletionMarkFilename) in objects0 && n <= |es|
    ensures BlockKey(id, DeletionMarkFilename) !in Replay(objects0.Keys, es[..n]) ==>
              n == |es| &&
              forall k :: k in objects0 && StartsWith(k, id + "/") && !EndsWith(k, "/") ==> k !in Replay(objects0.Keys, es[..n])
  {
    var mark := BlockKey(id, DeletionMarkFilename);
    var seen := es[..n];
    ReplayDeletes(objects0.Keys, seen);
    if mark !in Replay(objects0.Keys, seen) {
      var i :| 0 <= i < |seen| && seen[i].path == mark;
      assert seen[i] == es[i];
      assert n == |es| && seen == es;
      forall k | k in objects0 && StartsWith(k, id + "/") && !EndsWith(k, "/") && k != mark
        ensures k in Touched(es)
      {
        var init := es[..|es| - 1];
        var e :| e in init && e.Delete? && e.path == k;
        var j :| 0 <= j < |init| && init[j] == e;
        assert es[j] == e;
      }
    }
  }
}
