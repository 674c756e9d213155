/**
 * The object-store bucket the block protocol runs against: a map from keys
 * to bytes with no multi-object transactions. Every change is recorded in an
 * append-only event log, so the state at every instant of an operation can
 * be recovered from the log (`Replay`). Transport failures are
 * nondeterministic: any call may fail, and a failed call changes nothing.
 */
module ObjStore {
  import opened Wrappers
  import opened Paths

  datatype Event = Put(path: string) | Delete(path: string)

  datatype StoreError = TransportError | NotFound(path: string)

  /** The keys present after the events `es` are applied, in order, to a store holding `keys`. */
  ghost function Replay(keys: set<string>, es: seq<Event>): set<string>
    decreases |es|
  {
    if es == [] then keys
    else
      var before := Replay(keys, es[..|es| - 1]);
      match es[|es| - 1]
      case Put(p) => before + {p}
      case Delete(p) => before - {p}
  }

  /** The events appended to `before` to give `after`. */
  ghost predicate Extends(before: seq<Event>, after: seq<Event>) {
    |before| <= |after| && after[..|before|] == before
  }

  /** The listing prefix of `dir`: objstore trims one trailing '/' and adds one back; "" is the root. */
  function IterPrefix(dir: string): string {
    if dir == "" then ""
    else if dir[|dir| - 1] == '/' then dir
    else dir + "/"
  }

  /**
   * The name under which listing `p` reports key `k`: the key itself when
   * nothing follows below the next '/', else the nested prefix up to and
   * including that '/'.
   */
  function ChildName(k: string, p: string): string
    requires StartsWith(k, p)
  {
    var rest := k[|p|..];
    var i := SlashIndex(rest);
    if i < |rest| then p + rest[..i + 1] else k
  }

  /** What one level of listing under prefix `p` reports (the prefix itself excluded). */
  function Children(keys: set<string>, p: string): set<string> {
    set k | k in keys && StartsWith(k, p) && k != p :: ChildName(k, p)
  }

  /**
   * A listed name lies strictly below the prefix and is a prefix of the key
   * it stands for; it is that key itself unless it ends in '/'.
   */
  lemma ChildNameFacts(k: string, p: string)
    requires StartsWith(k, p) && k != p
    ensures var c := ChildName(k, p);
      StartsWith(c, p) && |c| > |p| && StartsWith(k, c) && (EndsWith(c, "/") || c == k)
  {
    var rest := k[|p|..];
    var i := SlashIndex(rest);
    assert k == p + rest;
    if i < |rest| {
      var c := p + rest[..i + 1];
      assert c == k[..|p| + i + 1];
      assert c[|c| - 1] == '/';
    }
  }

  /** Appending one more event to a log extended by `es` extends it by `es + [e]`. */
  lemma LogSnoc(log: seq<Event>, es: seq<Event>, e: Event)
    ensures (log + es) + [e] == log + (es + [e])
  {
  }

  predicate Distinct(s: seq<string>) {
    forall i, j :: 0 <= i < j < |s| ==> s[i] != s[j]
  }

  class Bucket {
    var objects: map<string, seq<byte>>
    var log: seq<Event>
    ghost var origin: set<string>

    /** The keys present are those the log produces from the initial keys. */
    ghost predicate Valid()
      reads this
    {
      objects.Keys == Replay(origin, log)
    }

    constructor (objects: map<string, seq<byte>>)
      ensures Valid() && this.objects == objects && log == [] && origin == objects.Keys
    {
      this.objects := objects;
      log := [];
      origin := objects.Keys;
    }

    /** Bucket.Exists: reports whether `name` is present, unless the transport fails. */
    method Exists(name: string) returns (r: Result<bool, StoreError>)
      ensures r.Ok? ==> r.value == (name in objects)
    {
      if * {
        return Err(TransportError);
      }
      return Ok(name in objects);
    }

    /** Bucket.Get: the contents of `name`; a missing object is an error. */
    method Get(name: string) returns (r: Result<seq<byte>, StoreError>)
      ensures r.Ok? ==> name in objects && r.value == objects[name]
      ensures name !in objects ==> r == Err(NotFound(name))
    {
      if name !in objects {
        return Err(NotFound(name));
      }
      if * {
        return Err(TransportError);
      }
      return Ok(objects[name]);
    }

    /** Bucket.Upload: creates or overwrites one object. */
    method Upload(name: string, data: seq<byte>) returns (err: Option<StoreError>)
      requires Valid()
      modifies this
      ensures Valid() && origin == old(origin)
      ensures err.None? ==> objects == old(objects)[name := data] && log == old(log) + [Put(name)]
      ensures err.Some? ==> objects == old(objects) && log == old(log)
    {
      if * {
        return Some(TransportError);
      }
      objects := objects[name := data];
      log := log + [Put(name)];
      assert log[..|log| - 1] == old(log);
      err := None;
    }

    /**
     * Bucket.Delete: removes one object. Whether removing a missing object
     * is an error depends on the provider, so both outcomes are allowed.
     */
    method Delete(name: string) returns (err: Option<StoreError>)
      requires Valid()
      modifies this
      ensures Valid() && origin == old(origin)
      ensures err.None? ==> objects == old(objects) - {name} && log == old(log) + [Event.Delete(name)]
      ensures err.Some? ==> objects == old(objects) && log == old(log)
    {
      if * {
        return Some(if name in objects then TransportError else NotFound(name));
      }
      objects := objects - {name};
      log := log + [Event.Delete(name)];
      assert log[..|log| - 1] == old(log);
      err := None;
    }

    /**
     * Bucket.Iter: the names one level below `dir`, each once, in an order
     * the provider chooses; names ending in '/' stand for nested prefixes.
     */
    method Iter(dir: string) returns (r: Result<seq<string>, StoreError>)
      ensures r.Ok? ==> Distinct(r.value)
      ensures r.Ok? ==> forall n :: n in r.value <==> n in Children(objects.Keys, IterPrefix(dir))
    {
      if * {
        return Err(TransportError);
      }
      var left := Children(objects.Keys, IterPrefix(dir));
      var names := [];
      while left != {}
        invariant forall n :: n in Children(objects.Keys, IterPrefix(dir)) <==> n in names || n in left
        invariant forall n :: n in names ==> n !in left
        invariant Distinct(names)
        decreases |left|
      {
        var n :| n in left;
        names := names + [n];
        left := left - {n};
      }
      return Ok(names);
    }
  }
}
