/**
 * Slash-separated paths as Go's `path`, `path/filepath` and `strings`
 * packages treat them, for the clean paths the block code builds, and the
 * byte-wise string order of `strings.Compare`.
 */
module Paths {

  predicate StartsWith(s: string, prefix: string) {
    |prefix| <= |s| && s[..|prefix|] == prefix
  }

  predicate EndsWith(s: string, suffix: string) {
    |suffix| <= |s| && s[|s| - |suffix|..] == suffix
  }

  /** Index of the first '/' in `s`, or `|s|` when there is none. */
  function SlashIndex(s: string): (i: nat)
    ensures i <= |s|
    ensures i < |s| ==> s[i] == '/'
    ensures forall j :: 0 <= j < i ==> s[j] != '/'
  {
    if s == [] || s[0] == '/' then 0 else 1 + SlashIndex(s[1..])
  }

  /** `s` with every trailing '/' removed. */
  function TrimTrailingSlashes(s: string): (r: string)
    ensures StartsWith(s, r)
    ensures r == [] || r[|r| - 1] != '/'
    ensures forall j :: |r| <= j < |s| ==> s[j] == '/'
    decreases |s|
  {
    if s != [] && s[|s| - 1] == '/' then TrimTrailingSlashes(s[..|s| - 1]) else s
  }

  /** The part of `s` after its last '/'. */
  function LastElem(s: string): (r: string)
    ensures |r| <= |s| && s[|s| - |r|..] == r
    ensures '/' !in r
    ensures |r| < |s| ==> s[|s| - |r| - 1] == '/'
    decreases |s|
  {
    if s == [] || s[|s| - 1] == '/' then [] else LastElem(s[..|s| - 1]) + [s[|s| - 1]]
  }

  /** filepath.Join(dir, elem) for a non-empty element without separators. */
  function Join(dir: string, elem: string): string {
    if dir == "" then elem else TrimTrailingSlashes(dir) + "/" + elem
  }

  /** filepath.Base: the last element, trailing separators ignored. */
  function Base(p: string): string {
    if p == "" then "."
    else
      var q := TrimTrailingSlashes(p);
      if q == "" then "/" else LastElem(q)
  }

  /** filepath.Dir: everything before the last element. */
  function Dir(p: string): string {
    var q := p[..|p| - |LastElem(p)|];
    if q == "" then "."
    else
      var t := TrimTrailingSlashes(q);
      if t == "" then "/" else t
  }

  lemma {:induction false} LastElemAfterSlash(x: string, e: string)
    requires x == [] || x[|x| - 1] == '/'
    requires '/' !in e
    ensures LastElem(x + e) == e
    decreases |e|
  {
    if e == [] {
      assert x + e == x;
    } else {
      var init := e[..|e| - 1];
      var s := x + e;
      assert e == init + [e[|e| - 1]];
      assert s[|s| - 1] == e[|e| - 1] && e[|e| - 1] in e;
      assert s[..|s| - 1] == x + init;
      assert '/' !in init by {
        assert forall c :: c in init ==> c in e;
      }
      assert s != [] && s[|s| - 1] != '/';
      assert LastElem(s) == LastElem(s[..|s| - 1]) + [s[|s| - 1]];
      LastElemAfterSlash(x, init);
    }
  }

  /** The base name of a joined path is the element that was joined. */
  lemma BaseOfJoin(dir: string, elem: string)
    requires elem != "" && '/' !in elem
    ensures Base(Join(dir, elem)) == elem
  {
    var j := Join(dir, elem);
    var x := if dir == "" then "" else TrimTrailingSlashes(dir) + "/";
    assert j == x + elem;
    assert j[|j| - 1] == elem[|elem| - 1];
    assert TrimTrailingSlashes(j) == j;
    LastElemAfterSlash(x, elem);
  }

  /** strings.Compare(a, b) < 0: lexicographic order on characters. */
  predicate Less(a: string, b: string) {
    if a == [] then b != []
    else if b == [] then false
    else if a[0] != b[0] then a[0] < b[0]
    else Less(a[1..], b[1..])
  }

  lemma {:induction false} LessIrreflexive(a: string)
    ensures !Less(a, a)
  {
    if a != [] {
      LessIrreflexive(a[1..]);
    }
  }

  lemma {:induction false} LessTransitive(a: string, b: string, c: string)
    requires Less(a, b) && Less(b, c)
    ensures Less(a, c)
  {
    if a != [] && a[0] == b[0] && b[0] == c[0] {
      LessTransitive(a[1..], b[1..], c[1..]);
    }
  }

  lemma {:induction false} LessTotal(a: string, b: string)
    requires a != b
    ensures Less(a, b) || Less(b, a)
  {
    if a != [] && b != [] && a[0] == b[0] {
      assert a == [a[0]] + a[1..] && b == [b[0]] + b[1..];
      LessTotal(a[1..], b[1..]);
    }
  }

  /** A common prefix does not change the order. */
  lemma {:induction false} LessCommonPrefix(p: string, a: string, b: string)
    ensures Less(p + a, p + b) == Less(a, b)
  {
    if p == [] {
      assert p + a == a && p + b == b;
    } else {
      assert (p + a)[1..] == p[1..] + a && (p + b)[1..] == p[1..] + b;
      LessCommonPrefix(p[1..], a, b);
    }
  }

  predicate StrictlySorted(s: seq<string>) {
    forall i, j :: 0 <= i < j < |s| ==> Less(s[i], s[j])
  }

  predicate IsMinimum(m: string, s: set<string>) {
    m in s && forall y :: y in s ==> !Less(y, m)
  }

  /** Every finite non-empty set of strings has a least element. */
  lemma {:induction false} MinimumExists(s: set<string>)
    requires s != {}
    ensures exists m :: IsMinimum(m, s)
    decreases |s|
  {
    var x :| x in s;
    LessIrreflexive(x);
    if s == {x} {
      assert IsMinimum(x, s);
    } else {
      MinimumExists(s - {x});
      var m :| IsMinimum(m, s - {x});
      if Less(x, m) {
        forall y | y in s
          ensures !Less(y, x)
        {
          if y != x && Less(y, x) {
            LessTransitive(y, x, m);
          }
        }
        assert IsMinimum(x, s);
      } else {
        assert IsMinimum(m, s);
      }
    }
  }

  /** The elements of a finite set in increasing order, as os.ReadDir lists a directory. */
  method SortedElements(s: set<string>) returns (r: seq<string>)
    ensures StrictlySorted(r)
    ensures forall x :: x in r <==> x in s
    ensures |r| == |s|
  {
    var left := s;
    r := [];
    while left != {}
      invariant forall x :: x in s <==> x in r || x in left
      invariant forall x :: x in r ==> x !in left
      invariant StrictlySorted(r)
      invariant forall i, y :: 0 <= i < |r| && y in left ==> Less(r[i], y)
      invariant |r| + |left| == |s|
      decreases |left|
    {
      MinimumExists(left);
      var m :| IsMinimum(m, left);
      forall y | y in left - {m}
        ensures Less(m, y)
      {
        LessTotal(m, y);
      }
      r := r + [m];
      left := left - {m};
    }
  }
}
