/** Facts about sequences used as lists of distinct values. */
module Collections {

  /** No value occurs twice in `s`. */
  predicate NoDups<T(==)>(s: seq<T>)
  {
    forall i, j :: 0 <= i < j < |s| ==> s[i] != s[j]
  }

  /** The set of values occurring in `s`. */
  function Elems<T>(s: seq<T>): set<T>
  {
    set x | x in s
  }

  /** A list without duplicates has as many elements as distinct values. */
  lemma {:induction false} DistinctCard<T>(s: seq<T>)
    requires NoDups(s)
    ensures |Elems(s)| == |s|
  {
    if s != [] {
      DistinctCard(s[1..]);
      assert Elems(s) == Elems(s[1..]) + {s[0]};
      assert s[0] !in Elems(s[1..]) by {
        forall k | 0 <= k < |s[1..]| ensures s[1..][k] != s[0] {
          assert s[1..][k] == s[k + 1];
        }
      }
    }
  }

  /** Splitting off the last value of a list without duplicates. */
  lemma NoDupsLast<T>(s: seq<T>)
    requires NoDups(s) && s != []
    ensures s == s[..|s| - 1] + [s[|s| - 1]]
    ensures NoDups(s[..|s| - 1])
    ensures s[|s| - 1] !in s[..|s| - 1]
  {
    var n := |s| - 1;
    forall j | 0 <= j < n ensures s[..n][j] != s[n] {
      assert s[..n][j] == s[j];
    }
  }

  /** The size of a union of two disjoint sets. */
  lemma DisjointUnionCard<T>(a: set<T>, b: set<T>, c: set<T>)
    requires a == b + c && b !! c
    ensures |a| == |b| + |c|
  {
  }

  /** A subset as large as its superset is the whole superset. */
  lemma SubsetCardEq<T>(a: set<T>, b: set<T>)
    requires a <= b && |a| == |b|
    ensures a == b
  {
    assert b * a == a;
    assert |b - a| == 0;
  }

  /** A subset is no larger than its superset; a proper subset is strictly smaller. */
  lemma SubsetCard<T>(a: set<T>, b: set<T>)
    requires a <= b
    ensures |a| <= |b|
    ensures a < b ==> |a| < |b|
  {
    assert b * a == a;
    assert |b - a| == |b| - |a|;
    if a < b {
      assert b - a != {} by {
        var x :| x in b && x !in a;
        assert x in b - a;
      }
    }
  }

  /**
   * The distinct values of `s` in order of first occurrence, as a
   * JavaScript `Set` built from `s` holds them.
   */
  function Distinct<T(==)>(s: seq<T>): (r: seq<T>)
    ensures NoDups(r)
    ensures Elems(r) == Elems(s)
    ensures |r| <= |s|
    decreases |s|
  {
    if s == [] then []
    else
      var n := |s| - 1;
      var front := Distinct(s[..n]);
      assert s == s[..n] + [s[n]];
      assert Elems(s) == Elems(s[..n]) + {s[n]};
      if s[n] in front then front
      else
        assert forall k :: 0 <= k < |front| ==> (front + [s[n]])[k] == front[k];
        front + [s[n]]
  }

  /** `indexOf` / `findIndex`: the first position holding `x`, or -1 when there is none. */
  function FirstIndex<T(==)>(s: seq<T>, x: T): (k: int)
    ensures -1 <= k < |s|
    ensures k == -1 <==> x !in s
    ensures k >= 0 ==> s[k] == x && x !in s[..k]
  {
    if s == [] then -1
    else if s[0] == x then 0
    else
      var k := FirstIndex(s[1..], x);
      if k == -1 then -1
      else
        assert s[..k + 1] == [s[0]] + s[1..][..k];
        k + 1
  }
}
