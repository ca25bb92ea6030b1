/**
 * The array operations the store and the views are built from:
 * `map` with a conditional, `filter`, `find`/`findIndex` and `some`.
 */
module Seqs {
  import opened Maybe

  /** `s.map(x => p(x) ? f(x) : x)`: rewrite exactly the elements that satisfy `p`. */
  function MapIf<T>(s: seq<T>, p: T -> bool, f: T -> T): (r: seq<T>)
    ensures |r| == |s|
    ensures forall i :: 0 <= i < |s| ==> r[i] == if p(s[i]) then f(s[i]) else s[i]
  {
    if s == [] then [] else [if p(s[0]) then f(s[0]) else s[0]] + MapIf(s[1..], p, f)
  }

  /** `r` is `s` with some elements deleted, the rest kept in order. */
  predicate IsSubsequence<T(==)>(r: seq<T>, s: seq<T>)
  {
    if r == [] then true
    else if s == [] then false
    else if r[0] == s[0] then IsSubsequence(r[1..], s[1..])
    else IsSubsequence(r, s[1..])
  }

  /** `s.filter(p)`. */
  function Filter<T(==,!new)>(s: seq<T>, p: T -> bool): (r: seq<T>)
    ensures forall i :: 0 <= i < |r| ==> r[i] in s && p(r[i])
    ensures forall i :: 0 <= i < |s| && p(s[i]) ==> s[i] in r
    ensures |r| <= |s|
    ensures IsSubsequence(r, s)
  {
    if s == [] then []
    else if p(s[0]) then [s[0]] + Filter(s[1..], p)
    else Filter(s[1..], p)
  }

  /** `s.filter(p)` keeps every occurrence of an element satisfying `p` and none of the others. */
  lemma {:induction false} FilterMultiset<T(!new)>(s: seq<T>, p: T -> bool)
    ensures forall x :: multiset(Filter(s, p))[x] == if p(x) then multiset(s)[x] else 0
  {
    if s != [] {
      FilterMultiset(s[1..], p);
      assert s == [s[0]] + s[1..];
    }
  }

  /** `s.findIndex(p)`, with `None` for -1. */
  function IndexWhere<T>(s: seq<T>, p: T -> bool): (r: Option<nat>)
    ensures r.Some? ==> r.value < |s| && p(s[r.value])
    ensures r.Some? ==> forall j :: 0 <= j < r.value ==> !p(s[j])
    ensures r.None? <==> forall j :: 0 <= j < |s| ==> !p(s[j])
  {
    if s == [] then None
    else if p(s[0]) then Some(0)
    else match IndexWhere(s[1..], p)
      case None => None
      case Some(k) => Some(k + 1)
  }

  /** `x` is the first element of `s` satisfying `p`. */
  ghost predicate IsFirstWhere<T>(s: seq<T>, p: T -> bool, x: T)
  {
    exists i :: 0 <= i < |s| && s[i] == x && p(x) && forall j :: 0 <= j < i ==> !p(s[j])
  }

  /** `s.find(p)`: the first element satisfying `p`. */
  function FindWhere<T>(s: seq<T>, p: T -> bool): (r: Option<T>)
    ensures r.Some? ==> r.value in s && p(r.value)
    ensures r.Some? ==> IsFirstWhere(s, p, r.value)
    ensures r.None? <==> forall i :: 0 <= i < |s| ==> !p(s[i])
  {
    match IndexWhere(s, p)
    case None => None
    case Some(i) => Some(s[i])
  }

  /** `s.map(f)`. */
  function Map<T, U>(s: seq<T>, f: T -> U): (r: seq<U>)
    ensures |r| == |s|
    ensures forall i :: 0 <= i < |s| ==> r[i] == f(s[i])
  {
    if s == [] then [] else [f(s[0])] + Map(s[1..], f)
  }

  /** No two elements of `s` agree on `f`. */
  ghost predicate DistinctBy<T, K>(s: seq<T>, f: T -> K)
  {
    forall i, j :: 0 <= i < j < |s| ==> f(s[i]) != f(s[j])
  }

  /** Every element of a subsequence comes from the sequence, at a position no earlier than its own. */
  lemma {:induction false} SubsequenceMember<T>(r: seq<T>, s: seq<T>, j: nat)
    requires IsSubsequence(r, s) && j < |r|
    ensures exists k :: j <= k < |s| && r[j] == s[k]
  {
    assert r != [] && s != [];
    if r[0] == s[0] {
      if j > 0 {
        SubsequenceMember(r[1..], s[1..], j - 1);
        var k :| j - 1 <= k < |s[1..]| && r[1..][j - 1] == s[1..][k];
        assert r[j] == s[k + 1];
      } else {
        assert r[0] == s[0];
      }
    } else {
      SubsequenceMember(r, s[1..], j);
      var k :| j <= k < |s[1..]| && r[j] == s[1..][k];
      assert r[j] == s[k + 1];
    }
  }

  /** Deleting elements cannot create a clash. */
  lemma {:induction false} SubsequenceDistinct<T, K>(r: seq<T>, s: seq<T>, f: T -> K)
    requires IsSubsequence(r, s) && DistinctBy(s, f)
    ensures DistinctBy(r, f)
  {
    if r != [] {
      assert s != [];
      if r[0] == s[0] {
        assert DistinctBy(s[1..], f);
        SubsequenceDistinct(r[1..], s[1..], f);
        forall j | 0 < j < |r| ensures f(r[0]) != f(r[j]) {
          SubsequenceMember(r[1..], s[1..], j - 1);
          var k :| j - 1 <= k < |s[1..]| && r[1..][j - 1] == s[1..][k];
          assert r[j] == s[k + 1];
        }
        forall i, j | 0 <= i < j < |r| ensures f(r[i]) != f(r[j]) {
          if i > 0 {
            assert r[i] == r[1..][i - 1] && r[j] == r[1..][j - 1];
          }
        }
      } else {
        assert DistinctBy(s[1..], f);
        SubsequenceDistinct(r, s[1..], f);
      }
    }
  }

  lemma {:induction false} FilterConcat<T(!new)>(s: seq<T>, t: seq<T>, p: T -> bool)
    ensures Filter(s + t, p) == Filter(s, p) + Filter(t, p)
  {
    if s == [] {
      assert s + t == t;
    } else {
      assert (s + t)[1..] == s[1..] + t;
      FilterConcat(s[1..], t, p);
    }
  }

  /** Filtering with a predicate every element satisfies changes nothing. */
  lemma {:induction false} FilterKeepsAll<T(!new)>(s: seq<T>, p: T -> bool)
    requires forall i :: 0 <= i < |s| ==> p(s[i])
    ensures Filter(s, p) == s
  {
    if s != [] {
      FilterKeepsAll(s[1..], p);
    }
  }

  /** Two predicates that agree on the elements of `s` filter it alike. */
  lemma {:induction false} FilterCongruent<T(!new)>(s: seq<T>, p: T -> bool, q: T -> bool)
    requires forall i :: 0 <= i < |s| ==> p(s[i]) == q(s[i])
    ensures Filter(s, p) == Filter(s, q)
  {
    if s != [] {
      FilterCongruent(s[1..], p, q);
    }
  }

  /** `MapIf` with a predicate no element satisfies is the identity. */
  lemma MapIfNoMatch<T>(s: seq<T>, p: T -> bool, f: T -> T)
    requires forall i :: 0 <= i < |s| ==> !p(s[i])
    ensures MapIf(s, p, f) == s
  {
  }

  /** Through a map that sends no other element of `s` where it sends `x`, `x` keeps its count. */
  lemma {:induction false} MapMultisetInjective<T, U>(s: seq<T>, f: T -> U, x: T)
    requires forall i :: 0 <= i < |s| && f(s[i]) == f(x) ==> s[i] == x
    ensures multiset(Map(s, f))[f(x)] == multiset(s)[x]
  {
    if s != [] {
      MapMultisetInjective(s[1..], f, x);
      assert s == [s[0]] + s[1..];
      assert Map(s, f) == [f(s[0])] + Map(s[1..], f);
    }
  }

  /** An element of a sequence without two elements agreeing on `f` occurs once. */
  lemma {:induction false} DistinctOccursOnce<T, K>(s: seq<T>, f: T -> K, x: T)
    requires DistinctBy(s, f) && x in s
    ensures multiset(s)[x] == 1
  {
    assert s == [s[0]] + s[1..];
    assert DistinctBy(s[1..], f) by {
      forall i, j | 0 <= i < j < |s[1..]| ensures f(s[1..][i]) != f(s[1..][j]) {
        assert s[1..][i] == s[i + 1] && s[1..][j] == s[j + 1];
      }
    }
    if s[0] != x {
      DistinctOccursOnce(s[1..], f, x);
    }
  }

  /**
   * When `s` has distinct keys and `f` keeps the key, `s.filter(p).map(f)`
   * holds the image of `x` once if `p(x)` and otherwise not at all.
   */
  lemma FilterMapCount<T(!new), U, K>(s: seq<T>, p: T -> bool, f: T -> U, key: T -> K, fkey: U -> K, x: T)
    requires DistinctBy(s, key) && x in s
    requires forall y :: fkey(f(y)) == key(y)
    ensures multiset(Map(Filter(s, p), f))[f(x)] == if p(x) then 1 else 0
  {
    var v := Filter(s, p);
    forall i | 0 <= i < |v| && f(v[i]) == f(x) ensures v[i] == x {
      var a :| 0 <= a < |s| && s[a] == v[i];
      var b :| 0 <= b < |s| && s[b] == x;
      assert key(s[a]) == fkey(f(s[a])) == fkey(f(s[b])) == key(s[b]);
    }
    MapMultisetInjective(v, f, x);
    FilterMultiset(s, p);
    DistinctOccursOnce(s, key, x);
  }

  /** `s.filter(p).map(f)` holds the images of exactly the elements satisfying `p`. */
  lemma FilterMapMembers<T(!new), U>(s: seq<T>, p: T -> bool, f: T -> U)
    ensures forall k :: 0 <= k < |Map(Filter(s, p), f)| ==>
              exists j :: 0 <= j < |s| && p(s[j]) && Map(Filter(s, p), f)[k] == f(s[j])
    ensures forall j :: 0 <= j < |s| && p(s[j]) ==> f(s[j]) in Map(Filter(s, p), f)
  {
    var kept := Filter(s, p);
    var r := Map(kept, f);
    forall k | 0 <= k < |r| ensures exists j :: 0 <= j < |s| && p(s[j]) && r[k] == f(s[j]) {
      var j :| 0 <= j < |s| && s[j] == kept[k];
    }
    forall j | 0 <= j < |s| && p(s[j]) ensures f(s[j]) in r {
      var k :| 0 <= k < |kept| && kept[k] == s[j];
      assert r[k] == f(s[j]);
    }
  }

  /** `s.filter(p)[0]` is `s.find(p)`. */
  lemma {:induction false} FirstOfFilterIsFind<T(!new)>(s: seq<T>, p: T -> bool)
    ensures |Filter(s, p)| == 0 <==> FindWhere(s, p).None?
    ensures |Filter(s, p)| > 0 ==> FindWhere(s, p) == Some(Filter(s, p)[0])
  {
    if s != [] && !p(s[0]) {
      FirstOfFilterIsFind(s[1..], p);
      assert IndexWhere(s, p) == match IndexWhere(s[1..], p)
        case None => None
        case Some(k) => Some(k + 1);
    }
  }
}
