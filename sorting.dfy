/**
 * `Array.prototype.sort((a, b) => key(b) - key(a))`: the comparator orders by a
 * numeric key, largest first, and ECMAScript requires the sort to be stable, so
 * the result is the unique permutation that is ordered by the key and keeps
 * elements of equal key in their original order. Insertion sort computes it.
 */
module Sorting {
  import opened Seqs

  predicate SortedDesc<T>(s: seq<T>, key: T -> int)
  {
    forall i, j :: 0 <= i < j < |s| ==> key(s[i]) >= key(s[j])
  }

  /** Put `x` in front of the first element whose key is not larger than its own. */
  function Insert<T>(x: T, s: seq<T>, key: T -> int): (r: seq<T>)
    ensures |r| == |s| + 1
  {
    if s == [] || key(s[0]) <= key(x) then [x] + s
    else [s[0]] + Insert(x, s[1..], key)
  }

  lemma {:induction false} InsertSorted<T>(x: T, s: seq<T>, key: T -> int)
    requires SortedDesc(s, key)
    ensures SortedDesc(Insert(x, s, key), key)
    ensures Insert(x, s, key)[0] == x || Insert(x, s, key)[0] == s[0]
  {
    if s != [] && key(s[0]) > key(x) {
      var rest := Insert(x, s[1..], key);
      InsertSorted(x, s[1..], key);
      assert key(s[0]) >= key(rest[0]);
      var r := [s[0]] + rest;
      forall i, j | 0 <= i < j < |r| ensures key(r[i]) >= key(r[j]) {
        if i == 0 {
          assert r[j] == rest[j - 1];
          assert key(rest[0]) >= key(rest[j - 1]);
        } else {
          assert r[i] == rest[i - 1] && r[j] == rest[j - 1];
        }
      }
    }
  }

  lemma {:induction false} InsertPermutes<T>(x: T, s: seq<T>, key: T -> int)
    ensures multiset(Insert(x, s, key)) == multiset(s) + multiset{x}
  {
    if s != [] && key(s[0]) > key(x) {
      InsertPermutes(x, s[1..], key);
      assert s == [s[0]] + s[1..];
    }
  }

  function SortNewestFirst<T>(s: seq<T>, key: T -> int): (r: seq<T>)
    ensures SortedDesc(r, key)
    ensures multiset(r) == multiset(s)
    ensures |r| == |s|
  {
    if s == [] then []
    else
      var sorted := SortNewestFirst(s[1..], key);
      InsertSorted(s[0], sorted, key);
      InsertPermutes(s[0], sorted, key);
      assert s == [s[0]] + s[1..];
      Insert(s[0], sorted, key)
  }

  /** The elements whose key is `k`. */
  function KeyIs<T>(key: T -> int, k: int): T -> bool
  {
    x => key(x) == k
  }

  lemma {:induction false} InsertStable<T(!new)>(x: T, s: seq<T>, key: T -> int, k: int)
    ensures Filter(Insert(x, s, key), KeyIs(key, k)) == Filter([x] + s, KeyIs(key, k))
  {
    if s != [] && key(s[0]) > key(x) {
      var p := KeyIs(key, k);
      var rest := Insert(x, s[1..], key);
      InsertStable(x, s[1..], key, k);
      assert ([s[0]] + rest)[1..] == rest;
      assert ([x] + s)[1..] == s;
      assert ([x] + s[1..])[1..] == s[1..];
      // x and s[0] have different keys, so at most one of them is kept
      if p(x) {
        assert !p(s[0]);
        assert Filter([s[0]] + rest, p) == Filter(rest, p);
        assert Filter(s, p) == Filter(s[1..], p);
      } else {
        assert Filter(rest, p) == Filter(s[1..], p);
        assert Filter([x] + s, p) == Filter(s, p);
      }
    }
  }

  /** Stability: among the elements with any one key, the sort keeps the original order. */
  lemma {:induction false} SortStable<T(!new)>(s: seq<T>, key: T -> int, k: int)
    ensures Filter(SortNewestFirst(s, key), KeyIs(key, k)) == Filter(s, KeyIs(key, k))
  {
    if s != [] {
      var p := KeyIs(key, k);
      var sorted := SortNewestFirst(s[1..], key);
      SortStable(s[1..], key, k);
      InsertStable(s[0], sorted, key, k);
      FilterConcat([s[0]], sorted, p);
      FilterConcat([s[0]], s[1..], p);
      assert s == [s[0]] + s[1..];
    }
  }

  /** Sorting keeps exactly the elements it was given. */
  lemma SortKeepsMembers<T>(s: seq<T>, key: T -> int, x: T)
    ensures x in SortNewestFirst(s, key) <==> x in s
  {
    var r := SortNewestFirst(s, key);
    assert x in r <==> x in multiset(r);
    assert x in s <==> x in multiset(s);
  }

  lemma SortKeepsAll<T>(s: seq<T>, key: T -> int)
    ensures forall i :: 0 <= i < |SortNewestFirst(s, key)| ==> SortNewestFirst(s, key)[i] in s
    ensures forall i :: 0 <= i < |s| ==> s[i] in SortNewestFirst(s, key)
  {
    var r := SortNewestFirst(s, key);
    forall i | 0 <= i < |r| ensures r[i] in s {
      SortKeepsMembers(s, key, r[i]);
    }
    forall i | 0 <= i < |s| ensures s[i] in r {
      SortKeepsMembers(s, key, s[i]);
    }
  }
}
