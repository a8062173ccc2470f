/** Generic list pipelines used by the store's queries: `filter`, `find`,
    a stable descending `sort`, and the non-negative `slice(offset, offset + limit)`
    window of JavaScript arrays. */
module Listing {
  import opened Wrappers

  function Min(a: int, b: int): int { if a <= b then a else b }
  function Max(a: int, b: int): int { if a <= b then b else a }

  // ---------------------------------------------------------------- filter

  /** `Array.prototype.filter`: the elements satisfying `p`, in their original order. */
  function Filter<T>(s: seq<T>, p: T -> bool): (r: seq<T>)
    ensures |r| <= |s|
    ensures forall i :: 0 <= i < |r| ==> r[i] in s && p(r[i])
  {
    if s == [] then []
    else
      (if p(s[0]) then [s[0]] else []) + Filter(s[1..], p)
  }

  /** Filtering drops no element that satisfies `p`. */
  lemma {:induction false} FilterKeeps<T>(s: seq<T>, p: T -> bool)
    ensures forall i :: 0 <= i < |s| && p(s[i]) ==> s[i] in Filter(s, p)
  {
    if s != [] {
      FilterKeeps(s[1..], p);
      forall i | 1 <= i < |s| && p(s[i]) ensures s[i] in Filter(s, p) {
        assert s[1..][i - 1] == s[i];
      }
    }
  }

  /** Filtering keeps every element when all of them qualify. */
  lemma {:induction false} FilterAll<T>(s: seq<T>, p: T -> bool)
    requires forall i :: 0 <= i < |s| ==> p(s[i])
    ensures Filter(s, p) == s
  {
    if s != [] {
      FilterAll(s[1..], p);
    }
  }

  /** Two predicates that agree on every element filter alike. */
  lemma {:induction false} FilterSame<T>(s: seq<T>, p: T -> bool, q: T -> bool)
    requires forall i :: 0 <= i < |s| ==> p(s[i]) == q(s[i])
    ensures Filter(s, p) == Filter(s, q)
  {
    if s != [] {
      FilterSame(s[1..], p, q);
    }
  }

  // ---------------------------------------------------------------- find

  /** The position of the first element satisfying `p`, if any. */
  function FindIndex<T>(s: seq<T>, p: T -> bool): (r: Option<nat>)
    ensures r.Some? ==> r.value < |s| && p(s[r.value])
    ensures r.Some? ==> forall j :: 0 <= j < r.value ==> !p(s[j])
    ensures r.None? ==> forall j :: 0 <= j < |s| ==> !p(s[j])
  {
    if s == [] then None
    else if p(s[0]) then Some(0)
    else match FindIndex(s[1..], p)
      case None => None
      case Some(i) => Some(i + 1)
  }

  /** `Array.prototype.find`: the first element satisfying `p`, or `undefined`. */
  function FindFirst<T>(s: seq<T>, p: T -> bool): (r: Option<T>)
    ensures r.Some? ==> r.value in s && p(r.value)
    ensures r.None? <==> forall i :: 0 <= i < |s| ==> !p(s[i])
  {
    match FindIndex(s, p)
    case None => None
    case Some(i) => Some(s[i])
  }

  // ---------------------------------------------------------------- slice

  /** `s.slice(offset, offset + limit)` for non-negative `offset` and `limit`:
      both ends are clamped to the length. */
  function Window<T>(s: seq<T>, offset: nat, limit: nat): (r: seq<T>)
    ensures |r| == Min(limit, Max(0, |s| - offset))
    ensures forall i :: 0 <= i < |r| ==> r[i] == s[offset + i]
  {
    s[Min(offset, |s|)..Min(offset + limit, |s|)]
  }

  /** Two consecutive pages, read one after the other, give the larger page. */
  lemma WindowConcat<T>(s: seq<T>, offset: nat, l1: nat, l2: nat)
    ensures Window(s, offset, l1) + Window(s, offset + l1, l2) == Window(s, offset, l1 + l2)
  {
    var a, b, c := Window(s, offset, l1), Window(s, offset + l1, l2), Window(s, offset, l1 + l2);
    assert |a + b| == |c|;
    forall i | 0 <= i < |c| ensures (a + b)[i] == c[i] {
      if i >= |a| {
        assert (a + b)[i] == b[i - |a|];
      }
    }
  }

  /** A window starting at 0 that is at least as long as the list is the whole list. */
  lemma WindowWhole<T>(s: seq<T>, limit: nat)
    requires |s| <= limit
    ensures Window(s, 0, limit) == s
  {
  }

  // ---------------------------------------------------------------- orders

  /** `x` comes strictly before `y` in a stable descending sort of a list whose
      elements appear in ascending `id` order: larger key first, ties by smaller id. */
  predicate Before<T>(x: T, y: T, key: T -> int, id: T -> int) {
    key(x) > key(y) || (key(x) == key(y) && id(x) < id(y))
  }

  /** Ids strictly ascend along `s` (the insertion order of the store's maps). */
  predicate Ascending<T>(s: seq<T>, id: T -> int) {
    forall i, j :: 0 <= i < j < |s| ==> id(s[i]) < id(s[j])
  }

  /** Keys never increase along `s`. */
  predicate NonIncreasing<T>(s: seq<T>, key: T -> int) {
    forall i, j :: 0 <= i < j < |s| ==> key(s[i]) >= key(s[j])
  }

  /** `s` is in the order a stable descending sort by `key` produces from ascending ids. */
  predicate StablyOrdered<T>(s: seq<T>, key: T -> int, id: T -> int) {
    forall i, j :: 0 <= i < j < |s| ==> Before(s[i], s[j], key, id)
  }

  lemma {:induction false} FilterAscending<T>(s: seq<T>, p: T -> bool, id: T -> int)
    requires Ascending(s, id)
    ensures Ascending(Filter(s, p), id)
  {
    if s != [] {
      FilterAscending(s[1..], p, id);
      var tail := Filter(s[1..], p);
      forall y | y in tail ensures id(s[0]) < id(y) {
        var j :| 0 <= j < |s[1..]| && s[1..][j] == y;
        assert s[j + 1] == y;
      }
    }
  }

  // ---------------------------------------------------------------- sort

  /** Inserts `x` in front of the first element whose key is not larger: the
      step of a stable insertion sort that runs from the end of the list. */
  function Insert<T>(x: T, s: seq<T>, key: T -> int): (r: seq<T>)
    ensures multiset(r) == multiset(s) + multiset{x}
  {
    if s == [] || key(x) >= key(s[0]) then [x] + s
    else
      assert s == [s[0]] + s[1..];
      [s[0]] + Insert(x, s[1..], key)
  }

  lemma {:induction false} InsertNonIncreasing<T>(x: T, s: seq<T>, key: T -> int)
    requires NonIncreasing(s, key)
    ensures NonIncreasing(Insert(x, s, key), key)
  {
    if s == [] || key(x) >= key(s[0]) {
    } else {
      InsertNonIncreasing(x, s[1..], key);
      var rest := Insert(x, s[1..], key);
      var r := [s[0]] + rest;
      forall j | 0 < j < |r| ensures key(r[0]) >= key(r[j]) {
        assert r[j] in multiset(rest);
        assert r[j] in multiset(s[1..]) + multiset{x};
        if r[j] != x {
          assert r[j] in s[1..];
        }
      }
    }
  }

  /** The array ordered by `key`, largest first, keeping the input order among
      equal keys (`Array.prototype.sort` with comparator `(a, b) => key(b) - key(a)`,
      which is stable). */
  function SortDesc<T>(s: seq<T>, key: T -> int): (r: seq<T>)
    ensures multiset(r) == multiset(s)
    ensures |r| == |s|
  {
    if s == [] then []
    else
      var rest := SortDesc(s[1..], key);
      assert s == [s[0]] + s[1..];
      Insert(s[0], rest, key)
  }

  /** The sort puts keys in non-increasing order. */
  lemma {:induction false} SortNonIncreasing<T>(s: seq<T>, key: T -> int)
    ensures NonIncreasing(SortDesc(s, key), key)
  {
    if s != [] {
      SortNonIncreasing(s[1..], key);
      InsertNonIncreasing(s[0], SortDesc(s[1..], key), key);
    }
  }

  lemma {:induction false} InsertStable<T>(x: T, s: seq<T>, key: T -> int, id: T -> int)
    requires StablyOrdered(s, key, id)
    requires forall y | y in s :: id(x) < id(y)
    ensures StablyOrdered(Insert(x, s, key), key, id)
  {
    if s == [] || key(x) >= key(s[0]) {
    } else {
      InsertStable(x, s[1..], key, id);
      var rest := Insert(x, s[1..], key);
      var r := [s[0]] + rest;
      forall j | 0 < j < |r| ensures Before(r[0], r[j], key, id) {
        assert r[j] in multiset(rest);
        assert r[j] in multiset(s[1..]) + multiset{x};
        if r[j] != x {
          assert r[j] in s[1..];
        }
      }
    }
  }

  /** Sorting a list given in ascending id order is stable: equal keys stay in id order. */
  lemma {:induction false} SortStable<T>(s: seq<T>, key: T -> int, id: T -> int)
    requires Ascending(s, id)
    ensures StablyOrdered(SortDesc(s, key), key, id)
  {
    if s != [] {
      SortStable(s[1..], key, id);
      var rest := SortDesc(s[1..], key);
      forall y | y in rest ensures id(s[0]) < id(y) {
        assert y in multiset(s[1..]);
        var j :| 0 <= j < |s[1..]| && s[1..][j] == y;
        assert s[j + 1] == y;
      }
      InsertStable(s[0], rest, key, id);
    }
  }

  /** Sorting by a key that all elements share changes nothing. */
  lemma {:induction false} SortConstantKey<T>(s: seq<T>, key: T -> int, k: int)
    requires forall i :: 0 <= i < |s| ==> key(s[i]) == k
    ensures SortDesc(s, key) == s
  {
    if s != [] {
      SortConstantKey(s[1..], key, k);
      assert SortDesc(s[1..], key) == s[1..];
      if |s| > 1 {
        assert key(s[0]) >= key(s[1..][0]);
      }
    }
  }

  /** Two stably ordered lists with the same elements start with the same element. */
  lemma StablyOrderedSameHead<T>(a: seq<T>, b: seq<T>, key: T -> int, id: T -> int)
    requires a != [] && multiset(a) == multiset(b)
    requires StablyOrdered(a, key, id) && StablyOrdered(b, key, id)
    ensures b != [] && a[0] == b[0]
  {
    assert a[0] in multiset(b);
    var k :| 0 <= k < |b| && b[k] == a[0];
    assert b[0] in multiset(a);
    var m :| 0 <= m < |a| && a[m] == b[0];
    if k != 0 && m != 0 {
      assert false;
    }
  }

  /** Two lists that hold the same elements and are both stably ordered are equal:
      the stable order is unique. */
  lemma {:induction false} StablyOrderedUnique<T>(a: seq<T>, b: seq<T>, key: T -> int, id: T -> int)
    requires multiset(a) == multiset(b)
    requires StablyOrdered(a, key, id) && StablyOrdered(b, key, id)
    ensures a == b
  {
    if a == [] {
      assert |b| == |multiset(b)| == 0;
    } else {
      StablyOrderedSameHead(a, b, key, id);
      TailMultiset(a);
      TailMultiset(b);
      StablyOrderedUnique(a[1..], b[1..], key, id);
      assert a == [a[0]] + a[1..];
      assert b == [b[0]] + b[1..];
    }
  }

  lemma TailMultiset<T>(a: seq<T>)
    requires a != []
    ensures multiset(a[1..]) == multiset(a) - multiset{a[0]}
  {
    assert a == [a[0]] + a[1..];
  }

  /** Reference characterisation of the sort: any stably ordered rearrangement of
      a list in ascending id order is exactly what `SortDesc` returns. */
  lemma SortCharacterised<T>(s: seq<T>, a: seq<T>, key: T -> int, id: T -> int)
    requires Ascending(s, id)
    requires multiset(a) == multiset(s) && StablyOrdered(a, key, id)
    ensures SortDesc(s, key) == a
  {
    SortStable(s, key, id);
    StablyOrderedUnique(SortDesc(s, key), a, key, id);
  }

  /** A sort-then-slice over a list in ascending id order: the window has the
      clamped length, holds elements of the list only, and is stably ordered. */
  lemma SortedWindow<T>(s: seq<T>, key: T -> int, id: T -> int, offset: nat, limit: nat)
    requires Ascending(s, id)
    ensures var r := Window(SortDesc(s, key), offset, limit);
      && |r| == Min(limit, Max(0, |s| - offset))
      && (forall i :: 0 <= i < |r| ==> r[i] in s)
      && StablyOrdered(r, key, id)
  {
    var sorted := SortDesc(s, key);
    SortStable(s, key, id);
    var r := Window(sorted, offset, limit);
    forall i | 0 <= i < |r| ensures r[i] in s {
      assert r[i] == sorted[offset + i];
      assert sorted[offset + i] in multiset(sorted);
    }
  }
}
