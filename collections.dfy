/**
 * The Kotlin collection operations the core is written with (`filter`, `any`, `find`,
 * `count`, `map`, `groupBy`, `sortedBy`), each with the contract the Kotlin standard
 * library documents for it.
 */
module Collections {
  import opened Wrappers

  /** `r` is `s` with some elements left out and the others kept in their order. */
  ghost predicate IsSubsequence<T>(r: seq<T>, s: seq<T>)
  {
    r == [] || (s != [] && ((r[0] == s[0] && IsSubsequence(r[1..], s[1..])) || IsSubsequence(r, s[1..])))
  }

  /** `s.any(p)`: some element satisfies `p`. */
  predicate Any<T>(s: seq<T>, p: T -> bool)
  {
    exists i :: 0 <= i < |s| && p(s[i])
  }

  /** `any` holds exactly when `filter` keeps something. */
  lemma AnyIffFilterNonEmpty<T(!new)>(s: seq<T>, p: T -> bool)
    ensures Any(s, p) <==> Filter(s, p) != []
  {
    if Any(s, p) {
      var i :| 0 <= i < |s| && p(s[i]);
      assert s[i] in Filter(s, p);
    }
    var r := Filter(s, p);
    if r != [] {
      assert r[0] in r;
      var i :| 0 <= i < |s| && s[i] == r[0];
    }
  }

  /** `s.filter(p)`: exactly the elements that satisfy `p`, in their original order. */
  function Filter<T(!new)>(s: seq<T>, p: T -> bool): (r: seq<T>)
    ensures |r| <= |s|
    ensures forall x :: x in r <==> x in s && p(x)
    ensures IsSubsequence(r, s)
  {
    if s == [] then []
    else if p(s[0]) then [s[0]] + Filter(s[1..], p)
    else Filter(s[1..], p)
  }

  /** The multiset of a non-empty sequence: its head and the multiset of its tail. */
  lemma MultisetHead<T>(s: seq<T>)
    requires s != []
    ensures multiset(s) == multiset{s[0]} + multiset(s[1..])
  {
    assert s == [s[0]] + s[1..];
  }

  /**
   * `filter` keeps every element that satisfies `p` as often as it occurs, and no other:
   * a duplicate is never dropped.
   */
  lemma {:induction false} FilterMultiset<T(!new)>(s: seq<T>, p: T -> bool)
    ensures forall x :: multiset(Filter(s, p))[x] == if p(x) then multiset(s)[x] else 0
  {
    if s != [] {
      FilterMultiset(s[1..], p);
      MultisetHead(s);
      if p(s[0]) {
        assert multiset(Filter(s, p)) == multiset{s[0]} + multiset(Filter(s[1..], p));
      }
    }
  }

  /** Filtering twice is filtering once by the conjunction. */
  lemma {:induction false} FilterFilter<T(!new)>(s: seq<T>, p: T -> bool, q: T -> bool, pq: T -> bool)
    requires forall x :: pq(x) == (p(x) && q(x))
    ensures Filter(Filter(s, p), q) == Filter(s, pq)
  {
    if s != [] {
      FilterFilter(s[1..], p, q, pq);
    }
  }

  /** Some element of a filtered list satisfies `q` exactly when some element satisfies both. */
  lemma AnyFilter<T(!new)>(s: seq<T>, p: T -> bool, q: T -> bool, pq: T -> bool)
    requires forall x :: pq(x) == (p(x) && q(x))
    ensures Any(Filter(s, p), q) <==> Any(s, pq)
  {
    var f := Filter(s, p);
    if Any(f, q) {
      var i :| 0 <= i < |f| && q(f[i]);
      assert f[i] in f;
      var j :| 0 <= j < |s| && s[j] == f[i];
      assert pq(s[j]);
    }
    if Any(s, pq) {
      var j :| 0 <= j < |s| && pq(s[j]);
      assert s[j] in f;
      var i :| 0 <= i < |f| && f[i] == s[j];
      assert q(f[i]);
    }
  }

  /** `s.filter { key(it) == k }`. */
  function FilterBy<T(!new), K(==)>(s: seq<T>, key: T -> K, k: K): (r: seq<T>)
    ensures forall x :: x in r <==> x in s && key(x) == k
    ensures IsSubsequence(r, s)
  {
    Filter(s, x => key(x) == k)
  }

  /** Unfolding `FilterBy` at the head of a sequence. */
  lemma FilterByCons<T(!new), K>(x: T, s: seq<T>, key: T -> K, k: K)
    ensures FilterBy([x] + s, key, k) == (if key(x) == k then [x] else []) + FilterBy(s, key, k)
  {
    assert ([x] + s)[0] == x;
    assert ([x] + s)[1..] == s;
  }

  /** Unfolding `FilterBy` at the first element of a non-empty sequence. */
  lemma FilterByHead<T(!new), K>(s: seq<T>, key: T -> K, k: K)
    requires s != []
    ensures FilterBy(s, key, k) == (if key(s[0]) == k then [s[0]] else []) + FilterBy(s[1..], key, k)
  {
    FilterByCons(s[0], s[1..], key, k);
    assert s == [s[0]] + s[1..];
  }

  /** No element has the key: the filter is empty. */
  lemma {:induction false} FilterByNone<T(!new), K>(s: seq<T>, key: T -> K, k: K)
    requires forall i :: 0 <= i < |s| ==> key(s[i]) != k
    ensures FilterBy(s, key, k) == []
  {
    if s != [] {
      FilterByCons(s[0], s[1..], key, k);
      assert s == [s[0]] + s[1..];
      FilterByNone(s[1..], key, k);
    }
  }

  /** `s.find(p)`: the first element that satisfies `p`, or null when there is none. */
  function Find<T(!new)>(s: seq<T>, p: T -> bool): (r: Option<T>)
    ensures r.None? <==> !Any(s, p)
    ensures r.Some? ==> p(r.value)
    ensures r.Some? ==> exists i :: 0 <= i < |s| && s[i] == r.value && forall j :: 0 <= j < i ==> !p(s[j])
  {
    if s == [] then None
    else if p(s[0]) then Some(s[0])
    else
      var r := Find(s[1..], p);
      assert r.Some? ==> exists i :: 0 < i < |s| && s[i] == r.value && forall j :: 0 <= j < i ==> !p(s[j]) by {
        if r.Some? {
          var i :| 0 <= i < |s[1..]| && s[1..][i] == r.value && forall j :: 0 <= j < i ==> !p(s[1..][j]);
          assert s[i + 1] == r.value;
          forall j | 0 <= j < i + 1 ensures !p(s[j]) {
            if j > 0 { assert s[j] == s[1..][j - 1]; }
          }
        }
      }
      r
  }

  /** Searching a filtered list is searching the whole list for the conjunction. */
  lemma {:induction false} FindFilter<T(!new)>(s: seq<T>, p: T -> bool, q: T -> bool, pq: T -> bool)
    requires forall x :: pq(x) == (p(x) && q(x))
    ensures Find(Filter(s, p), q) == Find(s, pq)
  {
    if s != [] {
      FindFilter(s[1..], p, q, pq);
    }
  }

  /** `s.count(p)`: the number of elements that satisfy `p`. */
  function Count<T(!new)>(s: seq<T>, p: T -> bool): (n: nat)
    ensures n == |Filter(s, p)|
    ensures n <= |s|
    ensures n == 0 <==> !Any(s, p)
  {
    if s == [] then 0
    else
      var n := (if p(s[0]) then 1 else 0) + Count(s[1..], p);
      assert Any(s[1..], p) ==> Any(s, p) by {
        if Any(s[1..], p) {
          var i :| 0 <= i < |s[1..]| && p(s[1..][i]);
          assert s[i + 1] == s[1..][i];
        }
      }
      n
  }

  /** Three predicates that split every element into exactly one class split the count. */
  lemma {:induction false} CountPartition<T(!new)>(s: seq<T>, p: T -> bool, q: T -> bool, r: T -> bool)
    requires forall x :: (if p(x) then 1 else 0) + (if q(x) then 1 else 0) + (if r(x) then 1 else 0) == 1
    ensures Count(s, p) + Count(s, q) + Count(s, r) == |s|
  {
    if s != [] {
      CountPartition(s[1..], p, q, r);
    }
  }

  /** `s.map(f)`. */
  function MapSeq<T, U>(s: seq<T>, f: T -> U): (r: seq<U>)
    ensures |r| == |s|
    ensures forall i :: 0 <= i < |s| ==> r[i] == f(s[i])
  {
    if s == [] then [] else [f(s[0])] + MapSeq(s[1..], f)
  }

  lemma MapSeqAppend<T, U>(a: seq<T>, b: seq<T>, f: T -> U)
    ensures MapSeq(a + b, f) == MapSeq(a, f) + MapSeq(b, f)
  {
  }

  /** Filtering by a key the mapping keeps commutes with the mapping. */
  lemma {:induction false} FilterByMap<T(!new), U(!new), K>(s: seq<T>, f: T -> U, keyT: T -> K, keyU: U -> K, k: K)
    requires forall x :: keyU(f(x)) == keyT(x)
    ensures FilterBy(MapSeq(s, f), keyU, k) == MapSeq(FilterBy(s, keyT, k), f)
  {
    if s != [] {
      FilterByMap(s[1..], f, keyT, keyU, k);
      FilterByCons(s[0], s[1..], keyT, k);
      assert s == [s[0]] + s[1..];
      var m := MapSeq(s, f);
      FilterByCons(m[0], m[1..], keyU, k);
      assert m == [m[0]] + m[1..];
      if keyT(s[0]) == k {
        var t := FilterBy(s[1..], keyT, k);
        assert ([s[0]] + t)[1..] == t;
      }
    }
  }

  /** Taking the same element out of two permutations leaves two permutations. */
  lemma PermutationWithout<T>(a: seq<T>, b: seq<T>, j: int)
    requires multiset(a) == multiset(b)
    requires a != [] && 0 <= j < |b| && b[j] == a[0]
    ensures multiset(a[1..]) == multiset(b[..j] + b[j + 1..])
  {
    assert b == b[..j] + [b[j]] + b[j + 1..];
    assert a == [a[0]] + a[1..];
    assert multiset(a[1..]) == multiset(a) - multiset{a[0]};
  }

  /** The multiset of a sequence with one element in the middle. */
  lemma MultisetMiddle<T>(l: seq<T>, x: T, r: seq<T>)
    ensures multiset(l + [x] + r) == multiset{x} + multiset(l + r)
  {
  }

  /** Mapping a sequence of three. */
  lemma MapSeqThree<T, U>(x: T, y: T, z: T, f: T -> U)
    ensures MapSeq([x, y, z], f) == [f(x), f(y), f(z)]
  {
  }

  /** Concatenation is associative. */
  lemma AppendAssociative<T>(a: seq<T>, b: seq<T>, c: seq<T>)
    ensures a + (b + c) == (a + b) + c
  {
  }

  /** Appending to the empty sequence. */
  lemma AppendToEmpty<T>(s: seq<T>)
    ensures [] + s == s
  {
  }

  /** A sequence is its prefix, one element and its suffix. */
  lemma SplitAround<T>(b: seq<T>, j: int)
    requires 0 <= j < |b|
    ensures b == b[..j] + [b[j]] + b[j + 1..]
  {
  }

  /** Mapping a sequence around one of its elements. */
  lemma MapSeqAround<T, U>(left: seq<T>, x: T, right: seq<T>, f: T -> U)
    ensures MapSeq(left + [x] + right, f) == MapSeq(left, f) + [f(x)] + MapSeq(right, f)
  {
    MapSeqAppend(left + [x], right, f);
    MapSeqAppend(left, [x], f);
  }

  /** Mapping a sequence with one element cut out. */
  lemma MapSeqSplit<T, U>(b: seq<T>, j: int, f: T -> U)
    requires 0 <= j < |b|
    ensures multiset(MapSeq(b, f)) == multiset{f(b[j])} + multiset(MapSeq(b[..j] + b[j + 1..], f))
  {
    var left, x, right := b[..j], b[j], b[j + 1..];
    SplitAround(b, j);
    MapSeqAround(left, x, right, f);
    MapSeqAppend(left, right, f);
    MultisetMiddle(MapSeq(left, f), f(x), MapSeq(right, f));
  }

  /** Mapping two permutations of one list gives two permutations of one list. */
  lemma {:induction false} MapPreservesPermutation<T, U>(a: seq<T>, b: seq<T>, f: T -> U)
    requires multiset(a) == multiset(b)
    ensures multiset(MapSeq(a, f)) == multiset(MapSeq(b, f))
  {
    if a == [] {
      assert |b| == |multiset(b)| == 0;
    } else {
      assert a[0] in multiset(b) by {
        assert a[0] in multiset(a);
      }
      var j :| 0 <= j < |b| && b[j] == a[0];
      var rest := b[..j] + b[j + 1..];
      PermutationWithout(a, b, j);
      MapPreservesPermutation(a[1..], rest, f);
      MapSeqSplit(b, j, f);
      assert MapSeq(a, f) == [f(a[0])] + MapSeq(a[1..], f);
    }
  }

  /**
   * `s.groupBy(key)` as a map: every key of some element is present and holds exactly
   * the elements with that key, in their original order.
   */
  function GroupBy<T(!new), K(==,!new)>(s: seq<T>, key: T -> K): (m: map<K, seq<T>>)
    ensures forall k :: k in m <==> exists i :: 0 <= i < |s| && key(s[i]) == k
    ensures forall k :: k in m ==> m[k] == FilterBy(s, key, k)
  {
    if s == [] then map[]
    else
      var rest := GroupBy(s[1..], key);
      var k := key(s[0]);
      GroupByStep(s, key, rest);
      rest[k := [s[0]] + (if k in rest then rest[k] else [])]
  }

  /** The inductive step of `GroupBy`, in a lemma of its own. */
  lemma GroupByStep<T(!new), K(!new)>(s: seq<T>, key: T -> K, rest: map<K, seq<T>>)
    requires s != []
    requires forall k :: k in rest <==> exists i :: 0 <= i < |s[1..]| && key(s[1..][i]) == k
    requires forall k :: k in rest ==> rest[k] == FilterBy(s[1..], key, k)
    ensures var m := rest[key(s[0]) := [s[0]] + (if key(s[0]) in rest then rest[key(s[0])] else [])];
      && (forall k :: k in m <==> exists i :: 0 <= i < |s| && key(s[i]) == k)
      && (forall k :: k in m ==> m[k] == FilterBy(s, key, k))
  {
    GroupByStepKeys(s, key, rest.Keys);
    if key(s[0]) !in rest {
      FilterByNone(s[1..], key, key(s[0]));
    }
    GroupByStepValues(s, key, rest);
  }

  /** The keys after the inductive step of `GroupBy`. */
  lemma GroupByStepKeys<T(!new), K(!new)>(s: seq<T>, key: T -> K, keys: set<K>)
    requires s != []
    requires forall k :: k in keys <==> exists i :: 0 <= i < |s[1..]| && key(s[1..][i]) == k
    ensures forall k :: k in keys + {key(s[0])} <==> exists i :: 0 <= i < |s| && key(s[i]) == k
  {
    forall k
      ensures k in keys + {key(s[0])} <==> exists i :: 0 <= i < |s| && key(s[i]) == k
    {
      if exists i :: 0 <= i < |s| && key(s[i]) == k {
        var i :| 0 <= i < |s| && key(s[i]) == k;
        if i > 0 {
          assert key(s[1..][i - 1]) == k;
        }
      }
      if k in keys {
        var i :| 0 <= i < |s[1..]| && key(s[1..][i]) == k;
        assert key(s[i + 1]) == k;
      }
    }
  }

  /** The groups after the inductive step of `GroupBy`. */
  lemma GroupByStepValues<T(!new), K(!new)>(s: seq<T>, key: T -> K, rest: map<K, seq<T>>)
    requires s != []
    requires forall k :: k in rest ==> rest[k] == FilterBy(s[1..], key, k)
    requires key(s[0]) !in rest ==> FilterBy(s[1..], key, key(s[0])) == []
    ensures var m := rest[key(s[0]) := [s[0]] + (if key(s[0]) in rest then rest[key(s[0])] else [])];
      forall k :: k in m ==> m[k] == FilterBy(s, key, k)
  {
    var m := rest[key(s[0]) := [s[0]] + (if key(s[0]) in rest then rest[key(s[0])] else [])];
    forall k | k in m
      ensures m[k] == FilterBy(s, key, k)
    {
      FilterByHead(s, key, k);
    }
  }

  /** The keys of `s.groupBy(key)` in the order a `LinkedHashMap` keeps them: first occurrence. */
  function GroupKeys<T, K(==,!new)>(s: seq<T>, key: T -> K): (ks: seq<K>)
    ensures forall k :: k in ks <==> exists i :: 0 <= i < |s| && key(s[i]) == k
    ensures forall i, j :: 0 <= i < j < |ks| ==> ks[i] != ks[j]
  {
    if s == [] then []
    else
      var ks := GroupKeys(s[..|s| - 1], key);
      var k := key(s[|s| - 1]);
      assert forall i :: 0 <= i < |s| - 1 ==> s[..|s| - 1][i] == s[i];
      if k in ks then ks else ks + [k]
  }

  /** Some occurrence of the key `first` in `s` comes before every occurrence of `second`. */
  ghost predicate OccursBefore<T, K>(s: seq<T>, key: T -> K, first: K, second: K)
  {
    exists a :: 0 <= a < |s| && key(s[a]) == first && forall b :: 0 <= b < |s| && key(s[b]) == second ==> a < b
  }

  /**
   * The keys come in the order of their first occurrence: a key listed earlier occurs in
   * `s` before every occurrence of a key listed later.
   */
  lemma {:induction false} GroupKeysFirstOccurrence<T, K(!new)>(s: seq<T>, key: T -> K)
    ensures forall i, j :: 0 <= i < j < |GroupKeys(s, key)| ==>
      OccursBefore(s, key, GroupKeys(s, key)[i], GroupKeys(s, key)[j])
  {
    if s != [] {
      var prefix := s[..|s| - 1];
      var before := GroupKeys(prefix, key);
      var k := key(s[|s| - 1]);
      GroupKeysFirstOccurrence(prefix, key);
      var ks := GroupKeys(s, key);
      forall i, j | 0 <= i < j < |ks| ensures OccursBefore(s, key, ks[i], ks[j]) {
        assert ks[i] == before[i];
        if j < |before| {
          assert ks[j] == before[j];
          var a :| 0 <= a < |prefix| && key(prefix[a]) == before[i]
            && forall b :: 0 <= b < |prefix| && key(prefix[b]) == before[j] ==> a < b;
          assert s[a] == prefix[a];
          forall b | 0 <= b < |s| && key(s[b]) == ks[j] ensures a < b {
            if b < |prefix| {
              assert s[b] == prefix[b];
            }
          }
        } else {
          assert ks[j] == k && k !in before;
          assert before[i] in before;
          var a :| 0 <= a < |prefix| && key(prefix[a]) == before[i];
          assert s[a] == prefix[a];
          assert forall b :: 0 <= b < |s| && key(s[b]) == k ==> a < b;
        }
      }
    }
  }

  /** `s` is ordered by `key`, smallest first. */
  ghost predicate SortedByKey<T>(s: seq<T>, key: T -> int)
  {
    forall i, j :: 0 <= i < j < |s| ==> key(s[i]) <= key(s[j])
  }

  /** The tail of a sorted list is sorted. */
  lemma SortedTail<T>(s: seq<T>, key: T -> int)
    requires s != [] && SortedByKey(s, key)
    ensures SortedByKey(s[1..], key)
  {
    forall i, j | 0 <= i < j < |s[1..]| ensures key(s[1..][i]) <= key(s[1..][j]) {
      assert s[1..][i] == s[i + 1] && s[1..][j] == s[j + 1];
    }
  }

  /** Putting an element in front of a sorted list keeps it sorted when no element is smaller. */
  lemma PrependSorted<T>(y: T, t: seq<T>, key: T -> int)
    requires SortedByKey(t, key)
    requires forall i :: 0 <= i < |t| ==> key(y) <= key(t[i])
    ensures SortedByKey([y] + t, key)
  {
    var yt := [y] + t;
    forall i, j | 0 <= i < j < |yt| ensures key(yt[i]) <= key(yt[j]) {
      assert yt[j] == t[j - 1];
      if i > 0 {
        assert yt[i] == t[i - 1];
      }
    }
  }

  /** The elements of a permutation of `x` and a sorted tail all have keys not below the head's. */
  lemma TailBound<T>(x: T, s: seq<T>, t: seq<T>, key: T -> int)
    requires s != [] && SortedByKey(s, key) && key(s[0]) < key(x)
    requires multiset(t) == multiset(s[1..]) + multiset{x}
    ensures forall i :: 0 <= i < |t| ==> key(s[0]) <= key(t[i])
  {
    forall i | 0 <= i < |t| ensures key(s[0]) <= key(t[i]) {
      assert t[i] in multiset(t);
      if t[i] != x {
        assert t[i] in multiset(s[1..]);
        var j :| 0 <= j < |s[1..]| && s[1..][j] == t[i];
        assert s[j + 1] == t[i];
      }
    }
  }

  /** One step of a stable insertion sort: `x` goes before the first element whose key is not smaller. */
  function InsertByKey<T(!new)>(x: T, s: seq<T>, key: T -> int): (r: seq<T>)
    requires SortedByKey(s, key)
    ensures SortedByKey(r, key)
    ensures multiset(r) == multiset(s) + multiset{x}
  {
    if s == [] || key(x) <= key(s[0]) then
      PrependSorted(x, s, key);
      [x] + s
    else
      SortedTail(s, key);
      var t := InsertByKey(x, s[1..], key);
      TailBound(x, s, t, key);
      PrependSorted(s[0], t, key);
      assert s == [s[0]] + s[1..];
      [s[0]] + t
  }

  /** Two sequences of which one is empty can be swapped in front of a third. */
  lemma SwapEmpty<T>(a: seq<T>, b: seq<T>, c: seq<T>)
    requires a == [] || b == []
    ensures a + (b + c) == b + (a + c)
  {
    if a == [] {
      assert a + (b + c) == b + c == b + (a + c);
    } else {
      assert a + (b + c) == a + c == b + (a + c);
    }
  }

  /** Inserting `x` puts it ahead of every element that shares its key. */
  lemma {:induction false} InsertByKeyStable<T(!new)>(x: T, s: seq<T>, key: T -> int, k: int)
    requires SortedByKey(s, key)
    ensures FilterBy(InsertByKey(x, s, key), key, k) == (if key(x) == k then [x] else []) + FilterBy(s, key, k)
  {
    if s == [] || key(x) <= key(s[0]) {
      FilterByCons(x, s, key, k);
    } else {
      SortedTail(s, key);
      var t := InsertByKey(x, s[1..], key);
      var rest := FilterBy(s[1..], key, k);
      var xs: seq<T> := if key(x) == k then [x] else [];
      var hs: seq<T> := if key(s[0]) == k then [s[0]] else [];
      assert FilterBy(t, key, k) == xs + rest by {
        InsertByKeyStable(x, s[1..], key, k);
      }
      assert FilterBy(InsertByKey(x, s, key), key, k) == hs + FilterBy(t, key, k) by {
        assert InsertByKey(x, s, key) == [s[0]] + t;
        FilterByCons(s[0], t, key, k);
      }
      assert FilterBy(s, key, k) == hs + rest by {
        FilterByHead(s, key, k);
      }
      SwapEmpty(hs, xs, rest);
    }
  }

  /** `s.sortedBy(key)`: ordered by key and a permutation of `s`. */
  function SortByKey<T(!new)>(s: seq<T>, key: T -> int): (r: seq<T>)
    ensures SortedByKey(r, key)
    ensures multiset(r) == multiset(s)
  {
    if s == [] then []
    else
      assert s == [s[0]] + s[1..];
      InsertByKey(s[0], SortByKey(s[1..], key), key)
  }

  /** `sortedBy` is stable: the elements that share a key keep their relative order. */
  lemma {:induction false} SortByKeyStable<T(!new)>(s: seq<T>, key: T -> int, k: int)
    ensures FilterBy(SortByKey(s, key), key, k) == FilterBy(s, key, k)
  {
    if s != [] {
      SortByKeyStable(s[1..], key, k);
      InsertByKeyStable(s[0], SortByKey(s[1..], key), key, k);
      FilterByCons(s[0], s[1..], key, k);
      assert s == [s[0]] + s[1..];
    }
  }
}
