/**
 * The array methods the application builds its state with: `filter`,
 * `find`/`findIndex`, `map` with an id test, a stable `sort` by a numeric
 * key, and `reduce` to a sum.
 */
module Seqs {
  import opened Wrappers

  /** `s.filter(p)`: the elements satisfying `p`, in their order. */
  function Filter<T(!new)>(s: seq<T>, p: T -> bool): (r: seq<T>)
    ensures |r| <= |s|
    ensures forall x :: x in r <==> x in s && p(x)
    decreases |s|
  {
    if s == [] then [] else (if p(s[0]) then [s[0]] else []) + Filter(s[1..], p)
  }

  /** Filtering distributes over concatenation, so the kept elements stay in their relative order. */
  lemma {:induction false} FilterConcat<T(!new)>(a: seq<T>, b: seq<T>, p: T -> bool)
    ensures Filter(a + b, p) == Filter(a, p) + Filter(b, p)
  {
    if a != [] {
      assert (a + b)[0] == a[0] && (a + b)[1..] == a[1..] + b;
      FilterConcat(a[1..], b, p);
    } else {
      assert a + b == b;
    }
  }

  /** Each element satisfying `p` is kept as often as it occurs; every other one is dropped. */
  lemma {:induction false} FilterMultiset<T(!new)>(s: seq<T>, p: T -> bool)
    ensures forall x :: multiset(Filter(s, p))[x] == if p(x) then multiset(s)[x] else 0
  {
    if s != [] {
      FilterMultiset(s[1..], p);
      assert s == [s[0]] + s[1..];
    }
  }

  /** A filter and the filter on the opposite test split the sequence between them. */
  lemma {:induction false} FilterPartition<T(!new)>(s: seq<T>, p: T -> bool, q: T -> bool)
    requires forall x :: q(x) == !p(x)
    ensures |Filter(s, p)| + |Filter(s, q)| == |s|
  {
    if s != [] {
      FilterPartition(s[1..], p, q);
    }
  }

  /** A test every element passes keeps the whole sequence. */
  lemma {:induction false} FilterAll<T(!new)>(s: seq<T>, p: T -> bool)
    requires forall i :: 0 <= i < |s| ==> p(s[i])
    ensures Filter(s, p) == s
  {
    if s != [] {
      FilterAll(s[1..], p);
    }
  }

  /** A test that implies another keeps no more elements than it. */
  lemma {:induction false} FilterSubset<T(!new)>(s: seq<T>, p: T -> bool, q: T -> bool)
    requires forall x :: p(x) ==> q(x)
    ensures |Filter(s, p)| <= |Filter(s, q)|
  {
    if s != [] {
      FilterSubset(s[1..], p, q);
    }
  }

  /** `s.findIndex(p)`, with |s| standing for "not found". */
  function FirstIndex<T>(s: seq<T>, p: T -> bool): (k: nat)
    ensures k <= |s|
    ensures forall i :: 0 <= i < k ==> !p(s[i])
    ensures k < |s| ==> p(s[k])
    decreases |s|
  {
    if s == [] then 0 else if p(s[0]) then 0 else 1 + FirstIndex(s[1..], p)
  }

  /** `s.find(p)`: the first element satisfying `p`, or None (`undefined`). */
  function FindFirst<T>(s: seq<T>, p: T -> bool): (r: Option<T>)
    ensures r.None? <==> forall i :: 0 <= i < |s| ==> !p(s[i])
    ensures r.Some? ==> r.value in s && p(r.value)
    ensures r.Some? ==> exists k :: 0 <= k < |s| && s[k] == r.value && forall i :: 0 <= i < k ==> !p(s[i])
  {
    var k := FirstIndex(s, p);
    if k < |s| then Some(s[k]) else None
  }

  /** `s.map(e => key(e) === k ? x : e)`: every element with key `k` becomes `x`. */
  function ReplaceKey<T, K(==)>(s: seq<T>, key: T -> K, k: K, x: T): (r: seq<T>)
    ensures |r| == |s|
    ensures forall i :: 0 <= i < |s| ==> r[i] == if key(s[i]) == k then x else s[i]
    decreases |s|
  {
    if s == [] then [] else [if key(s[0]) == k then x else s[0]] + ReplaceKey(s[1..], key, k, x)
  }

  /** With no element keyed `k`, replacing changes nothing. */
  lemma ReplaceAbsentKey<T, K>(s: seq<T>, key: T -> K, k: K, x: T)
    requires forall i :: 0 <= i < |s| ==> key(s[i]) != k
    ensures ReplaceKey(s, key, k, x) == s
  {
  }

  /** `s.filter(e => key(e) !== k)`: every element with key `k` removed, the rest kept in order. */
  function RemoveKey<T(!new), K(==)>(s: seq<T>, key: T -> K, k: K): (r: seq<T>)
    ensures forall x :: x in r <==> x in s && key(x) != k
    ensures forall x :: multiset(r)[x] == if key(x) != k then multiset(s)[x] else 0
    ensures forall x :: x in r ==> key(x) != k
  {
    FilterMultiset(s, e => key(e) != k);
    Filter(s, e => key(e) != k)
  }

  /** Removing a key from a concatenation removes it from each part. */
  lemma RemoveKeyConcat<T(!new), K>(a: seq<T>, b: seq<T>, key: T -> K, k: K)
    ensures RemoveKey(a + b, key, k) == RemoveKey(a, key, k) + RemoveKey(b, key, k)
  {
    FilterConcat(a, b, e => key(e) != k);
  }

  /** With no element keyed `k`, removing changes nothing. */
  lemma RemoveAbsentKey<T(!new), K>(s: seq<T>, key: T -> K, k: K)
    requires forall i :: 0 <= i < |s| ==> key(s[i]) != k
    ensures RemoveKey(s, key, k) == s
  {
    FilterAll(s, e => key(e) != k);
  }

  /** Deleting the key of an element just appended under a fresh key gives back the sequence before the append. */
  lemma RemoveAppended<T(!new), K>(s: seq<T>, key: T -> K, x: T)
    requires forall i :: 0 <= i < |s| ==> key(s[i]) != key(x)
    ensures RemoveKey(s + [x], key, key(x)) == s
  {
    RemoveKeyConcat(s, [x], key, key(x));
    RemoveAbsentKey(s, key, key(x));
    assert Filter([x], e => key(e) != key(x)) == [];
  }

  /** Non-decreasing in `key`. */
  ghost predicate SortedBy<T>(s: seq<T>, key: T -> int) {
    forall i, j :: 0 <= i < j < |s| ==> key(s[i]) <= key(s[j])
  }

  /** `x` placed in front of the first element whose key is not below its own. */
  function Insert<T>(x: T, s: seq<T>, key: T -> int): (r: seq<T>)
    ensures multiset(r) == multiset(s) + multiset{x}
    ensures |r| == |s| + 1 && (r[0] == x || (s != [] && r[0] == s[0]))
    decreases |s|
  {
    if s == [] then [x]
    else if key(x) <= key(s[0]) then [x] + s
    else
      assert s == [s[0]] + s[1..];
      [s[0]] + Insert(x, s[1..], key)
  }

  /** A sorted sequence stays sorted with a head no later than its first element. */
  lemma SortedCons<T>(h: T, t: seq<T>, key: T -> int)
    requires SortedBy(t, key)
    requires t != [] ==> key(h) <= key(t[0])
    ensures SortedBy([h] + t, key)
  {
    var r := [h] + t;
    forall i, j | 0 <= i < j < |r| ensures key(r[i]) <= key(r[j]) {
      assert r[j] == t[j - 1];
      if i > 0 {
        assert r[i] == t[i - 1];
      } else {
        assert key(t[0]) <= key(t[j - 1]);
      }
    }
  }

  /** Inserting into a sorted sequence keeps it sorted. */
  lemma {:induction false} InsertSorted<T>(x: T, s: seq<T>, key: T -> int)
    requires SortedBy(s, key)
    ensures SortedBy(Insert(x, s, key), key)
    decreases |s|
  {
    if s == [] {
      SortedCons(x, s, key);
    } else if key(x) <= key(s[0]) {
      SortedCons(x, s, key);
    } else {
      assert SortedBy(s[1..], key);
      InsertSorted(x, s[1..], key);
      var rest := Insert(x, s[1..], key);
      assert key(s[0]) <= key(rest[0]);
      SortedCons(s[0], rest, key);
    }
  }

  /** `[...s].sort((a, b) => key(a) - key(b))`: a stable insertion sort, non-decreasing in `key`. */
  function SortByKey<T>(s: seq<T>, key: T -> int): (r: seq<T>)
    ensures SortedBy(r, key)
    ensures multiset(r) == multiset(s)
    ensures |r| == |s|
    decreases |s|
  {
    if s == [] then []
    else
      assert s == [s[0]] + s[1..];
      var sorted := SortByKey(s[1..], key);
      InsertSorted(s[0], sorted, key);
      Insert(s[0], sorted, key)
  }

  /** `s.reduce((total, e) => total + f(e), 0)`. */
  function Sum<T>(s: seq<T>, f: T -> int): int
    decreases |s|
  {
    if s == [] then 0 else f(s[0]) + Sum(s[1..], f)
  }

  /** A sum over a concatenation adds the two sums. */
  lemma {:induction false} SumConcat<T>(a: seq<T>, b: seq<T>, f: T -> int)
    ensures Sum(a + b, f) == Sum(a, f) + Sum(b, f)
  {
    if a != [] {
      assert (a + b)[0] == a[0] && (a + b)[1..] == a[1..] + b;
      SumConcat(a[1..], b, f);
    } else {
      assert a + b == b;
    }
  }

  /** A sum of values none of which is negative is not negative. */
  lemma {:induction false} SumNonNegative<T>(s: seq<T>, f: T -> int)
    requires forall i :: 0 <= i < |s| ==> f(s[i]) >= 0
    ensures Sum(s, f) >= 0
    decreases |s|
  {
    if s != [] {
      SumNonNegative(s[1..], f);
    }
  }

  /** Summing a difference is subtracting the two sums. */
  lemma {:induction false} SumDifference<T>(s: seq<T>, f: T -> int, g: T -> int, h: T -> int)
    requires forall x :: h(x) == f(x) - g(x)
    ensures Sum(s, h) == Sum(s, f) - Sum(s, g)
    decreases |s|
  {
    if s != [] {
      SumDifference(s[1..], f, g, h);
    }
  }
}
