/**
 * The array combinators the source relies on: `find` (first element satisfying
 * a predicate), `filter`, `reduce` for sums and a stable descending sort
 * (JavaScript's `Array.prototype.sort` is stable).
 */
module Seqs {
  import opened Wrappers

  /** Index of the first element satisfying `p`, as `Array.prototype.findIndex`. */
  function First<T>(s: seq<T>, p: T -> bool): (r: Option<nat>)
    ensures r.Some? ==> r.value < |s| && p(s[r.value])
    ensures r.Some? ==> forall j :: 0 <= j < r.value ==> !p(s[j])
    ensures r.None? ==> forall j :: 0 <= j < |s| ==> !p(s[j])
  {
    if s == [] then None
    else if p(s[0]) then Some(0)
    else match First(s[1..], p)
      case None => None
      case Some(i) => Some(i + 1)
  }

  /** The elements satisfying `p`, in order. */
  function Filter<T>(s: seq<T>, p: T -> bool): (r: seq<T>)
    ensures |r| <= |s|
    ensures forall i :: 0 <= i < |r| ==> p(r[i]) && r[i] in s
    ensures forall i :: 0 <= i < |s| && p(s[i]) ==> s[i] in r
  {
    if s == [] then []
    else (if p(s[0]) then [s[0]] else []) + Filter(s[1..], p)
  }

  /** Filtering a sequence whose every element passes returns it unchanged. */
  lemma {:induction false} FilterAll<T>(s: seq<T>, p: T -> bool)
    requires forall i :: 0 <= i < |s| ==> p(s[i])
    ensures Filter(s, p) == s
  {
    if s != [] {
      assert forall i :: 0 <= i < |s[1..]| ==> s[1..][i] == s[i + 1];
      FilterAll(s[1..], p);
      assert s == [s[0]] + s[1..];
    }
  }

  lemma {:induction false} FilterAppend<T>(a: seq<T>, b: seq<T>, p: T -> bool)
    ensures Filter(a + b, p) == Filter(a, p) + Filter(b, p)
  {
    if a == [] {
      assert a + b == b;
    } else {
      assert (a + b)[1..] == a[1..] + b;
      FilterAppend(a[1..], b, p);
    }
  }

  lemma {:induction false} FilterMultiset<T>(s: seq<T>, p: T -> bool)
    ensures multiset(Filter(s, p)) <= multiset(s)
  {
    if s != [] {
      var rest := Filter(s[1..], p);
      FilterMultiset(s[1..], p);
      assert s == [s[0]] + s[1..];
      if p(s[0]) {
        assert Filter(s, p) == [s[0]] + rest;
        MultisetAddMono([s[0]], rest, [s[0]], s[1..]);
      } else {
        assert Filter(s, p) == [] + rest;
        MultisetAddMono([], rest, [s[0]], s[1..]);
      }
    }
  }

  lemma MultisetAddMono<T>(a: seq<T>, b: seq<T>, c: seq<T>, d: seq<T>)
    requires multiset(a) <= multiset(c) && multiset(b) <= multiset(d)
    ensures multiset(a + b) <= multiset(c + d)
  {
    assert multiset(a + b) == multiset(a) + multiset(b);
    assert multiset(c + d) == multiset(c) + multiset(d);
  }

  /** Sum of `f` over the elements, as `reduce((acc, x) => acc + f(x), 0)`. */
  function Sum<T>(s: seq<T>, f: T -> int): int {
    if s == [] then 0 else f(s[0]) + Sum(s[1..], f)
  }

  lemma {:induction false} SumAppend<T>(a: seq<T>, b: seq<T>, f: T -> int)
    ensures Sum(a + b, f) == Sum(a, f) + Sum(b, f)
  {
    if a == [] {
      assert a + b == b;
    } else {
      assert (a + b)[1..] == a[1..] + b;
      SumAppend(a[1..], b, f);
    }
  }

  lemma SumRemove<T>(b: seq<T>, k: nat, f: T -> int)
    requires k < |b|
    ensures Sum(b, f) == f(b[k]) + Sum(b[..k] + b[k + 1..], f)
  {
    assert b == b[..k] + ([b[k]] + b[k + 1..]);
    SumAppend(b[..k], [b[k]] + b[k + 1..], f);
    SumAppend(b[..k], b[k + 1..], f);
    assert ([b[k]] + b[k + 1..])[1..] == b[k + 1..];
  }

  lemma MultisetRemove<T>(b: seq<T>, k: nat)
    requires k < |b|
    ensures multiset(b[..k] + b[k + 1..]) == multiset(b) - multiset{b[k]}
  {
    assert b == b[..k] + [b[k]] + b[k + 1..];
  }

  /** Sums do not depend on the order of the elements. */
  lemma {:induction false} SumPermutation<T>(a: seq<T>, b: seq<T>, f: T -> int)
    requires multiset(a) == multiset(b)
    ensures Sum(a, f) == Sum(b, f)
    decreases |a|
  {
    if a != [] {
      assert a[0] in multiset(b);
      var k :| 0 <= k < |b| && b[k] == a[0];
      var rest := b[..k] + b[k + 1..];
      MultisetRemove(b, k);
      assert a == [a[0]] + a[1..];
      assert multiset(a[1..]) == multiset(a) - multiset{a[0]};
      assert multiset(a[1..]) == multiset(rest);
      SumPermutation(a[1..], rest, f);
      SumRemove(b, k, f);
    }
  }

  /** `1` for an element satisfying `p`, else `0`. */
  function Indicator<T>(p: T -> bool): T -> int {
    (x: T) => if p(x) then 1 else 0
  }

  /** `filter(p).length` counts the elements satisfying `p`. */
  lemma {:induction false} FilterCount<T>(s: seq<T>, p: T -> bool)
    ensures |Filter(s, p)| == Sum(s, Indicator(p))
  {
    if s != [] {
      FilterCount(s[1..], p);
    }
  }

  /** The count of elements satisfying `p` does not depend on their order. */
  lemma FilterCountPermutation<T>(a: seq<T>, b: seq<T>, p: T -> bool)
    requires multiset(a) == multiset(b)
    ensures |Filter(a, p)| == |Filter(b, p)|
  {
    FilterCount(a, p);
    FilterCount(b, p);
    SumPermutation(a, b, Indicator(p));
  }

  /** Non-increasing by `key`. */
  ghost predicate SortedDesc<T>(s: seq<T>, key: T -> int) {
    forall i, j :: 0 <= i < j < |s| ==> key(s[i]) >= key(s[j])
  }

  /** The elements whose key is `k`, in order. */
  function WithKey<T>(s: seq<T>, key: T -> int, k: int): seq<T> {
    if s == [] then [] else WithKey(s[..|s| - 1], key, k) + (if key(s[|s| - 1]) == k then [s[|s| - 1]] else [])
  }

  lemma {:induction false} WithKeyAppend<T>(a: seq<T>, b: seq<T>, key: T -> int, k: int)
    ensures WithKey(a + b, key, k) == WithKey(a, key, k) + WithKey(b, key, k)
    decreases |b|
  {
    if b == [] {
      assert a + b == a;
    } else {
      var b' := b[..|b| - 1];
      assert (a + b)[..|a + b| - 1] == a + b';
      WithKeyAppend(a, b', key, k);
    }
  }

  /** Inserts `x` into the descending `r` after every element whose key is at least `x`'s. */
  function Insert<T>(r: seq<T>, x: T, key: T -> int): (ins: seq<T>)
    ensures |ins| == |r| + 1
  {
    if r == [] then [x]
    else if key(r[|r| - 1]) >= key(x) then r + [x]
    else Insert(r[..|r| - 1], x, key) + [r[|r| - 1]]
  }

  /** Stable sort, descending by `key` (`sort((a, b) => key(b) - key(a))`). */
  function SortDesc<T>(s: seq<T>, key: T -> int): (sorted: seq<T>)
    ensures |sorted| == |s|
  {
    if s == [] then [] else Insert(SortDesc(s[..|s| - 1], key), s[|s| - 1], key)
  }

  lemma {:induction false} InsertMultiset<T>(r: seq<T>, x: T, key: T -> int)
    ensures multiset(Insert(r, x, key)) == multiset(r) + multiset{x}
    decreases |r|
  {
    if r != [] && key(r[|r| - 1]) < key(x) {
      var front, last := r[..|r| - 1], r[|r| - 1];
      InsertMultiset(front, x, key);
      assert Insert(r, x, key) == Insert(front, x, key) + [last];
      assert multiset(Insert(r, x, key)) == multiset(Insert(front, x, key)) + multiset{last};
      assert r == front + [last];
      assert multiset(r) == multiset(front) + multiset{last};
    } else if r != [] {
      assert Insert(r, x, key) == r + [x];
    }
  }

  lemma {:induction false} InsertSorted<T>(r: seq<T>, x: T, key: T -> int)
    requires SortedDesc(r, key)
    ensures SortedDesc(Insert(r, x, key), key)
    decreases |r|
  {
    if r != [] && key(r[|r| - 1]) < key(x) {
      var front, last := r[..|r| - 1], r[|r| - 1];
      InsertSorted(front, x, key);
      InsertMultiset(front, x, key);
      var ins := Insert(front, x, key);
      forall i, j | 0 <= i < j < |ins| + 1
        ensures key((ins + [last])[i]) >= key((ins + [last])[j])
      {
        if j == |ins| {
          var y := ins[i];
          assert y in multiset(ins);
          assert y == x || y in front;
        }
      }
    }
  }

  lemma {:induction false} InsertStable<T>(r: seq<T>, x: T, key: T -> int, k: int)
    ensures WithKey(Insert(r, x, key), key, k) == WithKey(r, key, k) + WithKey([x], key, k)
    decreases |r|
  {
    if r == [] {
      assert WithKey([x], key, k) == WithKey([], key, k) + (if key(x) == k then [x] else []);
    } else if key(r[|r| - 1]) >= key(x) {
      WithKeyAppend(r, [x], key, k);
    } else {
      var front, last := r[..|r| - 1], r[|r| - 1];
      InsertStable(front, x, key, k);
      var ins := Insert(front, x, key);
      assert (ins + [last])[..|ins + [last]| - 1] == ins;
      assert WithKey([x], key, k) == WithKey([], key, k) + (if key(x) == k then [x] else []);
    }
  }

  /** The sort yields a descending permutation of its input. */
  lemma SortDescFacts<T>(s: seq<T>, key: T -> int)
    ensures SortedDesc(SortDesc(s, key), key)
    ensures multiset(SortDesc(s, key)) == multiset(s)
    ensures |SortDesc(s, key)| == |s|
  {
    SortDescSorted(s, key);
    SortDescPermutes(s, key);
  }

  lemma {:induction false} SortDescSorted<T>(s: seq<T>, key: T -> int)
    ensures SortedDesc(SortDesc(s, key), key)
  {
    if s != [] {
      var front, x := s[..|s| - 1], s[|s| - 1];
      var sorted := SortDesc(front, key);
      assert SortDesc(s, key) == Insert(sorted, x, key);
      SortDescSorted(front, key);
      InsertSorted(sorted, x, key);
    }
  }

  lemma {:induction false} SortDescPermutes<T>(s: seq<T>, key: T -> int)
    ensures multiset(SortDesc(s, key)) == multiset(s)
  {
    if s != [] {
      var front, x := s[..|s| - 1], s[|s| - 1];
      var sorted := SortDesc(front, key);
      assert SortDesc(s, key) == Insert(sorted, x, key);
      SortDescPermutes(front, key);
      InsertMultiset(sorted, x, key);
      assert s == front + [x];
      assert multiset(s) == multiset(front) + multiset{x};
    }
  }

  /**
   * Stability: the elements sharing one key appear in the sorted sequence in
   * exactly the order they had in the input.
   */
  lemma {:induction false} SortDescStable<T>(s: seq<T>, key: T -> int, k: int)
    ensures WithKey(SortDesc(s, key), key, k) == WithKey(s, key, k)
  {
    if s != [] {
      var front := s[..|s| - 1];
      SortDescStable(front, key, k);
      InsertStable(SortDesc(front, key), s[|s| - 1], key, k);
      assert WithKey([s[|s| - 1]], key, k) == WithKey([], key, k) + (if key(s[|s| - 1]) == k then [s[|s| - 1]] else []);
    }
  }

  /** With every key equal the sort changes nothing, as a comparator that always returns 0. */
  lemma {:induction false} SortDescConstant<T>(s: seq<T>, key: T -> int, k: int)
    requires forall i :: 0 <= i < |s| ==> key(s[i]) == k
    ensures SortDesc(s, key) == s
  {
    if s != [] {
      var front := s[..|s| - 1];
      SortDescConstant(front, key, k);
      if front == [] {
        assert s == [s[0]];
      } else {
        assert key(front[|front| - 1]) == k;
        assert s == front + [s[|s| - 1]];
      }
    }
  }
}
