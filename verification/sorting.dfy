/**
 * Stable sorting by an integer key, the behaviour `Array.prototype.sort`
 * guarantees with a comparator `(a, b) => key(a) - key(b)` since ECMA-262
 * 10th edition (section 22.1.3.27: the sort must be stable).
 */
module Sorting {

  /** Keys never decrease along the sequence. */
  ghost predicate SortedBy<T>(s: seq<T>, key: T -> int) {
    forall i, j :: 0 <= i < j < |s| ==> key(s[i]) <= key(s[j])
  }

  /** The subsequence of elements whose key is `k`, in their original order. */
  function WithKey<T>(s: seq<T>, key: T -> int, k: int): (r: seq<T>)
    ensures |r| <= |s|
  {
    if |s| == 0 then []
    else if key(s[0]) == k then [s[0]] + WithKey(s[1..], key, k)
    else WithKey(s[1..], key, k)
  }

  /**
   * `r` is a stable rearrangement of `s`: for every key, the elements with that
   * key appear in `r` exactly as, and in the same order as, in `s`.
   */
  ghost predicate StableFor<T>(s: seq<T>, r: seq<T>, key: T -> int) {
    forall k :: WithKey(r, key, k) == WithKey(s, key, k)
  }

  /** Inserts `x` in front of the first element whose key is not smaller. */
  function InsertBy<T>(x: T, s: seq<T>, key: T -> int): (r: seq<T>)
    ensures |r| == |s| + 1
    ensures multiset(r) == multiset(s) + multiset{x}
  {
    if |s| == 0 || key(x) <= key(s[0]) then [x] + s
    else
      assert s == [s[0]] + s[1..];
      [s[0]] + InsertBy(x, s[1..], key)
  }

  /** Stable sort by ascending key (insertion sort from the back). */
  function SortBy<T>(s: seq<T>, key: T -> int): (r: seq<T>)
    ensures |r| == |s|
    ensures multiset(r) == multiset(s)
    ensures SortedBy(r, key)
    ensures StableFor(s, r, key)
  {
    if |s| == 0 then []
    else
      var tail := SortBy(s[1..], key);
      InsertSorted(s[0], tail, key);
      InsertStable(s[0], tail, key);
      assert s == [s[0]] + s[1..];
      InsertBy(s[0], tail, key)
  }

  lemma {:induction false} InsertSorted<T>(x: T, s: seq<T>, key: T -> int)
    requires SortedBy(s, key)
    ensures SortedBy(InsertBy(x, s, key), key)
  {
    if |s| == 0 || key(x) <= key(s[0]) {
      ConsSorted(x, s, key);
    } else {
      InsertSorted(x, s[1..], key);
      var r := InsertBy(x, s[1..], key);
      forall j | 0 <= j < |r|
        ensures key(s[0]) <= key(r[j])
      {
        assert r[j] in multiset(r);
        if r[j] != x {
          assert r[j] in multiset(s[1..]);
          var k :| 0 <= k < |s[1..]| && s[1..][k] == r[j];
          assert s[k + 1] == r[j];
        }
      }
      ConsSorted(s[0], r, key);
    }
  }

  /** A head no greater than any element of a sorted tail keeps the sequence sorted. */
  lemma ConsSorted<T>(h: T, r: seq<T>, key: T -> int)
    requires SortedBy(r, key)
    requires forall j :: 0 <= j < |r| ==> key(h) <= key(r[j])
    ensures SortedBy([h] + r, key)
  {
    var c := [h] + r;
    forall i, j | 0 <= i < j < |c|
      ensures key(c[i]) <= key(c[j])
    {
      assert c[j] == r[j - 1];
      if i > 0 {
        assert c[i] == r[i - 1];
      }
    }
  }

  lemma {:induction false} InsertStable<T>(x: T, s: seq<T>, key: T -> int)
    requires SortedBy(s, key)
    ensures forall k :: WithKey(InsertBy(x, s, key), key, k) == WithKey([x] + s, key, k)
  {
    if |s| > 0 && key(x) > key(s[0]) {
      InsertStable(x, s[1..], key);
      forall k
        ensures WithKey(InsertBy(x, s, key), key, k) == WithKey([x] + s, key, k)
      {
        assert InsertBy(x, s, key) == [s[0]] + InsertBy(x, s[1..], key);
        assert ([s[0]] + InsertBy(x, s[1..], key))[1..] == InsertBy(x, s[1..], key);
        assert ([x] + s)[1..] == s;
        assert ([x] + s[1..])[1..] == s[1..];
        if key(s[0]) == k {
          assert k != key(x);
        }
      }
    } else {
      forall k
        ensures WithKey(InsertBy(x, s, key), key, k) == WithKey([x] + s, key, k)
      {
      }
    }
  }

  lemma {:induction false} WithKeyAppend<T>(a: seq<T>, b: seq<T>, key: T -> int, k: int)
    ensures WithKey(a + b, key, k) == WithKey(a, key, k) + WithKey(b, key, k)
  {
    if |a| > 0 {
      assert (a + b)[1..] == a[1..] + b;
      WithKeyAppend(a[1..], b, key, k);
    } else {
      assert a + b == b;
    }
  }

  /**
   * The sorted, stable rearrangement is unique: any sequence that is sorted and
   * stable with respect to `s` is `SortBy(s)`.
   */
  lemma SortUnique<T>(s: seq<T>, r: seq<T>, key: T -> int)
    requires SortedBy(r, key)
    requires StableFor(s, r, key)
    ensures r == SortBy(s, key)
  {
    var q := SortBy(s, key);
    SortedStableEqual(r, q, key);
  }

  lemma {:induction false} SortedStableEqual<T>(r: seq<T>, q: seq<T>, key: T -> int)
    requires SortedBy(r, key) && SortedBy(q, key)
    requires forall k :: WithKey(r, key, k) == WithKey(q, key, k)
    ensures r == q
    decreases |r| + |q|
  {
    if |r| > 0 {
      FirstWithOwnKey(r, key);
      assert WithKey(q, key, key(r[0])) != [];
    }
    if |q| > 0 {
      FirstWithOwnKey(q, key);
      assert WithKey(r, key, key(q[0])) != [];
    }
    if |r| > 0 && |q| > 0 {
      var a := key(r[0]);
      var b := key(q[0]);
      FirstWithOwnKey(r, key);
      FirstWithOwnKey(q, key);
      WithKeyAllAtLeast(q, key, a);
      WithKeyAllAtLeast(r, key, b);
      assert a == b;
      assert WithKey(r, key, a) == WithKey(q, key, a);
      assert WithKey(r, key, a)[0] == r[0];
      assert WithKey(q, key, a)[0] == q[0];
      forall k
        ensures WithKey(r[1..], key, k) == WithKey(q[1..], key, k)
      {
        assert WithKey(r, key, k) == WithKey(q, key, k);
        if k == a {
          assert WithKey(r, key, k) == [r[0]] + WithKey(r[1..], key, k);
          assert WithKey(q, key, k) == [q[0]] + WithKey(q[1..], key, k);
          assert WithKey(r[1..], key, k) == WithKey(r, key, k)[1..];
          assert WithKey(q[1..], key, k) == WithKey(q, key, k)[1..];
        }
      }
      SortedTail(r, key);
      SortedTail(q, key);
      SortedStableEqual(r[1..], q[1..], key);
      assert r == [r[0]] + r[1..];
      assert q == [q[0]] + q[1..];
    }
  }

  lemma FirstWithOwnKey<T>(s: seq<T>, key: T -> int)
    requires |s| > 0
    ensures WithKey(s, key, key(s[0])) == [s[0]] + WithKey(s[1..], key, key(s[0]))
  {
  }

  lemma SortedTail<T>(s: seq<T>, key: T -> int)
    requires |s| > 0 && SortedBy(s, key)
    ensures SortedBy(s[1..], key)
  {
  }

  /** In a sorted sequence whose first key is `m`, no element has a key below `m`. */
  lemma {:induction false} WithKeyAllAtLeast<T>(s: seq<T>, key: T -> int, k: int)
    requires |s| > 0 && SortedBy(s, key)
    requires WithKey(s, key, k) != []
    ensures key(s[0]) <= k
    decreases |s|
  {
    if key(s[0]) != k {
      assert |s| > 1;
      SortedTail(s, key);
      WithKeyAllAtLeast(s[1..], key, k);
    }
  }

  /** Sorting a sequence that is already sorted leaves it as it is. */
  lemma SortSortedIsIdentity<T>(s: seq<T>, key: T -> int)
    requires SortedBy(s, key)
    ensures SortBy(s, key) == s
  {
    SortUnique(s, s, key);
  }

  /** Sorting is idempotent. */
  lemma SortIdempotent<T>(s: seq<T>, key: T -> int)
    ensures SortBy(SortBy(s, key), key) == SortBy(s, key)
  {
    SortSortedIsIdentity(SortBy(s, key), key);
  }
}
