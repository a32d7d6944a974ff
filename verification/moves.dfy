/**
 * The "drag move" both reorder operations build from two calls of
 * JavaScript's `Array.prototype.splice`: `splice(from, 1)` removes one
 * element, `splice(to, 0, x)` reinserts it.
 */
module Moves {

  /**
   * The position `splice` starts at for an index argument `k` on an array of
   * length `len`: negative indices count from the end (and stop at 0), indices
   * past the end stop at `len` (ECMA-262, Array.prototype.splice, step 4).
   */
  function SpliceStart(len: nat, k: int): (r: nat)
    ensures r <= len
    ensures 0 <= k <= len ==> r == k
    ensures k > len ==> r == len
    ensures k < 0 ==> r == if len + k < 0 then 0 else len + k
  {
    if k < 0 then (if len + k < 0 then 0 else len + k)
    else if k > len then len
    else k
  }

  /** The sequence without its element at `i`. */
  function RemoveAt<T>(s: seq<T>, i: nat): (r: seq<T>)
    requires i < |s|
    ensures |r| == |s| - 1
    ensures forall j :: 0 <= j < i ==> r[j] == s[j]
    ensures forall j :: i <= j < |r| ==> r[j] == s[j + 1]
  {
    s[..i] + s[i + 1..]
  }

  /** `x` inserted so that it lands at index `j`. */
  function InsertAt<T>(s: seq<T>, j: nat, x: T): (r: seq<T>)
    requires j <= |s|
    ensures |r| == |s| + 1
    ensures r[j] == x
    ensures forall k :: 0 <= k < j ==> r[k] == s[k]
    ensures forall k :: j < k < |r| ==> r[k] == s[k - 1]
  {
    s[..j] + [x] + s[j..]
  }

  /** `splice(from, 1)` finds an element to remove. */
  predicate CanMove<T>(s: seq<T>, from: int) {
    SpliceStart(|s|, from) < |s|
  }

  /**
   * `const [x] = a.splice(from, 1); a.splice(to, 0, x);` on a copy of `s`.
   */
  function Move<T>(s: seq<T>, from: int, to: int): (r: seq<T>)
    requires CanMove(s, from)
    ensures |r| == |s|
  {
    var i := SpliceStart(|s|, from);
    var rest := RemoveAt(s, i);
    InsertAt(rest, SpliceStart(|rest|, to), s[i])
  }

  /** Where the moved element ends up. */
  function Landing(len: nat, to: int): nat
    requires len > 0
  {
    SpliceStart(len - 1, to)
  }

  /**
   * The complete description of a move, independent of `splice`: the length is
   * kept, the element at the source lands at its target, and removing it from
   * both sides leaves the same sequence.
   */
  lemma MoveSpec<T>(s: seq<T>, from: int, to: int)
    requires CanMove(s, from)
    ensures |Move(s, from, to)| == |s|
    ensures Landing(|s|, to) < |s|
    ensures Move(s, from, to)[Landing(|s|, to)] == s[SpliceStart(|s|, from)]
    ensures RemoveAt(Move(s, from, to), Landing(|s|, to)) == RemoveAt(s, SpliceStart(|s|, from))
    ensures 0 <= to < |s| ==> Landing(|s|, to) == to
    ensures to >= |s| ==> Landing(|s|, to) == |s| - 1
  {
    var i := SpliceStart(|s|, from);
    var rest := RemoveAt(s, i);
    var j := SpliceStart(|rest|, to);
    var r := Move(s, from, to);
    assert RemoveAt(r, j) == rest;
  }

  /** A move is a permutation. */
  lemma MovePermutes<T>(s: seq<T>, from: int, to: int)
    requires CanMove(s, from)
    ensures multiset(Move(s, from, to)) == multiset(s)
  {
    var i := SpliceStart(|s|, from);
    var rest := RemoveAt(s, i);
    var j := SpliceStart(|rest|, to);
    assert s == s[..i] + [s[i]] + s[i + 1..];
    assert rest[..j] + rest[j..] == rest;
    calc {
      multiset(Move(s, from, to));
      multiset(rest[..j]) + multiset([s[i]]) + multiset(rest[j..]);
      multiset(rest[..j] + rest[j..]) + multiset([s[i]]);
      multiset(s[..i]) + multiset(s[i + 1..]) + multiset([s[i]]);
      multiset(s);
    }
  }

  /** A move keeps every element and adds none: a set-level corollary used by the reorders. */
  lemma MoveSameElements<T>(s: seq<T>, from: int, to: int)
    requires CanMove(s, from)
    ensures forall x :: x in Move(s, from, to) <==> x in s
  {
    MovePermutes(s, from, to);
    forall x
      ensures x in Move(s, from, to) <==> x in s
    {
      assert x in Move(s, from, to) <==> x in multiset(Move(s, from, to));
      assert x in s <==> x in multiset(s);
    }
  }

  /** Moving an element onto its own index changes nothing. */
  lemma MoveToSelf<T>(s: seq<T>, i: int)
    requires 0 <= i < |s|
    ensures Move(s, i, i) == s
  {
    var rest := RemoveAt(s, i);
    assert SpliceStart(|rest|, i) == i;
  }

  /**
   * Two successive drag moves of the same element, the second starting where the
   * first left it, equal one move from the first source to the last target.
   */
  lemma {:induction false} MoveCompose<T>(s: seq<T>, a: int, b: int, c: int)
    requires CanMove(s, a)
    requires 0 <= b < |s|
    ensures CanMove(Move(s, a, b), b)
    ensures Move(Move(s, a, b), b, c) == Move(s, a, c)
  {
    var i := SpliceStart(|s|, a);
    var rest := RemoveAt(s, i);
    var m := Move(s, a, b);
    assert SpliceStart(|rest|, b) == b;
    assert SpliceStart(|m|, b) == b;
    assert m[b] == s[i];
    assert RemoveAt(m, b) == rest;
  }

  /** Moving from `i` to `j` and back from `j` to `i` restores the sequence. */
  lemma MoveInverse<T>(s: seq<T>, i: int, j: int)
    requires 0 <= i < |s| && 0 <= j < |s|
    ensures CanMove(Move(s, i, j), j)
    ensures Move(Move(s, i, j), j, i) == s
  {
    MoveCompose(s, i, j, i);
    MoveToSelf(s, i);
  }

  /** A move of a sequence without repetitions leaves none. */
  lemma MoveKeepsDistinct<T>(s: seq<T>, from: int, to: int)
    requires CanMove(s, from)
    requires forall p, q :: 0 <= p < q < |s| ==> s[p] != s[q]
    ensures forall p, q :: 0 <= p < q < |Move(s, from, to)| ==> Move(s, from, to)[p] != Move(s, from, to)[q]
  {
    var i := SpliceStart(|s|, from);
    var rest := RemoveAt(s, i);
    assert forall k :: 0 <= k < |rest| ==> rest[k] == s[if k < i then k else k + 1];
    assert forall p, q :: 0 <= p < q < |rest| ==> rest[p] != rest[q];
    assert forall k :: 0 <= k < |rest| ==> rest[k] != s[i];
  }
}
