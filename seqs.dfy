/**
 * Sequence helpers shared by the model: duplicate-freedom, removing one
 * element, and Swift's `Array.firstIndex(of:)`.
 */
module Seqs {
  import opened Wrappers

  /** No element occurs twice. */
  ghost predicate Distinct<T>(s: seq<T>)
  {
    forall i, j :: 0 <= i < j < |s| ==> s[i] != s[j]
  }

  /** `s` without its first occurrence of `x` (unchanged when `x` is absent). */
  function RemoveFirst<T(==)>(s: seq<T>, x: T): (r: seq<T>)
    ensures multiset(r) == multiset(s) - multiset{x}
    ensures forall y :: y in r ==> y in s
    ensures forall y :: y in s && y != x ==> y in r
    ensures x !in s ==> r == s
  {
    if s == [] then []
    else if s[0] == x then
      assert s == [s[0]] + s[1..];
      s[1..]
    else
      assert s == [s[0]] + s[1..];
      [s[0]] + RemoveFirst(s[1..], x)
  }

  /** `RemoveFirst` on a sequence given as its first element and the rest. */
  lemma RemoveFirstCons<T>(a: T, t: seq<T>, x: T)
    ensures RemoveFirst([a] + t, x) == if a == x then t else [a] + RemoveFirst(t, x)
  {
    assert ([a] + t)[0] == a && ([a] + t)[1..] == t;
  }

  /** Removing an element keeps a sequence duplicate-free and shortens it by one. */
  lemma {:induction false} RemoveFirstDistinct<T>(s: seq<T>, x: T)
    requires Distinct(s) && x in s
    ensures Distinct(RemoveFirst(s, x)) && x !in RemoveFirst(s, x)
    ensures |RemoveFirst(s, x)| == |s| - 1
  {
    DistinctTail(s);
    if s[0] != x {
      RemoveFirstDistinct(s[1..], x);
      var t := RemoveFirst(s[1..], x);
      assert s[0] !in t;
      DistinctCons(s[0], t);
    }
  }

  /** `s` without the element at index `i` (what a table does on `deleteRows`). */
  function RemoveAt<T>(s: seq<T>, i: nat): (r: seq<T>)
    requires i < |s|
    ensures |r| == |s| - 1
  {
    s[..i] + s[i + 1..]
  }

  /** In a duplicate-free sequence, removing by position and removing by value agree. */
  lemma {:induction false} RemoveAtIsRemoveFirst<T>(s: seq<T>, i: nat)
    requires i < |s| && Distinct(s)
    ensures RemoveAt(s, i) == RemoveFirst(s, s[i])
  {
    if i == 0 {
      assert RemoveAt(s, 0) == s[1..];
    } else {
      DistinctTail(s);
      RemoveAtIsRemoveFirst(s[1..], i - 1);
      RemoveAtTail(s, i);
      assert s[0] != s[i];
    }
  }

  /** Dropping the head keeps a sequence duplicate-free. */
  lemma DistinctTail<T>(s: seq<T>)
    requires Distinct(s) && |s| > 0
    ensures Distinct(s[1..])
  {
    var t := s[1..];
    forall a, b | 0 <= a < b < |t| ensures t[a] != t[b] {
      assert t[a] == s[a + 1] && t[b] == s[b + 1];
    }
  }

  /** Putting a new element in front keeps a sequence duplicate-free. */
  lemma DistinctCons<T>(a: T, t: seq<T>)
    requires Distinct(t) && a !in t
    ensures Distinct([a] + t)
  {
    var s := [a] + t;
    forall i, j | 0 <= i < j < |s| ensures s[i] != s[j] {
      assert s[j] == t[j - 1];
      if i > 0 { assert s[i] == t[i - 1]; }
    }
  }

  lemma RemoveAtTail<T>(s: seq<T>, i: nat)
    requires 0 < i < |s|
    ensures s[1..][i - 1] == s[i]
    ensures RemoveAt(s, i) == [s[0]] + RemoveAt(s[1..], i - 1)
  {
    var t := s[1..];
    assert s[..i] == [s[0]] + t[..i - 1];
    assert s[i + 1..] == t[i..];
  }

  /**
   * Swift's `firstIndex(of:)`: the position of the first element equal to `x`,
   * or nil when there is none.
   */
  function FirstIndex<T(==)>(s: seq<T>, x: T): (r: Option<nat>)
    ensures r.None? <==> x !in s
    ensures r.Some? ==> r.value < |s| && s[r.value] == x && x !in s[..r.value]
  {
    if s == [] then None
    else if s[0] == x then Some(0)
    else
      match FirstIndex(s[1..], x)
      case None => None
      case Some(k) =>
        assert s[..k + 1] == [s[0]] + s[1..][..k];
        Some(k + 1)
  }

  /** In a duplicate-free sequence the first index of an element is its only index. */
  lemma {:induction false} FirstIndexOfDistinct<T>(s: seq<T>, i: nat)
    requires i < |s| && Distinct(s)
    ensures FirstIndex(s, s[i]) == Some(i)
  {
  }

  /** Two sequences with the same elements and the same head have tails with the same elements. */
  lemma MultisetTail<T>(a: seq<T>, b: seq<T>)
    requires a != [] && b != [] && a[0] == b[0] && multiset(a) == multiset(b)
    ensures multiset(a[1..]) == multiset(b[1..])
  {
    assert a == [a[0]] + a[1..] && b == [b[0]] + b[1..];
    forall y ensures multiset(a[1..])[y] == multiset(b[1..])[y] {
      assert multiset(a)[y] == multiset{a[0]}[y] + multiset(a[1..])[y];
      assert multiset(b)[y] == multiset{a[0]}[y] + multiset(b[1..])[y];
    }
  }

  /** `s` back to front. */
  function Reverse<T>(s: seq<T>): (r: seq<T>)
    ensures |r| == |s| && forall i :: 0 <= i < |s| ==> r[i] == s[|s| - 1 - i]
    ensures multiset(r) == multiset(s)
  {
    if s == [] then []
    else
      assert s == [s[0]] + s[1..];
      Reverse(s[1..]) + [s[0]]
  }

  /**
   * `r` is `s` with some elements left out and the rest in their original
   * order.
   */
  ghost predicate Subsequence<T>(r: seq<T>, s: seq<T>)
    decreases |s|
  {
    r == [] || (s != [] && ((r[0] == s[0] && Subsequence(r[1..], s[1..])) || Subsequence(r, s[1..])))
  }
}
