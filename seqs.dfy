/**
 * Order-preserving filtering (`Vec::retain`, `Iterator::filter`) and the
 * stable sort behind itertools' `sorted_by_key`, over any element type.
 */
module Seqs {

  // ---------------------------------------------------------------------------
  // Filtering
  // ---------------------------------------------------------------------------

  /** The elements `keep` accepts, in their original order. */
  function Retain<T(!new)>(s: seq<T>, keep: T -> bool): (r: seq<T>)
    ensures |r| <= |s|
    ensures forall x :: x in r <==> x in s && keep(x)
  {
    if s == [] then []
    else if keep(s[0]) then [s[0]] + Retain(s[1..], keep)
    else Retain(s[1..], keep)
  }

  /** Filtering distributes over concatenation, so the survivors keep their order. */
  lemma {:induction false} RetainAppend<T(!new)>(a: seq<T>, b: seq<T>, keep: T -> bool)
    ensures Retain(a + b, keep) == Retain(a, keep) + Retain(b, keep)
  {
    if a != [] {
      assert (a + b)[0] == a[0];
      assert (a + b)[1..] == a[1..] + b;
      RetainAppend(a[1..], b, keep);
      if keep(a[0]) {
        var p, q := Retain(a[1..], keep), Retain(b, keep);
        assert [a[0]] + (p + q) == [a[0]] + p + q;
      }
    } else {
      assert a + b == b;
    }
  }

  /** A second pass of the same filter removes nothing. */
  lemma {:induction false} RetainIdempotent<T(!new)>(s: seq<T>, keep: T -> bool)
    ensures Retain(Retain(s, keep), keep) == Retain(s, keep)
  {
    if s != [] {
      RetainIdempotent(s[1..], keep);
    }
  }

  /** When every element is accepted the sequence is unchanged. */
  lemma {:induction false} RetainAll<T(!new)>(s: seq<T>, keep: T -> bool)
    requires forall k :: 0 <= k < |s| ==> keep(s[k])
    ensures Retain(s, keep) == s
  {
    if s != [] {
      RetainAll(s[1..], keep);
    }
  }

  /** When no element is accepted nothing is left. */
  lemma {:induction false} RetainNone<T(!new)>(s: seq<T>, keep: T -> bool)
    requires forall k :: 0 <= k < |s| ==> !keep(s[k])
    ensures Retain(s, keep) == []
  {
    if s != [] {
      RetainNone(s[1..], keep);
    }
  }

  /** Filtering keeps each accepted element as often as it occurs. */
  lemma {:induction false} RetainMultiset<T(!new)>(s: seq<T>, keep: T -> bool, x: T)
    ensures multiset(Retain(s, keep))[x] == if keep(x) then multiset(s)[x] else 0
  {
    if s != [] {
      RetainMultiset(s[1..], keep, x);
      assert s == [s[0]] + s[1..];
    }
  }

  // ---------------------------------------------------------------------------
  // Stable sort by an integer key
  // ---------------------------------------------------------------------------

  predicate SortedBy<T(!new)>(s: seq<T>, key: T -> int)
  {
    forall i, j :: 0 <= i < j < |s| ==> key(s[i]) <= key(s[j])
  }

  /** `x` placed before the first element whose key is not smaller than its own. */
  function InsertBy<T(!new)>(x: T, s: seq<T>, key: T -> int): (r: seq<T>)
    ensures multiset(r) == multiset(s) + multiset{x}
  {
    if s == [] || key(x) <= key(s[0]) then [x] + s
    else
      assert s == [s[0]] + s[1..];
      [s[0]] + InsertBy(x, s[1..], key)
  }

  /** Inserting into a sorted sequence keeps it sorted. */
  lemma {:induction false} InsertBySorted<T(!new)>(x: T, s: seq<T>, key: T -> int)
    requires SortedBy(s, key)
    ensures SortedBy(InsertBy(x, s, key), key)
  {
    if s == [] || key(x) <= key(s[0]) {
      ConsSorted(x, s, key);
    } else {
      var t := InsertBy(x, s[1..], key);
      InsertBySorted(x, s[1..], key);
      forall y | y in t
        ensures key(s[0]) <= key(y)
      {
        assert y in multiset(t);
        assert y == x || y in s[1..];
      }
      ConsSorted(s[0], t, key);
    }
  }

  /** A head no greater than any element of a sorted tail gives a sorted sequence. */
  lemma ConsSorted<T(!new)>(a: T, t: seq<T>, key: T -> int)
    requires SortedBy(t, key)
    requires forall y :: y in t ==> key(a) <= key(y)
    ensures SortedBy([a] + t, key)
  {
    var r := [a] + t;
    forall i, j | 0 <= i < j < |r|
      ensures key(r[i]) <= key(r[j])
    {
      assert r[j] == t[j - 1];
      if i > 0 {
        assert r[i] == t[i - 1];
      }
    }
  }

  /** Stable sort: each element is inserted ahead of the later ones with an equal key. */
  function SortBy<T(!new)>(s: seq<T>, key: T -> int): (r: seq<T>)
    ensures multiset(r) == multiset(s)
    ensures SortedBy(r, key)
  {
    if s == [] then []
    else
      assert s == [s[0]] + s[1..];
      var t := SortBy(s[1..], key);
      InsertBySorted(s[0], t, key);
      InsertBy(s[0], t, key)
  }

  /** Sorting keeps exactly the elements it was given. */
  lemma SortByMembers<T(!new)>(s: seq<T>, key: T -> int)
    ensures forall x :: x in SortBy(s, key) <==> x in s
  {
    var r := SortBy(s, key);
    forall x
      ensures x in r <==> x in s
    {
      assert x in r <==> x in multiset(r);
      assert x in s <==> x in multiset(s);
    }
  }

  /** The filter selecting the elements whose key is `k`. */
  function KeyIs<T(!new)>(key: T -> int, k: int): T -> bool
  {
    y => key(y) == k
  }

  /** Inserting `x` changes the elements with `x`'s key only by putting `x` first. */
  lemma {:induction false} InsertByStable<T(!new)>(x: T, s: seq<T>, key: T -> int, k: int)
    requires SortedBy(s, key)
    ensures Retain(InsertBy(x, s, key), KeyIs(key, k)) ==
      (if key(x) == k then [x] else []) + Retain(s, KeyIs(key, k))
  {
    if s == [] || key(x) <= key(s[0]) {
    } else {
      InsertByStable(x, s[1..], key, k);
    }
  }

  /**
   * Stability: among the elements with one key value, the sort keeps the
   * input order.
   */
  lemma {:induction false} SortByStable<T(!new)>(s: seq<T>, key: T -> int, k: int)
    ensures Retain(SortBy(s, key), KeyIs(key, k)) == Retain(s, KeyIs(key, k))
  {
    if s != [] {
      SortByStable(s[1..], key, k);
      InsertByStable(s[0], SortBy(s[1..], key), key, k);
    }
  }
}
