/**
 * Swift's `sorted()`, `reversed()` and `max()` on integer collections, as
 * specification functions: `sorted()` is an insertion sort here, proved to give
 * an ascending permutation of its input.
 */
module Sorting {
  predicate Ascending(s: seq<int>)
  {
    forall i, j :: 0 <= i < j < |s| ==> s[i] <= s[j]
  }

  predicate Descending(s: seq<int>)
  {
    forall i, j :: 0 <= i < j < |s| ==> s[i] >= s[j]
  }

  /** `x` placed before the first element not smaller than it. */
  function Insert(x: int, s: seq<int>): seq<int>
  {
    if s == [] || x <= s[0] then [x] + s else [s[0]] + Insert(x, s[1..])
  }

  /** Inserting adds exactly `x`. */
  lemma {:induction false} InsertElements(x: int, s: seq<int>)
    ensures multiset(Insert(x, s)) == multiset(s) + multiset{x}
  {
    if s != [] && x > s[0] {
      InsertElements(x, s[1..]);
      assert s == [s[0]] + s[1..];
    }
  }

  /** Inserting into an ascending sequence keeps it ascending. */
  lemma {:induction false} InsertSpec(x: int, s: seq<int>)
    requires Ascending(s)
    ensures Ascending(Insert(x, s)) && multiset(Insert(x, s)) == multiset(s) + multiset{x}
  {
    InsertElements(x, s);
    var r := Insert(x, s);
    if s == [] || x <= s[0] {
      assert r == [x] + s;
      forall i, j | 0 <= i < j < |r| ensures r[i] <= r[j] {
        if i > 0 {
          assert r[i] == s[i - 1] && r[j] == s[j - 1];
        } else {
          assert r[j] == s[j - 1] && s[0] <= s[j - 1];
        }
      }
    } else {
      var rest := Insert(x, s[1..]);
      InsertSpec(x, s[1..]);
      assert r == [s[0]] + rest;
      forall k | 0 <= k < |rest| ensures s[0] <= rest[k] {
        LowerBound(x, s, rest, k);
      }
      forall i, j | 0 <= i < j < |r| ensures r[i] <= r[j] {
        assert r[j] == rest[j - 1];
        if i > 0 {
          assert r[i] == rest[i - 1];
        }
      }
    }
  }

  lemma LowerBound(x: int, s: seq<int>, rest: seq<int>, k: nat)
    requires Ascending(s) && s != [] && x > s[0]
    requires multiset(rest) == multiset(s[1..]) + multiset{x} && k < |rest|
    ensures s[0] <= rest[k]
  {
    assert rest[k] in multiset(rest);
    if rest[k] != x {
      assert rest[k] in multiset(s[1..]);
      assert rest[k] in s[1..];
      var m :| 0 <= m < |s[1..]| && s[1..][m] == rest[k];
      assert s[m + 1] == rest[k];
    }
  }

  /** `sorted()`: the elements in ascending order. */
  function Sort(s: seq<int>): (r: seq<int>)
    ensures Ascending(r) && multiset(r) == multiset(s)
  {
    if s == [] then []
    else
      assert s == [s[0]] + s[1..];
      InsertSpec(s[0], Sort(s[1..]));
      Insert(s[0], Sort(s[1..]))
  }

  /** An ascending list is determined by its elements: `Sort` gives the only ascending permutation. */
  lemma {:induction false} AscendingUnique(a: seq<int>, b: seq<int>)
    requires Ascending(a) && Ascending(b) && multiset(a) == multiset(b)
    ensures a == b
  {
    assert |multiset(a)| == |multiset(b)|;
    if a != [] {
      HeadsEqual(a, b);
      assert a == [a[0]] + a[1..] && b == [b[0]] + b[1..];
      assert multiset(a) == multiset{a[0]} + multiset(a[1..]);
      assert multiset(b) == multiset{b[0]} + multiset(b[1..]);
      assert multiset(a[1..]) == multiset(a) - multiset{a[0]};
      assert multiset(b[1..]) == multiset(b) - multiset{b[0]};
      AscendingTail(a);
      AscendingTail(b);
      AscendingUnique(a[1..], b[1..]);
    }
  }

  lemma AscendingTail(a: seq<int>)
    requires Ascending(a) && a != []
    ensures Ascending(a[1..])
  {
    forall i, j | 0 <= i < j < |a| - 1 ensures a[1..][i] <= a[1..][j] {
      assert a[1..][i] == a[i + 1] && a[1..][j] == a[j + 1];
    }
  }

  /** Two ascending lists with the same elements start with the same, least, element. */
  lemma HeadsEqual(a: seq<int>, b: seq<int>)
    requires Ascending(a) && Ascending(b) && multiset(a) == multiset(b) && a != [] && b != []
    ensures a[0] == b[0]
  {
    assert a[0] in multiset(b) && b[0] in multiset(a);
    var i :| 0 <= i < |b| && b[i] == a[0];
    var j :| 0 <= j < |a| && a[j] == b[0];
    assert a[0] <= a[j] && b[0] <= b[i];
  }

  lemma SortUnique(s: seq<int>, r: seq<int>)
    requires Ascending(r) && multiset(r) == multiset(s)
    ensures Sort(s) == r
  {
    AscendingUnique(Sort(s), r);
  }

  /** `reversed()`: the elements from the last to the first. */
  function Reverse(s: seq<int>): (r: seq<int>)
    ensures |r| == |s| && forall i :: 0 <= i < |s| ==> r[i] == s[|s| - 1 - i]
  {
    if s == [] then [] else Reverse(s[1..]) + [s[0]]
  }

  lemma ReverseAscending(s: seq<int>)
    requires Ascending(s)
    ensures Descending(Reverse(s)) && multiset(Reverse(s)) == multiset(s)
  {
    ReverseElements(s);
  }

  /** Reversing keeps the elements. */
  lemma {:induction false} ReverseElements(s: seq<int>)
    ensures multiset(Reverse(s)) == multiset(s)
  {
    if s != [] {
      ReverseElements(s[1..]);
      assert s == [s[0]] + s[1..];
    }
  }

  /** Reversed, a descending list ascends. */
  lemma ReverseDescending(s: seq<int>)
    requires Descending(s)
    ensures Ascending(Reverse(s)) && multiset(Reverse(s)) == multiset(s)
  {
    ReverseElements(s);
  }

  /** Reversing twice gives the list back. */
  lemma ReverseReverse(s: seq<int>)
    ensures Reverse(Reverse(s)) == s
  {
  }

  /** A list whose every step goes down is descending. */
  lemma {:induction false} DescendingSteps(s: seq<int>)
    requires forall i :: 0 < i < |s| ==> s[i - 1] >= s[i]
    ensures Descending(s)
  {
    if |s| > 1 {
      var t := s[1..];
      DescendingSteps(t);
      forall i, j | 0 <= i < j < |s| ensures s[i] >= s[j] {
        if i == 0 {
          assert s[1] == t[0] && s[j] == t[j - 1];
        } else {
          assert s[i] == t[i - 1] && s[j] == t[j - 1];
        }
      }
    }
  }

  /** `max()`, which is only defined on a non-empty collection. */
  function Max(s: seq<int>): (m: int)
    requires s != []
    ensures m in s && forall x :: x in s ==> x <= m
  {
    if |s| == 1 then s[0]
    else
      var rest := Max(s[1..]);
      assert forall x :: x in s ==> x == s[0] || x in s[1..];
      if s[0] >= rest then s[0] else rest
  }

  /** The first element of a non-empty descending sort is the maximum. */
  lemma SortedMax(s: seq<int>)
    requires s != []
    ensures Reverse(Sort(s)) != [] && Reverse(Sort(s))[0] == Max(s)
  {
    var r := Sort(s);
    LastIsMax(r, s);
    assert Reverse(r)[0] == r[|r| - 1];
  }

  /** The last element of an ascending permutation is the maximum. */
  lemma LastIsMax(r: seq<int>, s: seq<int>)
    requires s != [] && Ascending(r) && multiset(r) == multiset(s)
    ensures r != [] && r[|r| - 1] == Max(s)
  {
    SameLength(r, s);
    var m := Max(s);
    var last := r[|r| - 1];
    InMultiset(s, r, m);
    InMultiset(r, s, last);
    var i :| 0 <= i < |r| && r[i] == m;
    if i < |r| - 1 {
      assert r[i] <= r[|r| - 1];
    }
    assert last <= m;
  }

  lemma SameLength(r: seq<int>, s: seq<int>)
    requires multiset(r) == multiset(s)
    ensures |r| == |s|
  {
    assert |multiset(r)| == |multiset(s)|;
  }

  /** What is in one of two sequences with the same multiset is in the other. */
  lemma InMultiset(s: seq<int>, r: seq<int>, x: int)
    requires multiset(r) == multiset(s) && x in s
    ensures x in r
  {
    assert x in multiset(s);
  }
}
