/**
 * Sequence combinators standing for Swift's closed ranges, `map`, `flatMap`,
 * `filter` and `reduce`, with the facts about them that the index library and
 * the puzzle engines use.
 */
module Seqs {
  /** The closed range `lo ... hi`, in increasing order. */
  function Ints(lo: int, hi: int): seq<int>
  {
    seq(if lo <= hi then hi - lo + 1 else 0, i => lo + i)
  }

  function Map<A, B>(s: seq<A>, f: A -> B): seq<B>
  {
    seq(|s|, i requires 0 <= i < |s| => f(s[i]))
  }

  function FlatMap<A, B>(s: seq<A>, f: A -> seq<B>): seq<B>
  {
    if s == [] then [] else f(s[0]) + FlatMap(s[1..], f)
  }

  function Filter<A>(s: seq<A>, p: A -> bool): seq<A>
  {
    if s == [] then [] else (if p(s[0]) then [s[0]] else []) + Filter(s[1..], p)
  }

  function Sum(s: seq<int>): int
  {
    if s == [] then 0 else s[0] + Sum(s[1..])
  }

  /** Number of positions of `s` holding `x`. */
  function Count<A(==)>(s: seq<A>, x: A): nat
  {
    if s == [] then 0 else (if s[0] == x then 1 else 0) + Count(s[1..], x)
  }

  ghost predicate Distinct<A>(s: seq<A>)
  {
    forall i, j :: 0 <= i < j < |s| ==> s[i] != s[j]
  }

  ghost predicate SortedBy<A>(s: seq<A>, lt: (A, A) -> bool)
  {
    forall i, j :: 0 <= i < j < |s| ==> lt(s[i], s[j])
  }

  lemma InInts(lo: int, hi: int, x: int)
    ensures x in Ints(lo, hi) <==> lo <= x <= hi
  {
    if lo <= x <= hi {
      assert Ints(lo, hi)[x - lo] == x;
    }
  }

  lemma IntsIncreasing(lo: int, hi: int)
    ensures SortedBy(Ints(lo, hi), (a: int, b: int) => a < b)
  {
  }

  lemma InMap<A, B>(s: seq<A>, f: A -> B, x: A)
    requires x in s
    ensures f(x) in Map(s, f)
  {
    var i :| 0 <= i < |s| && s[i] == x;
    assert Map(s, f)[i] == f(x);
  }

  lemma MapInv<A, B>(s: seq<A>, f: A -> B, y: B) returns (x: A)
    requires y in Map(s, f)
    ensures x in s && f(x) == y
  {
    var i :| 0 <= i < |Map(s, f)| && Map(s, f)[i] == y;
    x := s[i];
  }

  lemma {:induction false} InFlatMap<A, B>(s: seq<A>, f: A -> seq<B>, x: A, y: B)
    requires x in s && y in f(x)
    ensures y in FlatMap(s, f)
  {
    if s[0] != x {
      InFlatMap(s[1..], f, x, y);
    }
  }

  lemma {:induction false} FlatMapInv<A, B>(s: seq<A>, f: A -> seq<B>, y: B) returns (x: A)
    requires y in FlatMap(s, f)
    ensures x in s && y in f(x)
  {
    if y in f(s[0]) {
      x := s[0];
    } else {
      x := FlatMapInv(s[1..], f, y);
    }
  }

  lemma {:induction false} FlatMapLength<A, B>(s: seq<A>, f: A -> seq<B>, k: nat)
    requires forall x :: x in s ==> |f(x)| == k
    ensures |FlatMap(s, f)| == |s| * k
  {
    if s != [] {
      FlatMapLength(s[1..], f, k);
      var m := |s| - 1;
      assert |s| * k == m * k + k;
    }
  }

  lemma SortedAppend<A>(a: seq<A>, b: seq<A>, lt: (A, A) -> bool)
    requires SortedBy(a, lt) && SortedBy(b, lt)
    requires forall u, v :: u in a && v in b ==> lt(u, v)
    ensures SortedBy(a + b, lt)
  {
    forall i, j | 0 <= i < j < |a + b| ensures lt((a + b)[i], (a + b)[j]) {
      if j < |a| {
      } else if i >= |a| {
        assert (a + b)[i] == b[i - |a|] && (a + b)[j] == b[j - |a|];
      } else {
        assert (a + b)[i] in a && (a + b)[j] in b;
      }
    }
  }

  lemma {:induction false} FlatMapSorted<A, B>(s: seq<A>, f: A -> seq<B>, lt: (B, B) -> bool)
    requires forall x :: x in s ==> SortedBy(f(x), lt)
    requires forall i, j, u, v :: 0 <= i < j < |s| && u in f(s[i]) && v in f(s[j]) ==> lt(u, v)
    ensures SortedBy(FlatMap(s, f), lt)
  {
    if s != [] {
      var t := s[1..];
      forall i, j, u, v | 0 <= i < j < |t| && u in f(t[i]) && v in f(t[j]) ensures lt(u, v) {
        assert t[i] == s[i + 1] && t[j] == s[j + 1];
      }
      FlatMapSorted(t, f, lt);
      forall u, v | u in f(s[0]) && v in FlatMap(t, f) ensures lt(u, v) {
        var x := FlatMapInv(t, f, v);
        var j :| 0 <= j < |t| && t[j] == x;
        assert s[j + 1] == x;
      }
      SortedAppend(f(s[0]), FlatMap(t, f), lt);
    }
  }

  lemma MapSorted<A, B>(s: seq<A>, f: A -> B, lt: (B, B) -> bool)
    requires forall i, j :: 0 <= i < j < |s| ==> lt(f(s[i]), f(s[j]))
    ensures SortedBy(Map(s, f), lt)
  {
  }

  lemma SortedDistinct<A>(s: seq<A>, lt: (A, A) -> bool)
    requires SortedBy(s, lt)
    requires forall x :: x in s ==> !lt(x, x)
    ensures Distinct(s)
  {
    forall i, j | 0 <= i < j < |s| ensures s[i] != s[j] {
      assert s[i] in s && lt(s[i], s[j]);
    }
  }

  lemma {:induction false} InFilter<A>(s: seq<A>, p: A -> bool, x: A)
    ensures x in Filter(s, p) <==> x in s && p(x)
  {
    if s != [] {
      InFilter(s[1..], p, x);
    }
  }

  lemma {:induction false} FilterSorted<A>(s: seq<A>, p: A -> bool, lt: (A, A) -> bool)
    requires SortedBy(s, lt)
    ensures SortedBy(Filter(s, p), lt)
  {
    if s != [] {
      FilterSorted(s[1..], p, lt);
      forall v | v in Filter(s[1..], p) ensures lt(s[0], v) {
        InFilter(s[1..], p, v);
      }
      SortedAppend(if p(s[0]) then [s[0]] else [], Filter(s[1..], p), lt);
    }
  }

  lemma {:induction false} FilterAll<A>(s: seq<A>, p: A -> bool)
    requires forall x :: x in s ==> p(x)
    ensures Filter(s, p) == s
  {
    if s != [] {
      FilterAll(s[1..], p);
    }
  }

  /** Filtering a duplicate-free sequence with a test that only `z` fails drops exactly one element. */
  lemma {:induction false} FilterDropsOne<A>(s: seq<A>, p: A -> bool, z: A)
    requires Distinct(s) && z in s
    requires forall x :: x in s ==> (p(x) <==> x != z)
    ensures |Filter(s, p)| == |s| - 1
  {
    if s[0] == z {
      assert z !in s[1..];
      FilterAll(s[1..], p);
    } else {
      FilterDropsOne(s[1..], p, z);
    }
  }

  /** Filtering keeps the order: it distributes over concatenation. */
  lemma {:induction false} FilterConcat<A>(a: seq<A>, b: seq<A>, p: A -> bool)
    ensures Filter(a + b, p) == Filter(a, p) + Filter(b, p)
  {
    if a == [] {
      assert a + b == b;
    } else {
      var head := if p(a[0]) then [a[0]] else [];
      assert (a + b)[0] == a[0] && (a + b)[1..] == a[1..] + b;
      assert Filter(a + b, p) == head + Filter(a[1..] + b, p);
      FilterConcat(a[1..], b, p);
      assert Filter(a, p) == head + Filter(a[1..], p);
    }
  }

  lemma {:induction false} FilterLength<A>(s: seq<A>, p: A -> bool)
    ensures |Filter(s, p)| <= |s|
  {
    if s != [] {
      FilterLength(s[1..], p);
    }
  }
}
