/**
 * Collection helpers: `only()`, `asArray`, `asSet` and the two `reduceFirst`
 * folds, on sequences (an ordered Swift collection).
 */
module Collections {
  import opened Wrappers
  import opened Seqs

  /** `only()`: the single element of a one-element collection, `nil` for any other count. */
  function Only<T>(s: seq<T>): (r: Option<T>)
    ensures r.Some? <==> |s| == 1
    ensures r.Some? ==> r.value == s[0] && s == [r.value]
  {
    if |s| == 1 then Some(s[0]) else None
  }

  /** Some element of a non-empty set, as iterating a Swift set visits its elements in an unspecified order. */
  method Pick<T>(s: set<T>) returns (x: T)
    requires s != {}
    ensures x in s
  {
    x :| x in s;
  }

  /** Swift's `first(where:)`: the first element passing `p`, `nil` when none does. */
  function FirstWhere<T>(s: seq<T>, p: T -> bool): (r: Option<T>)
    ensures r.None? <==> forall i :: 0 <= i < |s| ==> !p(s[i])
    ensures r.Some? ==> exists i :: 0 <= i < |s| && s[i] == r.value && p(s[i]) && forall j :: 0 <= j < i ==> !p(s[j])
  {
    if s == [] then None
    else if p(s[0]) then Some(s[0])
    else
      var r := FirstWhere(s[1..], p);
      assert forall i :: 0 < i < |s| ==> s[i] == s[1..][i - 1];
      r
  }

  /** `asSet`: the set of the elements. */
  function AsSet<T>(s: seq<T>): set<T>
  {
    set x | x in s
  }

  /** `asSet` has at most as many elements as the collection, and exactly as many when no element repeats. */
  lemma {:induction false} AsSetSize<T>(s: seq<T>)
    ensures |AsSet(s)| <= |s|
    ensures Distinct(s) ==> |AsSet(s)| == |s|
  {
    if s != [] {
      AsSetSize(s[1..]);
      assert AsSet(s) == {s[0]} + AsSet(s[1..]);
      if Distinct(s) {
        assert Distinct(s[1..]) by {
          forall i, j | 0 <= i < j < |s[1..]| ensures s[1..][i] != s[1..][j] {
            assert s[1..][i] == s[i + 1] && s[1..][j] == s[j + 1];
          }
        }
        assert s[0] !in AsSet(s[1..]);
      }
    }
  }

  /** Swift's `reduce(initial, f)`: `f` folded over the elements from the first to the last. */
  function FoldLeft<A, R>(init: R, s: seq<A>, f: (R, A) -> R): R
  {
    if s == [] then init else FoldLeft(f(init, s[0]), s[1..], f)
  }

  /** `reduceFirst(firstMap, f)`: the fold over the rest, started from the mapped first element; traps when empty. */
  function ReduceFirstMap<A, R>(s: seq<A>, firstMap: A -> R, f: (R, A) -> R): R
    requires |s| > 0
  {
    FoldLeft(firstMap(s[0]), s[1..], f)
  }

  /** `reduceFirst(f)`: the fold over the rest, started from the first element itself; traps when empty. */
  function ReduceFirst<A>(s: seq<A>, f: (A, A) -> A): A
    requires |s| > 0
  {
    FoldLeft(s[0], s[1..], f)
  }

  /** Folding over one more element applies `f` once more at the end. */
  lemma {:induction false} FoldLeftSnoc<A, R>(init: R, s: seq<A>, x: A, f: (R, A) -> R)
    ensures FoldLeft(init, s + [x], f) == f(FoldLeft(init, s, f), x)
  {
    if s != [] {
      assert (s + [x])[1..] == s[1..] + [x];
      FoldLeftSnoc(f(init, s[0]), s[1..], x, f);
    }
  }

  /** `reduceFirst(f)` of one element is that element, and it grows by one application of `f` per element. */
  lemma ReduceFirstSteps<A>(s: seq<A>, x: A, f: (A, A) -> A)
    ensures ReduceFirst([x], f) == x
    ensures |s| > 0 ==> ReduceFirst(s + [x], f) == f(ReduceFirst(s, f), x)
  {
    if |s| > 0 {
      assert (s + [x])[1..] == s[1..] + [x];
      FoldLeftSnoc(s[0], s[1..], x, f);
    }
  }

  /**
   * With a meet operation `f` (below both arguments, above every common lower
   * bound, for a transitive `le`), `reduceFirst(f)` is below every element and
   * above every lower bound of all of them: it is their greatest lower bound.
   * With `Index.min` this is the component-wise minimum, with `Index.max` (and
   * `le` reversed) the maximum.
   */
  lemma {:induction false} ReduceFirstMeet<A>(s: seq<A>, f: (A, A) -> A, le: (A, A) -> bool)
    requires |s| > 0
    requires forall a :: le(a, a)
    requires forall a, b :: le(f(a, b), a) && le(f(a, b), b)
    requires forall a, b, c :: le(c, a) && le(c, b) ==> le(c, f(a, b))
    requires forall a, b, c :: le(a, b) && le(b, c) ==> le(a, c)
    ensures forall i :: 0 <= i < |s| ==> le(ReduceFirst(s, f), s[i])
    ensures forall c :: (forall i :: 0 <= i < |s| ==> le(c, s[i])) ==> le(c, ReduceFirst(s, f))
  {
    var n := |s| - 1;
    if n == 0 {
      ReduceFirstSteps([], s[0], f);
      assert s == [s[0]];
    } else {
      var init := s[..n];
      assert s == init + [s[n]];
      ReduceFirstMeet(init, f, le);
      ReduceFirstSteps(init, s[n], f);
      var m := ReduceFirst(init, f);
      forall i | 0 <= i < |s| ensures le(ReduceFirst(s, f), s[i]) {
        if i < n {
          assert s[i] == init[i];
          assert le(f(m, s[n]), m) && le(m, init[i]);
        }
      }
      forall c | forall i :: 0 <= i < |s| ==> le(c, s[i]) ensures le(c, ReduceFirst(s, f)) {
        assert forall i :: 0 <= i < |init| ==> le(c, init[i]) by {
          forall i | 0 <= i < |init| ensures le(c, init[i]) { assert init[i] == s[i]; }
        }
      }
    }
  }
}
