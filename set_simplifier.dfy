/**
 * `SetSimplifier`: repeatedly strip the element of every singleton set from
 * the sets that still have more than one element, until nothing changes.
 */
module SetSimplifier {
  import opened Seqs

  predicate IsSingle<T>(s: set<T>)
  {
    |s| == 1
  }

  /** The singleton sets, in array order (`sets.enumerated().filter { s.count == 1 }`). */
  function Singles<T>(sets: seq<set<T>>): seq<set<T>>
  {
    Filter(sets, IsSingle)
  }

  /** One singleton applied to one set: only a set with more than one element loses it. */
  function Strip<T>(s: set<T>, single: set<T>): set<T>
  {
    if |s| > 1 then s - single else s
  }

  /** A set after the singletons `singles` have been applied to it in order. */
  function Pruned<T>(s: set<T>, singles: seq<set<T>>): set<T>
  {
    if singles == [] then s else Strip(Pruned(s, singles[..|singles| - 1]), singles[|singles| - 1])
  }

  /** What one pass of `uniquifySingles` makes of the array. */
  function UniquifiedSingles<T>(sets: seq<set<T>>): (r: seq<set<T>>)
    ensures |r| == |sets|
  {
    seq(|sets|, i requires 0 <= i < |sets| => Pruned(sets[i], Singles(sets)))
  }

  /** `uniquifySingles`: each singleton in turn is subtracted from every set that still has more than one element. */
  method UniquifySingles<T>(sets: seq<set<T>>) returns (better: seq<set<T>>)
    ensures better == UniquifiedSingles(sets)
  {
    var singles := Singles(sets);
    better := sets;
    for k := 0 to |singles|
      invariant |better| == |sets|
      invariant forall i :: 0 <= i < |sets| ==> better[i] == Pruned(sets[i], singles[..k])
    {
      var value := singles[k];
      assert singles[..k + 1][..k] == singles[..k];
      better := seq(|better|, i requires 0 <= i < |better| => Strip(better[i], value));
    }
    assert singles[..|singles|] == singles;
  }

  /** Pruning only removes elements, never touches a set with at most one element, and never empties a set. */
  lemma {:induction false} PrunedSpec<T>(s: set<T>, singles: seq<set<T>>)
    requires forall v :: v in singles ==> |v| == 1
    ensures Pruned(s, singles) <= s
    ensures |s| <= 1 ==> Pruned(s, singles) == s
    ensures s != {} ==> Pruned(s, singles) != {}
  {
    if singles != [] {
      var init, v := singles[..|singles| - 1], singles[|singles| - 1];
      assert forall w :: w in init ==> w in singles;
      PrunedSpec(s, init);
      var p := Pruned(s, init);
      if |p| > 1 {
        assert v in singles && |v| == 1;
        assert v != {};
        var e :| e in v;
        assert |v - {e}| == 0;
        assert v == {e};
        assert |p - {e}| >= |p| - 1;
      }
    }
  }

  lemma SinglesAreSingle<T>(sets: seq<set<T>>)
    ensures forall v :: v in Singles(sets) ==> |v| == 1
  {
    forall v | v in Singles(sets) ensures |v| == 1 {
      InFilter(sets, IsSingle, v);
    }
  }

  /** One pass keeps the length, shrinks every set, keeps sets of size at most one, and empties none. */
  lemma UniquifiedSinglesSpec<T>(sets: seq<set<T>>)
    ensures |UniquifiedSingles(sets)| == |sets|
    ensures forall i :: 0 <= i < |sets| ==> UniquifiedSingles(sets)[i] <= sets[i]
    ensures forall i :: 0 <= i < |sets| && |sets[i]| <= 1 ==> UniquifiedSingles(sets)[i] == sets[i]
    ensures forall i :: 0 <= i < |sets| && sets[i] != {} ==> UniquifiedSingles(sets)[i] != {}
  {
    SinglesAreSingle(sets);
    forall i | 0 <= i < |sets| ensures var r := UniquifiedSingles(sets)[i];
      r <= sets[i] && (|sets[i]| <= 1 ==> r == sets[i]) && (sets[i] != {} ==> r != {})
    {
      PrunedSpec(sets[i], Singles(sets));
    }
  }

  function TotalSize<T>(sets: seq<set<T>>): nat
  {
    if sets == [] then 0 else |sets[0]| + TotalSize(sets[1..])
  }

  /** Position-wise shrinking never grows the total size, and shrinks it strictly unless nothing changed. */
  lemma {:induction false} TotalSizeShrinks<T>(a: seq<set<T>>, b: seq<set<T>>)
    requires |a| == |b| && forall i :: 0 <= i < |a| ==> a[i] <= b[i]
    ensures TotalSize(a) <= TotalSize(b)
    ensures a != b ==> TotalSize(a) < TotalSize(b)
  {
    if a != [] {
      TotalSizeShrinks(a[1..], b[1..]);
      SubsetSize(a[0], b[0]);
      if a[0] != b[0] {
      } else if a != b {
        assert a[1..] != b[1..];
      }
    }
  }

  lemma SubsetSize<T>(a: set<T>, b: set<T>)
    requires a <= b
    ensures |a| <= |b| && (a != b ==> |a| < |b|)
  {
    assert b == a + (b - a);
    if a != b {
      var e :| e in b - a;
    }
  }

  /**
   * What `uniqueify` returns: passes of `uniquifySingles` until one changes
   * nothing. Every pass that changes something strictly shrinks the total size.
   */
  function Uniqueified<T>(sets: seq<set<T>>): seq<set<T>>
    decreases TotalSize(sets)
  {
    var next := UniquifiedSingles(sets);
    if next == sets then sets
    else
      UniquifiedSinglesSpec(sets);
      TotalSizeShrinks(next, sets);
      Uniqueified(next)
  }

  /**
   * `uniqueify`: passes of `uniquifySingles` until one changes nothing. The result
   * is a fixed point of the pass; every set shrank, none was emptied, and sets of
   * at most one element are kept. The loop ends because every changing pass
   * strictly shrinks the total size.
   */
  method Uniqueify<T>(sets: seq<set<T>>) returns (better: seq<set<T>>)
    ensures better == Uniqueified(sets)
    ensures UniquifiedSingles(better) == better
    ensures |better| == |sets|
    ensures forall i :: 0 <= i < |sets| ==> better[i] <= sets[i]
    ensures forall i :: 0 <= i < |sets| && |sets[i]| <= 1 ==> better[i] == sets[i]
    ensures forall i :: 0 <= i < |sets| && sets[i] != {} ==> better[i] != {}
    ensures UniquifiedSingles(sets) == sets ==> better == sets
  {
    var before := sets;
    better := UniquifySingles(before);
    UniquifiedSinglesSpec(before);
    while better != before
      invariant |before| == |better| == |sets|
      invariant better == UniquifiedSingles(before)
      invariant Uniqueified(before) == Uniqueified(sets)
      invariant forall i :: 0 <= i < |sets| ==> better[i] <= before[i] <= sets[i]
      invariant forall i :: 0 <= i < |sets| && |sets[i]| <= 1 ==> better[i] == sets[i]
      invariant forall i :: 0 <= i < |sets| && sets[i] != {} ==> better[i] != {}
      invariant UniquifiedSingles(sets) == sets ==> before == sets
      decreases TotalSize(before)
    {
      TotalSizeShrinks(better, before);
      before := better;
      better := UniquifySingles(before);
      UniquifiedSinglesSpec(before);
    }
  }

  /** The unit tests' inputs: already-unique arrays are fixed points, and the two reductions. */
  lemma Examples()
    ensures UniquifiedSingles([{"test"}, {"zest"}]) == [{"test"}, {"zest"}]
    ensures UniquifiedSingles([{"test"}, {"test", "zest"}]) == [{"test"}, {"zest"}]
  {
    var t, z: set<string> := {"test"}, {"zest"};
    var tz := {"test", "zest"};
    assert "test" != "zest" by { assert "test"[0] != "zest"[0]; }
    assert |tz| == 2 by { assert tz == t + z && t !! z; }
    assert Singles([t, z]) == [t, z] by {
      assert Filter([t, z][1..], IsSingle) == [z] by { assert [t, z][1..] == [z]; }
    }
    assert Pruned(t, [t, z]) == t by { assert [t, z][..1] == [t]; assert Pruned(t, [t]) == t; }
    assert Pruned(z, [t, z]) == z by { assert [t, z][..1] == [t]; assert Pruned(z, [t]) == z; }
    assert Singles([t, tz]) == [t] by {
      assert Filter([t, tz][1..], IsSingle) == [] by { assert [t, tz][1..] == [tz]; }
    }
    assert Pruned(tz, [t]) == z by { assert [t][..0] == []; assert tz - t == z; }
    assert Pruned(t, [t]) == t by { assert [t][..0] == []; }
  }

  /**
   * `uniqueify` on the unit tests' inputs: the already-unique arrays come back
   * unchanged, and `[{test}, {test, zest}]` becomes `[{test}, {zest}]` after two passes.
   */
  lemma UniqueifyExamples()
    ensures Uniqueified([{"test"}, {"zest"}]) == [{"test"}, {"zest"}]
    ensures Uniqueified([{"test"}, {"test", "zest"}]) == [{"test"}, {"zest"}]
  {
    Examples();
    assert [{"test"}, {"test", "zest"}] != [{"test"}, {"zest"}] by {
      assert {"test", "zest"} != {"zest"} by { assert "test" in {"test", "zest"}; assert "test" != "zest" by { assert "test"[0] != "zest"[0]; } }
    }
  }

  /**
   * `uniqueify` hands `[{test, zest}, {test, zest}, {test, zest, nest}]` back
   * unchanged, where the source's `testTwosAndAThree` expects `{nest}` in the
   * last place.
   */
  lemma TwosAndAThreeUnchanged()
    ensures Uniqueified([{"test", "zest"}, {"test", "zest"}, {"test", "zest", "nest"}])
      == [{"test", "zest"}, {"test", "zest"}, {"test", "zest", "nest"}]
  {
    var tz: set<string> := {"test", "zest"};
    var tzn: set<string> := {"test", "zest", "nest"};
    assert "test" != "zest" by { assert "test"[0] != "zest"[0]; }
    assert |tz| == 2 by { assert tz == {"test"} + {"zest"}; }
    assert |tzn| > 1 by { assert tz <= tzn; SubsetSize(tz, tzn); }
    NoSinglesNoChange(tz, tz, tzn);
  }

  /**
   * Without any singleton a pass changes nothing, so `uniqueify` returns
   * `[{test, zest}, {test, zest}, {test, zest, nest}]` unchanged: the code does
   * not produce the `{nest}` that the source's `testTwosAndAThree` expects.
   */
  lemma NoSinglesNoChange(a: set<string>, b: set<string>, c: set<string>)
    requires |a| > 1 && |b| > 1 && |c| > 1
    ensures UniquifiedSingles([a, b, c]) == [a, b, c]
  {
    assert Filter([c], IsSingle) == [] by { assert [c][1..] == []; }
    assert Filter([b, c], IsSingle) == [] by { assert [b, c][1..] == [c]; }
    assert Singles([a, b, c]) == [] by { assert [a, b, c][1..] == [b, c]; }
  }
}
