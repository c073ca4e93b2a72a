/**
 * Day 17's worked example: the slice `.#.` / `..#` / `###` seeds five cubes
 * in the plane `z = 0`, and its box of interest runs from (-1, -1, -1) to
 * (3, 3, 1), 75 cubes in all.
 */
module ConwayExample {
  import opened Wrappers
  import opened IndexingRanges
  import opened Indexing
  import opened ConwayCubes

  const ExampleSlice: seq<seq<char>> := [".#.", "..#", "###"]

  const ExampleCubes: set<Index3D> :=
    {Index3D(1, 0, 0), Index3D(2, 1, 0), Index3D(0, 2, 0), Index3D(1, 2, 0), Index3D(2, 2, 0)}

  /** `setFromCubeSlice` on the example activates exactly the five '#' cells. */
  lemma ExampleSliceCubes(slice: seq<seq<char>>)
    requires slice == ExampleSlice
    ensures SliceCubes(slice, Cell3D) == ExampleCubes
  {
    forall p: Index3D ensures p in SliceCubes(slice, Cell3D) <==> p in ExampleCubes {
      SliceCubes3D(slice, p);
      if p.z == 0 && 0 <= p.x < 3 && 0 <= p.y < 3 {
        assert slice[0] == ".#." && slice[1] == "..#" && slice[2] == "###";
      }
    }
  }

  /** `IsGlb` over `Ops3D` read as the component-wise order of `Index3D`. */
  lemma Glb3D(s: set<Index3D>, m: Index3D)
    requires forall a :: a in s ==> Index3D.Le(m, a)
    requires forall b :: (forall a :: a in s ==> Index3D.Le(b, a)) ==> Index3D.Le(b, m)
    ensures IsGlb(Ops3D, s, m)
  {
    forall a | a in s ensures Le(Ops3D, m, a) {
      Le3D(m, a);
    }
    forall b | forall a :: a in s ==> Le(Ops3D, b, a) ensures Le(Ops3D, b, m) {
      forall a | a in s ensures Index3D.Le(b, a) {
        Le3D(b, a);
      }
      Le3D(b, m);
    }
  }

  /** `IsLub` over `Ops3D` read as the component-wise order of `Index3D`. */
  lemma Lub3D(s: set<Index3D>, m: Index3D)
    requires forall a :: a in s ==> Index3D.Le(a, m)
    requires forall b :: (forall a :: a in s ==> Index3D.Le(a, b)) ==> Index3D.Le(m, b)
    ensures IsLub(Ops3D, s, m)
  {
    forall a | a in s ensures Le(Ops3D, a, m) {
      Le3D(a, m);
    }
    forall b | forall a :: a in s ==> Le(Ops3D, a, b) ensures Le(Ops3D, m, b) {
      forall a | a in s ensures Index3D.Le(a, b) {
        Le3D(a, b);
      }
      Le3D(m, b);
    }
  }

  lemma ExampleGlb(s: set<Index3D>)
    requires s == ExampleCubes
    ensures IsGlb(Ops3D, s, Index3D(0, 0, 0))
  {
    forall b | forall a :: a in s ==> Index3D.Le(b, a) ensures Index3D.Le(b, Index3D(0, 0, 0)) {
      assert Index3D.Le(b, Index3D(1, 0, 0)) && Index3D.Le(b, Index3D(0, 2, 0));
    }
    Glb3D(s, Index3D(0, 0, 0));
  }

  lemma ExampleLub(s: set<Index3D>)
    requires s == ExampleCubes
    ensures IsLub(Ops3D, s, Index3D(2, 2, 0))
  {
    forall b | forall a :: a in s ==> Index3D.Le(a, b) ensures Index3D.Le(Index3D(2, 2, 0), b) {
      assert Index3D.Le(Index3D(2, 2, 0), b);
    }
    Lub3D(s, Index3D(2, 2, 0));
  }

  /** A box of interest is fixed by the bounds of the active cubes. */
  lemma BoxFromBounds3D(c: Conway<Index3D>, box: Option<IndexingRange<Index3D>>, m: Index3D, n: Index3D)
    requires c.activeCubes != {} && IsBoxOfInterest(Ops3D, c, box)
    requires IsGlb(Ops3D, c.activeCubes, m) && IsLub(Ops3D, c.activeCubes, n)
    ensures box == Some(IndexingRange(Index3D.Plus(m, Index3D.UnitMinus), Index3D.Plus(n, Index3D.UnitPlus)))
  {
    MinLaws3D();
    var r := box.value;
    BoundsUnique(Ops3D, c.activeCubes, m, Ops3D.plus(r.min, Ops3D.unitPlus), n, Ops3D.plus(r.max, Ops3D.unitMinus));
    PlusUnits3D(r.min);
    PlusUnits3D(r.max);
  }

  /** The only box of interest of the example automaton is (-1, -1, -1) to (3, 3, 1). */
  lemma ExampleBox(c: Conway<Index3D>, box: Option<IndexingRange<Index3D>>)
    requires c == Conway(SliceCubes(ExampleSlice, Cell3D)) && IsBoxOfInterest(Ops3D, c, box)
    ensures box == Some(IndexingRange(Index3D(-1, -1, -1), Index3D(3, 3, 1)))
  {
    ExampleSliceCubes(ExampleSlice);
    CubesBox(c, box);
  }

  lemma CubesBox(c: Conway<Index3D>, box: Option<IndexingRange<Index3D>>)
    requires c.activeCubes == ExampleCubes && IsBoxOfInterest(Ops3D, c, box)
    ensures box == Some(IndexingRange(Index3D(-1, -1, -1), Index3D(3, 3, 1)))
  {
    assert Index3D(1, 0, 0) in c.activeCubes;
    ExampleGlb(c.activeCubes);
    ExampleLub(c.activeCubes);
    BoxFromBounds3D(c, box, Index3D(0, 0, 0), Index3D(2, 2, 0));
  }
}
