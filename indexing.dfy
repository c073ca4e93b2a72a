/**
 * Fixed-dimension integer indices (`Index2D`, `Index3D`, `Index4D`): component
 * arrays, component-wise `+`, `min` and `max`, the unit constants, bounding-box
 * enumeration in a fixed order and the neighbour offsets derived from it.
 *
 * The nested closures of Swift's `flatMap { y in ... map { x in ... } }` are
 * named functions here (`RowAt`, `PlaneAt`, ...) so that lemmas can refer to the
 * very closures the enumeration uses.
 */
module Indexing {
  import opened Seqs
  import opened IndexingRanges

  // ---------------------------------------------------------------- 2D

  datatype Index2D = Index2D(x: int, y: int) {
    function Components(): (c: seq<int>)
      ensures |c| == ComponentCount
    {
      [x, y]
    }

    static const ComponentCount: nat := 2

    static function FromComponents(c: seq<int>): (p: Index2D)
      requires |c| == ComponentCount
      ensures p.Components() == c
    {
      Index2D(c[0], c[1])
    }

    static const Zero := Index2D(0, 0)
    static const UnitPlus := Index2D(1, 1)
    static const UnitMinus := Index2D(-1, -1)

    static function Plus(a: Index2D, b: Index2D): Index2D
    {
      Index2D(a.x + b.x, a.y + b.y)
    }

    static function Min(a: Index2D, b: Index2D): (m: Index2D)
      ensures Le(m, a) && Le(m, b)
      ensures forall c :: Le(c, a) && Le(c, b) ==> Le(c, m)
    {
      Index2D(if a.x <= b.x then a.x else b.x, if a.y <= b.y then a.y else b.y)
    }

    static function Max(a: Index2D, b: Index2D): (m: Index2D)
      ensures Le(a, m) && Le(b, m)
      ensures forall c :: Le(a, c) && Le(b, c) ==> Le(m, c)
    {
      Index2D(if a.x >= b.x then a.x else b.x, if a.y >= b.y then a.y else b.y)
    }

    /** Component-wise `<=`; the box `lo ... hi` is non-empty iff `Le(lo, hi)`. */
    static predicate Le(a: Index2D, b: Index2D)
    {
      a.x <= b.x && a.y <= b.y
    }

    /** Enumeration order: `y` is the slow axis, `x` the fast one. */
    static predicate Before(a: Index2D, b: Index2D)
    {
      a.y < b.y || (a.y == b.y && a.x < b.x)
    }

    /** The closure `{ x in Self(x, y) }`. */
    static function CellAt(y: int): int -> Index2D
    {
      x => Index2D(x, y)
    }

    /** The closure `{ y in (lo ... hi).map { x in Self(x, y) } }`. */
    static function RowAt(lo: int, hi: int): int -> seq<Index2D>
    {
      y => Map(Ints(lo, hi), CellAt(y))
    }

    /** `indicesBetween`; Swift's closed ranges trap unless `Le(i1, i2)`. */
    static function IndicesBetween(i1: Index2D, i2: Index2D): seq<Index2D>
      requires Le(i1, i2)
    {
      FlatMap(Ints(i1.y, i2.y), RowAt(i1.x, i2.x))
    }

    /** `indicesInRange`, the same enumeration taking an `IndexingRange`. */
    static function IndicesInRange(r: IndexingRange<Index2D>): seq<Index2D>
      requires Le(r.min, r.max)
    {
      IndicesBetween(r.min, r.max)
    }

    static predicate NonZero(o: Index2D)
    {
      o != Zero
    }

    /** `calculateNeighborOffsets`: the box `unitMinus ... unitPlus` without `zero`. */
    static const NeighborOffsets: seq<Index2D> := Filter(IndicesBetween(UnitMinus, UnitPlus), NonZero)
  }

  const Components2D := (p: Index2D) => p.Components()

  lemma ComponentsRoundTrip2D(p: Index2D)
    ensures Index2D.FromComponents(p.Components()) == p
  {
  }

  lemma PlusLaws2D(a: Index2D, b: Index2D, c: Index2D)
    ensures Index2D.Plus(a, b) == Index2D.Plus(b, a)
    ensures Index2D.Plus(Index2D.Plus(a, b), c) == Index2D.Plus(a, Index2D.Plus(b, c))
    ensures Index2D.Plus(a, Index2D.Zero) == a
    ensures Index2D.Plus(Index2D.UnitMinus, Index2D.UnitPlus) == Index2D.Zero
  {
  }

  lemma {:induction false} RowSpec2D(lo: int, hi: int, y: int)
    ensures var row := Index2D.RowAt(lo, hi)(y);
      |row| == |Ints(lo, hi)| &&
      (forall p :: p in row <==> lo <= p.x <= hi && p.y == y) &&
      SortedBy(row, Index2D.Before)
  {
    var row := Index2D.RowAt(lo, hi)(y);
    forall p ensures p in row <==> lo <= p.x <= hi && p.y == y {
      if p in row {
        var x := MapInv(Ints(lo, hi), Index2D.CellAt(y), p);
        InInts(lo, hi, x);
      }
      if lo <= p.x <= hi && p.y == y {
        InInts(lo, hi, p.x);
        InMap(Ints(lo, hi), Index2D.CellAt(y), p.x);
      }
    }
  }

  /** `indicesBetween` yields exactly the points of the box, with `x` fastest, each once. */
  lemma {:induction false} IndicesBetweenSpec2D(i1: Index2D, i2: Index2D)
    requires Index2D.Le(i1, i2)
    ensures var r := Index2D.IndicesBetween(i1, i2);
      |r| == (i2.x - i1.x + 1) * (i2.y - i1.y + 1) &&
      (forall p :: p in r <==> Index2D.Le(i1, p) && Index2D.Le(p, i2)) &&
      SortedBy(r, Index2D.Before) && Distinct(r)
  {
    var ys, f := Ints(i1.y, i2.y), Index2D.RowAt(i1.x, i2.x);
    var r := FlatMap(ys, f);
    forall y | y in ys ensures |f(y)| == i2.x - i1.x + 1 {
      RowSpec2D(i1.x, i2.x, y);
    }
    FlatMapLength(ys, f, i2.x - i1.x + 1);
    assert |r| == (i2.y - i1.y + 1) * (i2.x - i1.x + 1);
    BoxMembers2D(i1, i2);
    BoxSorted2D(i1, i2);
    SortedDistinct(r, Index2D.Before);
  }

  lemma BoxMembers2D(i1: Index2D, i2: Index2D)
    requires Index2D.Le(i1, i2)
    ensures forall p :: p in Index2D.IndicesBetween(i1, i2) <==> Index2D.Le(i1, p) && Index2D.Le(p, i2)
  {
    var ys, f := Ints(i1.y, i2.y), Index2D.RowAt(i1.x, i2.x);
    var r := FlatMap(ys, f);
    forall p ensures p in r <==> Index2D.Le(i1, p) && Index2D.Le(p, i2) {
      if p in r {
        var y := FlatMapInv(ys, f, p);
        RowSpec2D(i1.x, i2.x, y);
        InInts(i1.y, i2.y, y);
      }
      if Index2D.Le(i1, p) && Index2D.Le(p, i2) {
        RowSpec2D(i1.x, i2.x, p.y);
        InInts(i1.y, i2.y, p.y);
        InFlatMap(ys, f, p.y, p);
      }
    }
  }

  lemma BoxSorted2D(i1: Index2D, i2: Index2D)
    requires Index2D.Le(i1, i2)
    ensures SortedBy(Index2D.IndicesBetween(i1, i2), Index2D.Before)
  {
    var ys, f := Ints(i1.y, i2.y), Index2D.RowAt(i1.x, i2.x);
    forall y | y in ys ensures SortedBy(f(y), Index2D.Before) {
      RowSpec2D(i1.x, i2.x, y);
    }
    forall i, j, u, v | 0 <= i < j < |ys| && u in f(ys[i]) && v in f(ys[j])
      ensures Index2D.Before(u, v)
    {
      RowSpec2D(i1.x, i2.x, ys[i]);
      RowSpec2D(i1.x, i2.x, ys[j]);
    }
    FlatMapSorted(ys, f, Index2D.Before);
  }

  /** `contains` is the axis-wise bound test, and agrees with membership in `indicesInRange`. */
  lemma ContainsSpec2D(r: IndexingRange<Index2D>, p: Index2D)
    ensures Contains(r, Components2D, p) <==> Index2D.Le(r.min, p) && Index2D.Le(p, r.max)
    ensures Index2D.Le(r.min, r.max) ==> (Contains(r, Components2D, p) <==> p in Index2D.IndicesInRange(r))
  {
    assert Contains(r, Components2D, p) <==> Index2D.Le(r.min, p) && Index2D.Le(p, r.max) by {
      ContainsAxisWise(r, Components2D, p, 2);
      var lo, q, hi := Components2D(r.min), Components2D(p), Components2D(r.max);
      assert (forall k :: 0 <= k < 2 ==> lo[k] <= q[k] <= hi[k]) <==> lo[0] <= q[0] <= hi[0] && lo[1] <= q[1] <= hi[1];
    }
    if Index2D.Le(r.min, r.max) {
      IndicesBetweenSpec2D(r.min, r.max);
    }
  }

  /** There are 8 neighbour offsets; they are distinct, never zero, and have each component in {-1, 0, 1}. */
  lemma NeighborOffsetsCount2D()
    ensures |Index2D.NeighborOffsets| == 8
  {
    BoxWithoutPoint2D(Index2D.UnitMinus, Index2D.UnitPlus, Index2D.NeighborOffsets);
  }

  lemma NeighborOffsetsDistinct2D()
    ensures Distinct(Index2D.NeighborOffsets)
  {
    BoxWithoutPoint2D(Index2D.UnitMinus, Index2D.UnitPlus, Index2D.NeighborOffsets);
  }

  lemma NeighborOffsetsMembers2D()
    ensures forall o :: o in Index2D.NeighborOffsets <==> o != Index2D.Zero && -1 <= o.x <= 1 && -1 <= o.y <= 1
  {
    BoxWithoutPoint2D(Index2D.UnitMinus, Index2D.UnitPlus, Index2D.NeighborOffsets);
    forall o ensures o in Index2D.NeighborOffsets <==> o != Index2D.Zero && -1 <= o.x <= 1 && -1 <= o.y <= 1 {
      UnitBox2D(o);
    }
  }

  lemma UnitBox2D(o: Index2D)
    ensures Index2D.Le(Index2D.UnitMinus, o) && Index2D.Le(o, Index2D.UnitPlus) <==> -1 <= o.x <= 1 && -1 <= o.y <= 1
  {
  }

  lemma BoxWithoutPoint2D(lo: Index2D, hi: Index2D, r: seq<Index2D>)
    requires Index2D.Le(lo, Index2D.Zero) && Index2D.Le(Index2D.Zero, hi)
    requires r == Filter(Index2D.IndicesBetween(lo, hi), Index2D.NonZero)
    ensures |r| == (hi.x - lo.x + 1) * (hi.y - lo.y + 1) - 1 && Distinct(r) &&
      forall o :: o in r <==> o != Index2D.Zero && Index2D.Le(lo, o) && Index2D.Le(o, hi)
  {
    var box := Index2D.IndicesBetween(lo, hi);
    IndicesBetweenSpec2D(lo, hi);
    FilterDropsOne(box, Index2D.NonZero, Index2D.Zero);
    FilterSorted(box, Index2D.NonZero, Index2D.Before);
    SortedDistinct(r, Index2D.Before);
    forall o ensures o in r <==> o in box && o != Index2D.Zero {
      InFilter(box, Index2D.NonZero, o);
    }
  }

  // ---------------------------------------------------------------- 3D

  datatype Index3D = Index3D(x: int, y: int, z: int) {
    function Components(): (c: seq<int>)
      ensures |c| == ComponentCount
    {
      [x, y, z]
    }

    static const ComponentCount: nat := 3

    static function FromComponents(c: seq<int>): (p: Index3D)
      requires |c| == ComponentCount
      ensures p.Components() == c
    {
      Index3D(c[0], c[1], c[2])
    }

    static const Zero := Index3D(0, 0, 0)
    static const UnitPlus := Index3D(1, 1, 1)
    static const UnitMinus := Index3D(-1, -1, -1)

    static function Plus(a: Index3D, b: Index3D): Index3D
    {
      Index3D(a.x + b.x, a.y + b.y, a.z + b.z)
    }

    static function Min(a: Index3D, b: Index3D): (m: Index3D)
      ensures Le(m, a) && Le(m, b)
      ensures forall c :: Le(c, a) && Le(c, b) ==> Le(c, m)
    {
      Index3D(if a.x <= b.x then a.x else b.x, if a.y <= b.y then a.y else b.y,
              if a.z <= b.z then a.z else b.z)
    }

    static function Max(a: Index3D, b: Index3D): (m: Index3D)
      ensures Le(a, m) && Le(b, m)
      ensures forall c :: Le(a, c) && Le(b, c) ==> Le(m, c)
    {
      Index3D(if a.x >= b.x then a.x else b.x, if a.y >= b.y then a.y else b.y,
              if a.z >= b.z then a.z else b.z)
    }

    static predicate Le(a: Index3D, b: Index3D)
    {
      a.x <= b.x && a.y <= b.y && a.z <= b.z
    }

    /** Enumeration order: `z` slowest, then `y`, then `x` fastest. */
    static predicate Before(a: Index3D, b: Index3D)
    {
      a.z < b.z || (a.z == b.z && (a.y < b.y || (a.y == b.y && a.x < b.x)))
    }

    static function CellAt(y: int, z: int): int -> Index3D
    {
      x => Index3D(x, y, z)
    }

    static function RowAt(lo: int, hi: int, z: int): int -> seq<Index3D>
    {
      y => Map(Ints(lo, hi), CellAt(y, z))
    }

    static function PlaneAt(xlo: int, xhi: int, ylo: int, yhi: int): int -> seq<Index3D>
    {
      z => FlatMap(Ints(ylo, yhi), RowAt(xlo, xhi, z))
    }

    static function IndicesBetween(i1: Index3D, i2: Index3D): seq<Index3D>
      requires Le(i1, i2)
    {
      FlatMap(Ints(i1.z, i2.z), PlaneAt(i1.x, i2.x, i1.y, i2.y))
    }

    static function IndicesInRange(r: IndexingRange<Index3D>): seq<Index3D>
      requires Le(r.min, r.max)
    {
      IndicesBetween(r.min, r.max)
    }

    static predicate NonZero(o: Index3D)
    {
      o != Zero
    }

    static const NeighborOffsets: seq<Index3D> := Filter(IndicesBetween(UnitMinus, UnitPlus), NonZero)
  }

  const Components3D := (p: Index3D) => p.Components()

  lemma ComponentsRoundTrip3D(p: Index3D)
    ensures Index3D.FromComponents(p.Components()) == p
  {
  }

  lemma PlusLaws3D(a: Index3D, b: Index3D, c: Index3D)
    ensures Index3D.Plus(a, b) == Index3D.Plus(b, a)
    ensures Index3D.Plus(Index3D.Plus(a, b), c) == Index3D.Plus(a, Index3D.Plus(b, c))
    ensures Index3D.Plus(a, Index3D.Zero) == a
    ensures Index3D.Plus(Index3D.UnitMinus, Index3D.UnitPlus) == Index3D.Zero
  {
  }

  lemma {:induction false} RowSpec3D(lo: int, hi: int, y: int, z: int)
    ensures var row := Index3D.RowAt(lo, hi, z)(y);
      |row| == |Ints(lo, hi)| &&
      (forall p :: p in row <==> lo <= p.x <= hi && p.y == y && p.z == z) &&
      SortedBy(row, Index3D.Before)
  {
    var row := Index3D.RowAt(lo, hi, z)(y);
    forall p ensures p in row <==> lo <= p.x <= hi && p.y == y && p.z == z {
      if p in row {
        var x := MapInv(Ints(lo, hi), Index3D.CellAt(y, z), p);
        InInts(lo, hi, x);
      }
      if lo <= p.x <= hi && p.y == y && p.z == z {
        InInts(lo, hi, p.x);
        InMap(Ints(lo, hi), Index3D.CellAt(y, z), p.x);
      }
    }
  }

  lemma {:induction false} PlaneSpec3D(xlo: int, xhi: int, ylo: int, yhi: int, z: int)
    requires xlo <= xhi && ylo <= yhi
    ensures var plane := Index3D.PlaneAt(xlo, xhi, ylo, yhi)(z);
      |plane| == (xhi - xlo + 1) * (yhi - ylo + 1) &&
      (forall p :: p in plane <==> xlo <= p.x <= xhi && ylo <= p.y <= yhi && p.z == z) &&
      SortedBy(plane, Index3D.Before)
  {
    var ys, f := Ints(ylo, yhi), Index3D.RowAt(xlo, xhi, z);
    var plane := FlatMap(ys, f);
    forall y | y in ys ensures |f(y)| == xhi - xlo + 1 && SortedBy(f(y), Index3D.Before) {
      RowSpec3D(xlo, xhi, y, z);
    }
    FlatMapLength(ys, f, xhi - xlo + 1);
    forall p ensures p in plane <==> xlo <= p.x <= xhi && ylo <= p.y <= yhi && p.z == z {
      if p in plane {
        var y := FlatMapInv(ys, f, p);
        RowSpec3D(xlo, xhi, y, z);
        InInts(ylo, yhi, y);
      }
      if xlo <= p.x <= xhi && ylo <= p.y <= yhi && p.z == z {
        RowSpec3D(xlo, xhi, p.y, z);
        InInts(ylo, yhi, p.y);
        InFlatMap(ys, f, p.y, p);
      }
    }
    forall i, j, u, v | 0 <= i < j < |ys| && u in f(ys[i]) && v in f(ys[j])
      ensures Index3D.Before(u, v)
    {
      RowSpec3D(xlo, xhi, ys[i], z);
      RowSpec3D(xlo, xhi, ys[j], z);
    }
    FlatMapSorted(ys, f, Index3D.Before);
  }

  /** `indicesBetween` yields exactly the points of the box, `x` fastest and `z` slowest, each once. */
  lemma {:induction false} IndicesBetweenSpec3D(i1: Index3D, i2: Index3D)
    requires Index3D.Le(i1, i2)
    ensures var r := Index3D.IndicesBetween(i1, i2);
      |r| == (i2.x - i1.x + 1) * (i2.y - i1.y + 1) * (i2.z - i1.z + 1) &&
      (forall p :: p in r <==> Index3D.Le(i1, p) && Index3D.Le(p, i2)) &&
      SortedBy(r, Index3D.Before) && Distinct(r)
  {
    var zs, f := Ints(i1.z, i2.z), Index3D.PlaneAt(i1.x, i2.x, i1.y, i2.y);
    var r := FlatMap(zs, f);
    var area := (i2.x - i1.x + 1) * (i2.y - i1.y + 1);
    forall z | z in zs ensures |f(z)| == area && SortedBy(f(z), Index3D.Before) {
      PlaneSpec3D(i1.x, i2.x, i1.y, i2.y, z);
    }
    FlatMapLength(zs, f, area);
    assert |r| == (i2.z - i1.z + 1) * area;
    forall p ensures p in r <==> Index3D.Le(i1, p) && Index3D.Le(p, i2) {
      if p in r {
        var z := FlatMapInv(zs, f, p);
        PlaneSpec3D(i1.x, i2.x, i1.y, i2.y, z);
        InInts(i1.z, i2.z, z);
      }
      if Index3D.Le(i1, p) && Index3D.Le(p, i2) {
        PlaneSpec3D(i1.x, i2.x, i1.y, i2.y, p.z);
        InInts(i1.z, i2.z, p.z);
        InFlatMap(zs, f, p.z, p);
      }
    }
    forall i, j, u, v | 0 <= i < j < |zs| && u in f(zs[i]) && v in f(zs[j])
      ensures Index3D.Before(u, v)
    {
      PlaneSpec3D(i1.x, i2.x, i1.y, i2.y, zs[i]);
      PlaneSpec3D(i1.x, i2.x, i1.y, i2.y, zs[j]);
    }
    FlatMapSorted(zs, f, Index3D.Before);
    SortedDistinct(r, Index3D.Before);
  }

  lemma ContainsSpec3D(r: IndexingRange<Index3D>, p: Index3D)
    ensures Contains(r, Components3D, p) <==> Index3D.Le(r.min, p) && Index3D.Le(p, r.max)
    ensures Index3D.Le(r.min, r.max) ==> (Contains(r, Components3D, p) <==> p in Index3D.IndicesInRange(r))
  {
    assert Contains(r, Components3D, p) <==> Index3D.Le(r.min, p) && Index3D.Le(p, r.max) by {
      ContainsAxisWise(r, Components3D, p, 3);
      var lo, q, hi := Components3D(r.min), Components3D(p), Components3D(r.max);
      assert (forall k :: 0 <= k < 3 ==> lo[k] <= q[k] <= hi[k]) <==> lo[0] <= q[0] <= hi[0] && lo[1] <= q[1] <= hi[1] && lo[2] <= q[2] <= hi[2];
    }
    if Index3D.Le(r.min, r.max) {
      IndicesBetweenSpec3D(r.min, r.max);
    }
  }

  /** The box (-1,-1,-1) ... (3,3,1) of the cube example holds 75 indices. */
  lemma ExampleBoxCount3D()
    ensures |Index3D.IndicesBetween(Index3D(-1, -1, -1), Index3D(3, 3, 1))| == 75
  {
    IndicesBetweenSpec3D(Index3D(-1, -1, -1), Index3D(3, 3, 1));
  }

  lemma NeighborOffsetsCount3D()
    ensures |Index3D.NeighborOffsets| == 26
  {
    BoxWithoutPoint3D(Index3D.UnitMinus, Index3D.UnitPlus, Index3D.NeighborOffsets);
  }

  lemma NeighborOffsetsDistinct3D()
    ensures Distinct(Index3D.NeighborOffsets)
  {
    BoxWithoutPoint3D(Index3D.UnitMinus, Index3D.UnitPlus, Index3D.NeighborOffsets);
  }

  lemma NeighborOffsetsMembers3D()
    ensures forall o :: o in Index3D.NeighborOffsets <==> o != Index3D.Zero && -1 <= o.x <= 1 && -1 <= o.y <= 1 && -1 <= o.z <= 1
  {
    BoxWithoutPoint3D(Index3D.UnitMinus, Index3D.UnitPlus, Index3D.NeighborOffsets);
    forall o ensures o in Index3D.NeighborOffsets <==> o != Index3D.Zero && -1 <= o.x <= 1 && -1 <= o.y <= 1 && -1 <= o.z <= 1 {
      UnitBox3D(o);
    }
  }

  lemma UnitBox3D(o: Index3D)
    ensures Index3D.Le(Index3D.UnitMinus, o) && Index3D.Le(o, Index3D.UnitPlus) <==> -1 <= o.x <= 1 && -1 <= o.y <= 1 && -1 <= o.z <= 1
  {
  }

  lemma BoxWithoutPoint3D(lo: Index3D, hi: Index3D, r: seq<Index3D>)
    requires Index3D.Le(lo, Index3D.Zero) && Index3D.Le(Index3D.Zero, hi)
    requires r == Filter(Index3D.IndicesBetween(lo, hi), Index3D.NonZero)
    ensures |r| == (hi.x - lo.x + 1) * (hi.y - lo.y + 1) * (hi.z - lo.z + 1) - 1 && Distinct(r) &&
      forall o :: o in r <==> o != Index3D.Zero && Index3D.Le(lo, o) && Index3D.Le(o, hi)
  {
    var box := Index3D.IndicesBetween(lo, hi);
    IndicesBetweenSpec3D(lo, hi);
    FilterDropsOne(box, Index3D.NonZero, Index3D.Zero);
    FilterSorted(box, Index3D.NonZero, Index3D.Before);
    SortedDistinct(r, Index3D.Before);
    forall o ensures o in r <==> o in box && o != Index3D.Zero {
      InFilter(box, Index3D.NonZero, o);
    }
  }

  // ---------------------------------------------------------------- 4D

  datatype Index4D = Index4D(x: int, y: int, z: int, zz: int) {
    function Components(): (c: seq<int>)
      ensures |c| == ComponentCount
    {
      [x, y, z, zz]
    }

    static const ComponentCount: nat := 4

    static function FromComponents(c: seq<int>): (p: Index4D)
      requires |c| == ComponentCount
      ensures p.Components() == c
    {
      Index4D(c[0], c[1], c[2], c[3])
    }

    static const Zero := Index4D(0, 0, 0, 0)
    static const UnitPlus := Index4D(1, 1, 1, 1)
    static const UnitMinus := Index4D(-1, -1, -1, -1)

    static function Plus(a: Index4D, b: Index4D): Index4D
    {
      Index4D(a.x + b.x, a.y + b.y, a.z + b.z, a.zz + b.zz)
    }

    static function Min(a: Index4D, b: Index4D): (m: Index4D)
      ensures Le(m, a) && Le(m, b)
      ensures forall c :: Le(c, a) && Le(c, b) ==> Le(c, m)
    {
      Index4D(if a.x <= b.x then a.x else b.x, if a.y <= b.y then a.y else b.y,
              if a.z <= b.z then a.z else b.z, if a.zz <= b.zz then a.zz else b.zz)
    }

    static function Max(a: Index4D, b: Index4D): (m: Index4D)
      ensures Le(a, m) && Le(b, m)
      ensures forall c :: Le(a, c) && Le(b, c) ==> Le(m, c)
    {
      Index4D(if a.x >= b.x then a.x else b.x, if a.y >= b.y then a.y else b.y,
              if a.z >= b.z then a.z else b.z, if a.zz >= b.zz then a.zz else b.zz)
    }

    static predicate Le(a: Index4D, b: Index4D)
    {
      a.x <= b.x && a.y <= b.y && a.z <= b.z && a.zz <= b.zz
    }

    /** Enumeration order: `zz` slowest, then `z`, then `y`, then `x` fastest. */
    static predicate Before(a: Index4D, b: Index4D)
    {
      a.zz < b.zz || (a.zz == b.zz && (a.z < b.z || (a.z == b.z && (a.y < b.y || (a.y == b.y && a.x < b.x)))))
    }

    static function CellAt(y: int, z: int, zz: int): int -> Index4D
    {
      x => Index4D(x, y, z, zz)
    }

    static function RowAt(lo: int, hi: int, z: int, zz: int): int -> seq<Index4D>
    {
      y => Map(Ints(lo, hi), CellAt(y, z, zz))
    }

    static function PlaneAt(xlo: int, xhi: int, ylo: int, yhi: int, zz: int): int -> seq<Index4D>
    {
      z => FlatMap(Ints(ylo, yhi), RowAt(xlo, xhi, z, zz))
    }

    static function CubeAt(xlo: int, xhi: int, ylo: int, yhi: int, zlo: int, zhi: int): int -> seq<Index4D>
    {
      zz => FlatMap(Ints(zlo, zhi), PlaneAt(xlo, xhi, ylo, yhi, zz))
    }

    static function IndicesBetween(i1: Index4D, i2: Index4D): seq<Index4D>
      requires Le(i1, i2)
    {
      FlatMap(Ints(i1.zz, i2.zz), CubeAt(i1.x, i2.x, i1.y, i2.y, i1.z, i2.z))
    }

    static function IndicesInRange(r: IndexingRange<Index4D>): seq<Index4D>
      requires Le(r.min, r.max)
    {
      IndicesBetween(r.min, r.max)
    }

    static predicate NonZero(o: Index4D)
    {
      o != Zero
    }

    static const NeighborOffsets: seq<Index4D> := Filter(IndicesBetween(UnitMinus, UnitPlus), NonZero)
  }

  const Components4D := (p: Index4D) => p.Components()

  lemma ComponentsRoundTrip4D(p: Index4D)
    ensures Index4D.FromComponents(p.Components()) == p
  {
  }

  lemma PlusLaws4D(a: Index4D, b: Index4D, c: Index4D)
    ensures Index4D.Plus(a, b) == Index4D.Plus(b, a)
    ensures Index4D.Plus(Index4D.Plus(a, b), c) == Index4D.Plus(a, Index4D.Plus(b, c))
    ensures Index4D.Plus(a, Index4D.Zero) == a
    ensures Index4D.Plus(Index4D.UnitMinus, Index4D.UnitPlus) == Index4D.Zero
  {
  }

  lemma {:induction false} RowSpec4D(lo: int, hi: int, y: int, z: int, zz: int)
    ensures var row := Index4D.RowAt(lo, hi, z, zz)(y);
      |row| == |Ints(lo, hi)| &&
      (forall p :: p in row <==> lo <= p.x <= hi && p.y == y && p.z == z && p.zz == zz) &&
      SortedBy(row, Index4D.Before)
  {
    var row := Index4D.RowAt(lo, hi, z, zz)(y);
    forall p ensures p in row <==> lo <= p.x <= hi && p.y == y && p.z == z && p.zz == zz {
      if p in row {
        var x := MapInv(Ints(lo, hi), Index4D.CellAt(y, z, zz), p);
        InInts(lo, hi, x);
      }
      if lo <= p.x <= hi && p.y == y && p.z == z && p.zz == zz {
        InInts(lo, hi, p.x);
        InMap(Ints(lo, hi), Index4D.CellAt(y, z, zz), p.x);
      }
    }
  }

  lemma {:induction false} PlaneSpec4D(xlo: int, xhi: int, ylo: int, yhi: int, z: int, zz: int)
    requires xlo <= xhi && ylo <= yhi
    ensures var plane := Index4D.PlaneAt(xlo, xhi, ylo, yhi, zz)(z);
      |plane| == (xhi - xlo + 1) * (yhi - ylo + 1) &&
      (forall p :: p in plane <==> xlo <= p.x <= xhi && ylo <= p.y <= yhi && p.z == z && p.zz == zz) &&
      SortedBy(plane, Index4D.Before)
  {
    var ys, f := Ints(ylo, yhi), Index4D.RowAt(xlo, xhi, z, zz);
    var plane := FlatMap(ys, f);
    forall y | y in ys ensures |f(y)| == xhi - xlo + 1 && SortedBy(f(y), Index4D.Before) {
      RowSpec4D(xlo, xhi, y, z, zz);
    }
    FlatMapLength(ys, f, xhi - xlo + 1);
    forall p ensures p in plane <==> xlo <= p.x <= xhi && ylo <= p.y <= yhi && p.z == z && p.zz == zz {
      if p in plane {
        var y := FlatMapInv(ys, f, p);
        RowSpec4D(xlo, xhi, y, z, zz);
        InInts(ylo, yhi, y);
      }
      if xlo <= p.x <= xhi && ylo <= p.y <= yhi && p.z == z && p.zz == zz {
        RowSpec4D(xlo, xhi, p.y, z, zz);
        InInts(ylo, yhi, p.y);
        InFlatMap(ys, f, p.y, p);
      }
    }
    forall i, j, u, v | 0 <= i < j < |ys| && u in f(ys[i]) && v in f(ys[j])
      ensures Index4D.Before(u, v)
    {
      RowSpec4D(xlo, xhi, ys[i], z, zz);
      RowSpec4D(xlo, xhi, ys[j], z, zz);
    }
    FlatMapSorted(ys, f, Index4D.Before);
  }

  lemma {:induction false} CubeSpec4D(xlo: int, xhi: int, ylo: int, yhi: int, zlo: int, zhi: int, zz: int)
    requires xlo <= xhi && ylo <= yhi && zlo <= zhi
    ensures var cube := Index4D.CubeAt(xlo, xhi, ylo, yhi, zlo, zhi)(zz);
      |cube| == (xhi - xlo + 1) * (yhi - ylo + 1) * (zhi - zlo + 1) &&
      (forall p :: p in cube <==> xlo <= p.x <= xhi && ylo <= p.y <= yhi && zlo <= p.z <= zhi && p.zz == zz) &&
      SortedBy(cube, Index4D.Before)
  {
    var zs, f := Ints(zlo, zhi), Index4D.PlaneAt(xlo, xhi, ylo, yhi, zz);
    var cube := FlatMap(zs, f);
    var area := (xhi - xlo + 1) * (yhi - ylo + 1);
    forall z | z in zs ensures |f(z)| == area && SortedBy(f(z), Index4D.Before) {
      PlaneSpec4D(xlo, xhi, ylo, yhi, z, zz);
    }
    FlatMapLength(zs, f, area);
    forall p ensures p in cube <==> xlo <= p.x <= xhi && ylo <= p.y <= yhi && zlo <= p.z <= zhi && p.zz == zz {
      if p in cube {
        var z := FlatMapInv(zs, f, p);
        PlaneSpec4D(xlo, xhi, ylo, yhi, z, zz);
        InInts(zlo, zhi, z);
      }
      if xlo <= p.x <= xhi && ylo <= p.y <= yhi && zlo <= p.z <= zhi && p.zz == zz {
        PlaneSpec4D(xlo, xhi, ylo, yhi, p.z, zz);
        InInts(zlo, zhi, p.z);
        InFlatMap(zs, f, p.z, p);
      }
    }
    forall i, j, u, v | 0 <= i < j < |zs| && u in f(zs[i]) && v in f(zs[j])
      ensures Index4D.Before(u, v)
    {
      PlaneSpec4D(xlo, xhi, ylo, yhi, zs[i], zz);
      PlaneSpec4D(xlo, xhi, ylo, yhi, zs[j], zz);
    }
    FlatMapSorted(zs, f, Index4D.Before);
  }

  /** `indicesBetween` yields exactly the points of the box, `x` fastest and `zz` slowest, each once. */
  lemma {:induction false} IndicesBetweenSpec4D(i1: Index4D, i2: Index4D)
    requires Index4D.Le(i1, i2)
    ensures var r := Index4D.IndicesBetween(i1, i2);
      |r| == (i2.x - i1.x + 1) * (i2.y - i1.y + 1) * (i2.z - i1.z + 1) * (i2.zz - i1.zz + 1) &&
      (forall p :: p in r <==> Index4D.Le(i1, p) && Index4D.Le(p, i2)) &&
      SortedBy(r, Index4D.Before) && Distinct(r)
  {
    var zzs, f := Ints(i1.zz, i2.zz), Index4D.CubeAt(i1.x, i2.x, i1.y, i2.y, i1.z, i2.z);
    var r := FlatMap(zzs, f);
    var volume := (i2.x - i1.x + 1) * (i2.y - i1.y + 1) * (i2.z - i1.z + 1);
    forall zz | zz in zzs ensures |f(zz)| == volume && SortedBy(f(zz), Index4D.Before) {
      CubeSpec4D(i1.x, i2.x, i1.y, i2.y, i1.z, i2.z, zz);
    }
    FlatMapLength(zzs, f, volume);
    assert |r| == (i2.zz - i1.zz + 1) * volume;
    forall p ensures p in r <==> Index4D.Le(i1, p) && Index4D.Le(p, i2) {
      if p in r {
        var zz := FlatMapInv(zzs, f, p);
        CubeSpec4D(i1.x, i2.x, i1.y, i2.y, i1.z, i2.z, zz);
        InInts(i1.zz, i2.zz, zz);
      }
      if Index4D.Le(i1, p) && Index4D.Le(p, i2) {
        CubeSpec4D(i1.x, i2.x, i1.y, i2.y, i1.z, i2.z, p.zz);
        InInts(i1.zz, i2.zz, p.zz);
        InFlatMap(zzs, f, p.zz, p);
      }
    }
    forall i, j, u, v | 0 <= i < j < |zzs| && u in f(zzs[i]) && v in f(zzs[j])
      ensures Index4D.Before(u, v)
    {
      CubeSpec4D(i1.x, i2.x, i1.y, i2.y, i1.z, i2.z, zzs[i]);
      CubeSpec4D(i1.x, i2.x, i1.y, i2.y, i1.z, i2.z, zzs[j]);
    }
    FlatMapSorted(zzs, f, Index4D.Before);
    SortedDistinct(r, Index4D.Before);
  }

  lemma ContainsSpec4D(r: IndexingRange<Index4D>, p: Index4D)
    ensures Contains(r, Components4D, p) <==> Index4D.Le(r.min, p) && Index4D.Le(p, r.max)
    ensures Index4D.Le(r.min, r.max) ==> (Contains(r, Components4D, p) <==> p in Index4D.IndicesInRange(r))
  {
    assert Contains(r, Components4D, p) <==> Index4D.Le(r.min, p) && Index4D.Le(p, r.max) by {
      ContainsAxisWise(r, Components4D, p, 4);
      var lo, q, hi := Components4D(r.min), Components4D(p), Components4D(r.max);
      assert (forall k :: 0 <= k < 4 ==> lo[k] <= q[k] <= hi[k]) <==> lo[0] <= q[0] <= hi[0] && lo[1] <= q[1] <= hi[1] && lo[2] <= q[2] <= hi[2] && lo[3] <= q[3] <= hi[3];
    }
    if Index4D.Le(r.min, r.max) {
      IndicesBetweenSpec4D(r.min, r.max);
    }
  }

  lemma NeighborOffsetsCount4D()
    ensures |Index4D.NeighborOffsets| == 80
  {
    BoxWithoutPoint4D(Index4D.UnitMinus, Index4D.UnitPlus, Index4D.NeighborOffsets);
  }

  lemma NeighborOffsetsDistinct4D()
    ensures Distinct(Index4D.NeighborOffsets)
  {
    BoxWithoutPoint4D(Index4D.UnitMinus, Index4D.UnitPlus, Index4D.NeighborOffsets);
  }

  lemma NeighborOffsetsMembers4D()
    ensures forall o :: o in Index4D.NeighborOffsets <==> o != Index4D.Zero && -1 <= o.x <= 1 && -1 <= o.y <= 1 && -1 <= o.z <= 1 && -1 <= o.zz <= 1
  {
    BoxWithoutPoint4D(Index4D.UnitMinus, Index4D.UnitPlus, Index4D.NeighborOffsets);
    forall o ensures o in Index4D.NeighborOffsets <==> o != Index4D.Zero && -1 <= o.x <= 1 && -1 <= o.y <= 1 && -1 <= o.z <= 1 && -1 <= o.zz <= 1 {
      UnitBox4D(o);
    }
  }

  lemma UnitBox4D(o: Index4D)
    ensures Index4D.Le(Index4D.UnitMinus, o) && Index4D.Le(o, Index4D.UnitPlus) <==> -1 <= o.x <= 1 && -1 <= o.y <= 1 && -1 <= o.z <= 1 && -1 <= o.zz <= 1
  {
  }

  lemma BoxWithoutPoint4D(lo: Index4D, hi: Index4D, r: seq<Index4D>)
    requires Index4D.Le(lo, Index4D.Zero) && Index4D.Le(Index4D.Zero, hi)
    requires r == Filter(Index4D.IndicesBetween(lo, hi), Index4D.NonZero)
    ensures |r| == (hi.x - lo.x + 1) * (hi.y - lo.y + 1) * (hi.z - lo.z + 1) * (hi.zz - lo.zz + 1) - 1 &&
      Distinct(r) &&
      forall o :: o in r <==> o != Index4D.Zero && Index4D.Le(lo, o) && Index4D.Le(o, hi)
  {
    var box := Index4D.IndicesBetween(lo, hi);
    IndicesBetweenSpec4D(lo, hi);
    FilterDropsOne(box, Index4D.NonZero, Index4D.Zero);
    FilterSorted(box, Index4D.NonZero, Index4D.Before);
    SortedDistinct(r, Index4D.Before);
    forall o ensures o in r <==> o in box && o != Index4D.Zero {
      InFilter(box, Index4D.NonZero, o);
    }
  }
}
