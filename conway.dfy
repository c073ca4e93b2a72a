/**
 * Day 17: Conway cubes in three or four dimensions. `Conway<Index>` is generic
 * over Swift's `Indexing` protocol; here the protocol's members travel as an
 * `IndexOps` record, and `Lawful` states the algebra the automaton relies on
 * (component-wise `min`/`max`, translation by `+`, the unit box and the
 * neighbour offsets), proved for `Index3D` and `Index4D` below.
 */
module ConwayCubes {
  import opened Wrappers
  import opened Seqs
  import opened Collections
  import opened IndexingRanges
  import opened Indexing

  /** The members of `Indexing` that `Conway` uses. */
  datatype IndexOps<!I> = IndexOps(
    indicesBetween: (I, I) --> seq<I>,
    unitPlus: I,
    unitMinus: I,
    neighborOffsets: seq<I>,
    plus: (I, I) -> I,
    min: (I, I) -> I,
    max: (I, I) -> I)

  /** The component-wise order, read off `min`. */
  predicate Le<I(==,!new)>(ops: IndexOps<I>, a: I, b: I)
  {
    ops.min(a, b) == a
  }

  ghost predicate MinLaws<I(!new)>(ops: IndexOps<I>)
  {
    (forall a, b {:trigger ops.min(a, b)} :: ops.min(a, b) == ops.min(b, a)) &&
    (forall a, b, c {:trigger ops.min(ops.min(a, b), c)} :: ops.min(ops.min(a, b), c) == ops.min(a, ops.min(b, c))) &&
    (forall a {:trigger ops.min(a, a)} :: ops.min(a, a) == a)
  }

  /** `max` is the join of the same order: `a <= b` exactly when `max(a, b) == b`. */
  ghost predicate MaxLaws<I(!new)>(ops: IndexOps<I>)
  {
    (forall a, b {:trigger ops.max(a, b)} :: ops.max(a, b) == ops.max(b, a)) &&
    (forall a, b, c {:trigger ops.max(ops.max(a, b), c)} :: ops.max(ops.max(a, b), c) == ops.max(a, ops.max(b, c))) &&
    (forall a {:trigger ops.max(a, a)} :: ops.max(a, a) == a) &&
    (forall a, b {:trigger ops.max(a, b)} :: ops.min(a, b) == a <==> ops.max(a, b) == b)
  }

  /** Translation distributes over `min`, `unitMinus` and `unitPlus` undo each other, and `unitMinus` steps down. */
  ghost predicate PlusLaws<I(!new)>(ops: IndexOps<I>)
  {
    (forall a, b, u {:trigger ops.plus(ops.min(a, b), u)} ::
      ops.plus(ops.min(a, b), u) == ops.min(ops.plus(a, u), ops.plus(b, u))) &&
    (forall a {:trigger ops.plus(ops.plus(a, ops.unitMinus), ops.unitPlus)} ::
      ops.plus(ops.plus(a, ops.unitMinus), ops.unitPlus) == a) &&
    (forall a {:trigger ops.plus(ops.plus(a, ops.unitPlus), ops.unitMinus)} ::
      ops.plus(ops.plus(a, ops.unitPlus), ops.unitMinus) == a) &&
    (forall a {:trigger ops.plus(a, ops.unitMinus)} :: Le(ops, ops.plus(a, ops.unitMinus), a))
  }

  /** Every neighbour lies within one unit of the cell on each axis. */
  ghost predicate NeighborLaws<I(!new)>(ops: IndexOps<I>)
  {
    forall a, k {:trigger ops.plus(a, ops.neighborOffsets[k])} :: 0 <= k < |ops.neighborOffsets| ==>
      Le(ops, ops.plus(ops.plus(a, ops.neighborOffsets[k]), ops.unitMinus), a) &&
      Le(ops, a, ops.plus(ops.plus(a, ops.neighborOffsets[k]), ops.unitPlus))
  }

  /** `indicesBetween(lo, hi)` enumerates the box, each point being `lo <= p <= hi`. */
  ghost predicate BoxLaws<I(!new)>(ops: IndexOps<I>)
  {
    (forall lo, hi {:trigger Le(ops, lo, hi)} :: Le(ops, lo, hi) ==> ops.indicesBetween.requires(lo, hi)) &&
    (forall lo, hi, p :: Le(ops, lo, hi) ==> (p in ops.indicesBetween(lo, hi) <==> Le(ops, lo, p) && Le(ops, p, hi)))
  }

  ghost predicate Lawful<I(!new)>(ops: IndexOps<I>)
  {
    MinLaws(ops) && MaxLaws(ops) && PlusLaws(ops) && NeighborLaws(ops) && BoxLaws(ops)
  }

  lemma LeTrans<I(!new)>(ops: IndexOps<I>, a: I, b: I, c: I)
    requires MinLaws(ops) && Le(ops, a, b) && Le(ops, b, c)
    ensures Le(ops, a, c)
  {
    calc {
      ops.min(a, c);
      ops.min(ops.min(a, b), c);
      ops.min(a, ops.min(b, c));
      ops.min(a, b);
    }
  }

  lemma LeAntisymmetric<I(!new)>(ops: IndexOps<I>, a: I, b: I)
    requires MinLaws(ops) && Le(ops, a, b) && Le(ops, b, a)
    ensures a == b
  {
    assert ops.min(a, b) == ops.min(b, a);
  }

  /** Translating both sides by the same amount keeps the order. */
  lemma LePlus<I(!new)>(ops: IndexOps<I>, a: I, b: I, u: I)
    requires PlusLaws(ops) && Le(ops, a, b)
    ensures Le(ops, ops.plus(a, u), ops.plus(b, u))
  {
    assert ops.plus(ops.min(a, b), u) == ops.min(ops.plus(a, u), ops.plus(b, u));
  }

  /** `m` is the greatest lower bound of `s`: what `reduce(first, Index.min)` computes. */
  ghost predicate IsGlb<I(!new)>(ops: IndexOps<I>, s: set<I>, m: I)
  {
    (forall a :: a in s ==> Le(ops, m, a)) &&
    (forall b :: (forall a :: a in s ==> Le(ops, b, a)) ==> Le(ops, b, m))
  }

  /** `m` is the least upper bound of `s`: what `reduce(first, Index.max)` computes. */
  ghost predicate IsLub<I(!new)>(ops: IndexOps<I>, s: set<I>, m: I)
  {
    (forall a :: a in s ==> Le(ops, a, m)) &&
    (forall b :: (forall a :: a in s ==> Le(ops, a, b)) ==> Le(ops, m, b))
  }

  lemma GlbStep<I(!new)>(ops: IndexOps<I>, s: set<I>, m: I, x: I)
    requires MinLaws(ops) && IsGlb(ops, s, m)
    ensures IsGlb(ops, s + {x}, ops.min(m, x))
  {
    var n := ops.min(m, x);
    assert Le(ops, n, m) by {
      calc {
        ops.min(n, m);
        ops.min(m, ops.min(m, x));
        ops.min(ops.min(m, m), x);
      }
    }
    assert Le(ops, n, x) by {
      calc {
        ops.min(n, x);
        ops.min(m, ops.min(x, x));
      }
    }
    forall a | a in s + {x} ensures Le(ops, n, a) {
      if a in s {
        LeTrans(ops, n, m, a);
      }
    }
    forall b | forall a :: a in s + {x} ==> Le(ops, b, a)
      ensures Le(ops, b, n)
    {
      assert Le(ops, b, m) && Le(ops, b, x);
      calc {
        ops.min(b, n);
        ops.min(ops.min(b, m), x);
        ops.min(b, x);
      }
    }
  }

  lemma LubStep<I(!new)>(ops: IndexOps<I>, s: set<I>, m: I, x: I)
    requires MinLaws(ops) && MaxLaws(ops) && IsLub(ops, s, m)
    ensures IsLub(ops, s + {x}, ops.max(m, x))
  {
    var n := ops.max(m, x);
    assert Le(ops, m, n) by {
      calc {
        ops.max(m, n);
        ops.max(ops.max(m, m), x);
      }
    }
    assert Le(ops, x, n) by {
      calc {
        ops.max(x, n);
        ops.max(n, x);
        ops.max(m, ops.max(x, x));
      }
    }
    forall a | a in s + {x} ensures Le(ops, a, n) {
      if a in s {
        LeTrans(ops, a, m, n);
      }
    }
    forall b | forall a :: a in s + {x} ==> Le(ops, a, b)
      ensures Le(ops, n, b)
    {
      assert Le(ops, m, b) && Le(ops, x, b);
      assert ops.max(m, b) == b && ops.max(x, b) == b;
      calc {
        ops.max(n, b);
        ops.max(m, ops.max(x, b));
      }
    }
  }

  /** The greatest lower bound of a set is unique, and so is the least upper bound. */
  lemma BoundsUnique<I(!new)>(ops: IndexOps<I>, s: set<I>, m: I, m': I, n: I, n': I)
    requires MinLaws(ops) && IsGlb(ops, s, m) && IsGlb(ops, s, m') && IsLub(ops, s, n) && IsLub(ops, s, n')
    ensures m == m' && n == n'
  {
    LeAntisymmetric(ops, m, m');
    LeAntisymmetric(ops, n, n');
  }

  /** The state of the automaton: the set of active cubes. */
  datatype Conway<I> = Conway(activeCubes: set<I>)

  /** `isActive`. */
  predicate IsActive<I(==,!new)>(c: Conway<I>, i: I)
  {
    i in c.activeCubes
  }

  /** `setActive(_:active:)`: only `i` changes, and it ends up as `active` says. */
  function SetActive<I(==,!new)>(c: Conway<I>, i: I, active: bool): (r: Conway<I>)
    ensures IsActive(r, i) == active
    ensures forall j :: j != i ==> (IsActive(r, j) <==> IsActive(c, j))
  {
    if active then Conway(c.activeCubes + {i}) else Conway(c.activeCubes - {i})
  }

  /** The cells `index + offset` for every neighbour offset, in offset order. */
  function Neighbors<I>(ops: IndexOps<I>, i: I): (r: seq<I>)
    ensures |r| == |ops.neighborOffsets|
  {
    Map(ops.neighborOffsets, o => ops.plus(i, o))
  }

  /** `isActive` as a filter. */
  function ActiveIn<I(==,!new)>(c: Conway<I>): I -> bool
  {
    p => IsActive(c, p)
  }

  /** Its negation. */
  function InactiveIn<I(==,!new)>(c: Conway<I>): I -> bool
  {
    p => !IsActive(c, p)
  }

  /** `neighborCubeCount`: the active cells among `index + offset` for every neighbour offset. */
  function NeighborCubeCount<I(==,!new)>(ops: IndexOps<I>, c: Conway<I>, i: I): (n: nat)
    ensures n <= |ops.neighborOffsets|
  {
    FilterLength(Neighbors(ops, i), ActiveIn(c));
    |Filter(Neighbors(ops, i), ActiveIn(c))|
  }

  /** The count is positive exactly when some neighbour is active. */
  lemma NeighborCubeCountZero<I(!new)>(ops: IndexOps<I>, c: Conway<I>, i: I)
    ensures NeighborCubeCount(ops, c, i) > 0 <==>
      exists k :: 0 <= k < |ops.neighborOffsets| && IsActive(c, ops.plus(i, ops.neighborOffsets[k]))
  {
    var neighbors := Neighbors(ops, i);
    var active := Filter(neighbors, ActiveIn(c));
    if |active| > 0 {
      InFilter(neighbors, ActiveIn(c), active[0]);
      var o := MapInv(ops.neighborOffsets, o => ops.plus(i, o), active[0]);
      var k :| 0 <= k < |ops.neighborOffsets| && ops.neighborOffsets[k] == o;
    }
    if k :| 0 <= k < |ops.neighborOffsets| && IsActive(c, ops.plus(i, ops.neighborOffsets[k])) {
      InMap(ops.neighborOffsets, o => ops.plus(i, o), ops.neighborOffsets[k]);
      InFilter(neighbors, ActiveIn(c), ops.plus(i, ops.neighborOffsets[k]));
    }
  }

  lemma {:induction false} FilterComplement<A>(s: seq<A>, p: A -> bool, q: A -> bool)
    requires forall x :: q(x) == !p(x)
    ensures |Filter(s, p)| + |Filter(s, q)| == |s|
  {
    if s != [] {
      FilterComplement(s[1..], p, q);
    }
  }

  /** The neighbours that are not counted are exactly the inactive ones. */
  lemma NeighborCubeCountComplement<I(!new)>(ops: IndexOps<I>, c: Conway<I>, i: I)
    ensures |ops.neighborOffsets| - NeighborCubeCount(ops, c, i) == |Filter(Neighbors(ops, i), InactiveIn(c))|
  {
    FilterComplement(Neighbors(ops, i), ActiveIn(c), InactiveIn(c));
  }

  /** `willBeActive`: an active cube stays with 2 or 3 active neighbours, an inactive one wakes with exactly 3. */
  predicate WillBeActive<I(==,!new)>(ops: IndexOps<I>, c: Conway<I>, i: I)
  {
    match (IsActive(c, i), NeighborCubeCount(ops, c, i))
    case (true, 2) => true
    case (true, 3) => true
    case (true, _) => false
    case (false, 3) => true
    case (false, _) => false
  }

  /** The rule, stated on its own terms. */
  lemma WillBeActiveSpec<I(!new)>(ops: IndexOps<I>, c: Conway<I>, i: I)
    ensures IsActive(c, i) ==> (WillBeActive(ops, c, i) <==> 2 <= NeighborCubeCount(ops, c, i) <= 3)
    ensures !IsActive(c, i) ==> (WillBeActive(ops, c, i) <==> NeighborCubeCount(ops, c, i) == 3)
  {
  }

  /** What `boxOfInterest` promises: `nil` for no active cube, else the bounds of the active cubes padded by one unit. */
  ghost predicate IsBoxOfInterest<I(!new)>(ops: IndexOps<I>, c: Conway<I>, box: Option<IndexingRange<I>>)
  {
    (box.None? <==> c.activeCubes == {}) &&
    (box.Some? ==>
      IsGlb(ops, c.activeCubes, ops.plus(box.value.min, ops.unitPlus)) &&
      IsLub(ops, c.activeCubes, ops.plus(box.value.max, ops.unitMinus)))
  }

  /** A single cube is its own greatest lower and least upper bound. */
  lemma SingletonBounds<I(!new)>(ops: IndexOps<I>, x: I)
    requires MinLaws(ops) && MaxLaws(ops)
    ensures IsGlb(ops, {x}, x) && IsLub(ops, {x}, x)
  {
    assert ops.min(x, x) == x && ops.max(x, x) == x;
    forall b | forall a :: a in {x} ==> Le(ops, b, a) ensures Le(ops, b, x) {
      assert x in {x};
    }
    forall b | forall a :: a in {x} ==> Le(ops, a, b) ensures Le(ops, x, b) {
      assert x in {x};
    }
  }

  /** Moving `x` from `rest` to `seen` keeps their union. */
  lemma MoveOne<I>(seen: set<I>, rest: set<I>, all: set<I>, x: I)
    requires seen + rest == all && x in rest
    ensures (seen + {x}) + (rest - {x}) == all
  {
  }

  /** Once `rest` is empty, `seen` is everything. */
  lemma NoneLeft<I>(seen: set<I>, rest: set<I>, all: set<I>)
    requires seen + rest == all && rest == {}
    ensures seen == all
  {
  }

  /** Bounds `lo` and `hi` of the active cubes, padded by one unit, are a box of interest. */
  lemma Padded<I(!new)>(ops: IndexOps<I>, c: Conway<I>, lo: I, hi: I)
    requires PlusLaws(ops) && c.activeCubes != {}
    requires IsGlb(ops, c.activeCubes, lo) && IsLub(ops, c.activeCubes, hi)
    ensures IsBoxOfInterest(ops, c, Some(IndexingRange(ops.plus(lo, ops.unitMinus), ops.plus(hi, ops.unitPlus))))
  {
    assert ops.plus(ops.plus(lo, ops.unitMinus), ops.unitPlus) == lo;
    assert ops.plus(ops.plus(hi, ops.unitPlus), ops.unitMinus) == hi;
  }

  /** `boxOfInterest`: `min` and `max` folded over the active cubes from the first one, then one unit out. */
  method BoxOfInterest<I(==,!new)>(ops: IndexOps<I>, c: Conway<I>) returns (box: Option<IndexingRange<I>>)
    requires MinLaws(ops) && MaxLaws(ops) && PlusLaws(ops)
    ensures IsBoxOfInterest(ops, c, box)
  {
    if c.activeCubes == {} {
      return None;
    }
    var lo, hi := Bounds(ops, c.activeCubes);
    Padded(ops, c, lo, hi);
    box := Some(IndexingRange(ops.plus(lo, ops.unitMinus), ops.plus(hi, ops.unitPlus)));
  }

  /** The two folds of `boxOfInterest`: `reduceFirst(min)` and `reduceFirst(max)` over the cubes. */
  method Bounds<I(==,!new)>(ops: IndexOps<I>, cubes: set<I>) returns (lo: I, hi: I)
    requires MinLaws(ops) && MaxLaws(ops) && cubes != {}
    ensures IsGlb(ops, cubes, lo) && IsLub(ops, cubes, hi)
  {
    var first := Pick(cubes);
    lo, hi := first, first;
    var rest := cubes - {first};
    ghost var seen := {first};
    SingletonBounds(ops, first);
    while rest != {}
      invariant seen + rest == cubes
      invariant IsGlb(ops, seen, lo) && IsLub(ops, seen, hi)
      decreases |rest|
    {
      var x := Pick(rest);
      GlbStep(ops, seen, lo, x);
      LubStep(ops, seen, hi, x);
      lo, hi := ops.min(lo, x), ops.max(hi, x);
      MoveOne(seen, rest, cubes, x);
      seen, rest := seen + {x}, rest - {x};
    }
    NoneLeft(seen, rest, cubes);
  }

  /**
   * Every cube that is active or has an active neighbour lies in the box of
   * interest; in particular every cube that can be active after a cycle does.
   */
  lemma NearActiveInBox<I(!new)>(ops: IndexOps<I>, c: Conway<I>, box: IndexingRange<I>, i: I)
    requires MinLaws(ops) && PlusLaws(ops) && NeighborLaws(ops)
    requires IsBoxOfInterest(ops, c, Some(box)) && (IsActive(c, i) || NeighborCubeCount(ops, c, i) > 0)
    ensures Le(ops, box.min, i) && Le(ops, i, box.max)
  {
    var m, n := ops.plus(box.min, ops.unitPlus), ops.plus(box.max, ops.unitMinus);
    assert box.min == ops.plus(m, ops.unitMinus) && box.max == ops.plus(n, ops.unitPlus);
    // A cube `a` of the box's core [m, n] lies within one unit of `i`.
    var a, lo, hi;
    if IsActive(c, i) {
      a, lo, hi := i, ops.plus(i, ops.unitMinus), ops.plus(i, ops.unitPlus);
      assert Le(ops, i, hi) by {
        assert ops.plus(ops.plus(hi, ops.unitMinus), ops.unitPlus) == hi;
      }
    } else {
      NeighborCubeCountZero(ops, c, i);
      var k :| 0 <= k < |ops.neighborOffsets| && IsActive(c, ops.plus(i, ops.neighborOffsets[k]));
      a := ops.plus(i, ops.neighborOffsets[k]);
      lo, hi := ops.plus(a, ops.unitMinus), ops.plus(a, ops.unitPlus);
    }
    assert a in c.activeCubes && Le(ops, lo, i) && Le(ops, i, hi);
    assert Le(ops, m, a) && Le(ops, a, n);
    LePlus(ops, m, a, ops.unitMinus);
    LeTrans(ops, box.min, lo, i);
    LePlus(ops, a, n, ops.unitPlus);
    LeTrans(ops, i, hi, box.max);
  }

  /** The padded box is never empty, so `indicesBetween` accepts it. */
  lemma BoxOrdered<I(!new)>(ops: IndexOps<I>, c: Conway<I>, box: IndexingRange<I>)
    requires MinLaws(ops) && PlusLaws(ops) && IsBoxOfInterest(ops, c, Some(box))
    ensures Le(ops, box.min, box.max)
  {
    var a :| a in c.activeCubes;
    var m, n := ops.plus(box.min, ops.unitPlus), ops.plus(box.max, ops.unitMinus);
    assert box.min == ops.plus(m, ops.unitMinus) && box.max == ops.plus(n, ops.unitPlus);
    LeTrans(ops, m, a, n);
    LeTrans(ops, box.min, m, n);
    assert Le(ops, n, box.max) by {
      assert ops.plus(ops.plus(box.max, ops.unitMinus), ops.unitPlus) == box.max;
    }
    LeTrans(ops, box.min, n, box.max);
  }

  /** The cubes of `box` that the rule activates, in `indicesBetween` order. */
  function ActiveInBox<I(==,!new)>(ops: IndexOps<I>, c: Conway<I>, box: IndexingRange<I>): seq<I>
    requires ops.indicesBetween.requires(box.min, box.max)
  {
    Filter(ops.indicesBetween(box.min, box.max), p => WillBeActive(ops, c, p))
  }

  /** The box of interest holds every cube the rule activates, so filtering it by the rule loses none. */
  lemma FilterBox<I(!new)>(ops: IndexOps<I>, c: Conway<I>, box: IndexingRange<I>, i: I)
    requires MinLaws(ops) && PlusLaws(ops) && NeighborLaws(ops) && BoxLaws(ops)
    requires IsBoxOfInterest(ops, c, Some(box))
    ensures Le(ops, box.min, box.max) && ops.indicesBetween.requires(box.min, box.max)
    ensures i in ActiveInBox(ops, c, box) <==> WillBeActive(ops, c, i)
  {
    BoxOrdered(ops, c, box);
    InFilter(ops.indicesBetween(box.min, box.max), p => WillBeActive(ops, c, p), i);
    if WillBeActive(ops, c, i) {
      NearActiveInBox(ops, c, box, i);
    }
  }

  /** Extending a prefix by one element adds exactly that element. */
  lemma PrefixStep<I>(s: seq<I>, k: nat, i: I)
    requires k < |s|
    ensures i in s[..k + 1] <==> i in s[..k] || i == s[k]
  {
    assert s[..k + 1] == s[..k] + [s[k]];
  }

  /** The whole prefix is the sequence itself. */
  lemma FullPrefix<I>(s: seq<I>)
    ensures s[..|s|] == s
  {
  }

  /**
   * `nextCycle`: the cubes of the box of interest that will be active, set
   * one by one in a fresh `Conway`. No cube outside the box could become
   * active, so the result is exactly the set of cubes the rule activates.
   * On an empty automaton `boxOfInterest()!` traps.
   */
  method NextCycle<I(==,!new)>(ops: IndexOps<I>, c: Conway<I>) returns (next: Conway<I>)
    requires Lawful(ops) && c.activeCubes != {}
    ensures forall i :: IsActive(next, i) <==> WillBeActive(ops, c, i)
  {
    next := Conway({});
    var box := BoxOfInterest(ops, c);
    FilterBox(ops, c, box.value, box.value.min);
    var indices := ActiveInBox(ops, c, box.value);
    for k := 0 to |indices|
      invariant forall i :: IsActive(next, i) <==> i in indices[..k]
    {
      forall i ensures i in indices[..k + 1] <==> i in indices[..k] || i == indices[k] {
        PrefixStep(indices, k, i);
      }
      next := SetActive(next, indices[k], true);
    }
    FullPrefix(indices);
    forall i ensures IsActive(next, i) <==> WillBeActive(ops, c, i) {
      FilterBox(ops, c, box.value, i);
    }
  }

  /** The cubes a slice activates: `cell(x, y)` wherever row `y`, column `x` holds '#', within the first row's width. */
  ghost function SliceCubes<I>(slice: seq<seq<char>>, cell: (int, int) -> I): set<I>
    requires |slice| > 0
  {
    set x, y | 0 <= x < |slice[0]| && 0 <= y < |slice| && y < |slice| && x < |slice[y]| && slice[y][x] == '#' :: cell(x, y)
  }

  /**
   * `setFromCubeSlice`: for each column of the first row and each row, a '#'
   * activates `cell(x, y)`. `first!` traps on an empty slice and `cubeSlice[y][x]`
   * on a row shorter than the first.
   */
  method SetFromCubeSlice<I(==,!new)>(c: Conway<I>, slice: seq<seq<char>>, cell: (int, int) -> I) returns (r: Conway<I>)
    requires |slice| > 0 && forall y :: 0 <= y < |slice| ==> |slice[y]| >= |slice[0]|
    ensures r.activeCubes == c.activeCubes + SliceCubes(slice, cell)
  {
    r := c;
    for x := 0 to |slice[0]|
      invariant r.activeCubes == c.activeCubes + set x', y | 0 <= x' < x && 0 <= y < |slice| && x' < |slice[y]| && slice[y][x'] == '#' :: cell(x', y)
    {
      ghost var before := r.activeCubes;
      for y := 0 to |slice|
        invariant r.activeCubes == before + set y' | 0 <= y' < y && slice[y'][x] == '#' :: cell(x, y')
      {
        if slice[y][x] == '#' {
          r := SetActive(r, cell(x, y), true);
        }
      }
    }
  }

  /** The 3D slice cell `(x, y, 0)`. */
  function Cell3D(x: int, y: int): Index3D
  {
    Index3D(x, y, 0)
  }

  /** The 4D slice cell `(x, y, 0, 0)`. */
  function Cell4D(x: int, y: int): Index4D
  {
    Index4D(x, y, 0, 0)
  }

  /** In 3D the slice activates `(x, y, 0)` exactly where row `y`, column `x` holds '#'. */
  lemma SliceCubes3D(slice: seq<seq<char>>, p: Index3D)
    requires |slice| > 0 && forall y :: 0 <= y < |slice| ==> |slice[y]| >= |slice[0]|
    ensures p in SliceCubes(slice, Cell3D) <==>
      p.z == 0 && 0 <= p.x < |slice[0]| && 0 <= p.y < |slice| && slice[p.y][p.x] == '#'
  {
    if p.z == 0 && 0 <= p.x < |slice[0]| && 0 <= p.y < |slice| && slice[p.y][p.x] == '#' {
      assert p == Cell3D(p.x, p.y);
    }
  }

  /** In 4D the slice activates `(x, y, 0, 0)` exactly where row `y`, column `x` holds '#'. */
  lemma SliceCubes4D(slice: seq<seq<char>>, p: Index4D)
    requires |slice| > 0 && forall y :: 0 <= y < |slice| ==> |slice[y]| >= |slice[0]|
    ensures p in SliceCubes(slice, Cell4D) <==>
      p.z == 0 && p.zz == 0 && 0 <= p.x < |slice[0]| && 0 <= p.y < |slice| && slice[p.y][p.x] == '#'
  {
    if p.z == 0 && p.zz == 0 && 0 <= p.x < |slice[0]| && 0 <= p.y < |slice| && slice[p.y][p.x] == '#' {
      assert p == Cell4D(p.x, p.y);
    }
  }

  const Ops3D: IndexOps<Index3D> := IndexOps(
    Index3D.IndicesBetween, Index3D.UnitPlus, Index3D.UnitMinus, Index3D.NeighborOffsets,
    Index3D.Plus, Index3D.Min, Index3D.Max)

  const Ops4D: IndexOps<Index4D> := IndexOps(
    Index4D.IndicesBetween, Index4D.UnitPlus, Index4D.UnitMinus, Index4D.NeighborOffsets,
    Index4D.Plus, Index4D.Min, Index4D.Max)

  lemma Le3D(a: Index3D, b: Index3D)
    ensures Le(Ops3D, a, b) <==> Index3D.Le(a, b)
  {
  }

  lemma MinLaws3D()
    ensures MinLaws(Ops3D)
  {
    forall a: Index3D, b: Index3D ensures Ops3D.min(a, b) == Ops3D.min(b, a) {
    }
    forall a: Index3D, b: Index3D, c: Index3D
      ensures Ops3D.min(Ops3D.min(a, b), c) == Ops3D.min(a, Ops3D.min(b, c))
    {
    }
  }

  lemma MaxLaws3D()
    ensures MaxLaws(Ops3D)
  {
    forall a: Index3D, b: Index3D ensures Ops3D.max(a, b) == Ops3D.max(b, a) {
    }
    forall a: Index3D, b: Index3D, c: Index3D
      ensures Ops3D.max(Ops3D.max(a, b), c) == Ops3D.max(a, Ops3D.max(b, c))
    {
    }
    forall a: Index3D, b: Index3D ensures Ops3D.min(a, b) == a <==> Ops3D.max(a, b) == b {
    }
  }

  lemma PlusLaws3D()
    ensures PlusLaws(Ops3D)
  {
    forall a: Index3D, b: Index3D, u: Index3D
      ensures Ops3D.plus(Ops3D.min(a, b), u) == Ops3D.min(Ops3D.plus(a, u), Ops3D.plus(b, u))
    {
      PlusMin3D(a, b, u);
    }
    forall a: Index3D ensures Ops3D.plus(Ops3D.plus(a, Ops3D.unitMinus), Ops3D.unitPlus) == a {
      PlusUnits3D(a);
    }
    forall a: Index3D ensures Ops3D.plus(Ops3D.plus(a, Ops3D.unitPlus), Ops3D.unitMinus) == a {
      PlusUnits3D(a);
    }
    forall a: Index3D ensures Le(Ops3D, Ops3D.plus(a, Ops3D.unitMinus), a) {
      PlusUnits3D(a);
      Le3D(Ops3D.plus(a, Ops3D.unitMinus), a);
    }
  }

  lemma PlusUnits3D(a: Index3D)
    ensures Index3D.Plus(Index3D.Plus(a, Index3D.UnitMinus), Index3D.UnitPlus) == a
    ensures Index3D.Plus(Index3D.Plus(a, Index3D.UnitPlus), Index3D.UnitMinus) == a
    ensures Index3D.Le(Index3D.Plus(a, Index3D.UnitMinus), a)
  {
  }

  lemma PlusMin3D(a: Index3D, b: Index3D, u: Index3D)
    ensures Index3D.Plus(Index3D.Min(a, b), u) == Index3D.Min(Index3D.Plus(a, u), Index3D.Plus(b, u))
  {
  }

  lemma NeighborLaws3D()
    ensures NeighborLaws(Ops3D)
  {
    NeighborOffsetsMembers3D();
    forall a: Index3D, k | 0 <= k < |Ops3D.neighborOffsets|
      ensures Le(Ops3D, Ops3D.plus(Ops3D.plus(a, Ops3D.neighborOffsets[k]), Ops3D.unitMinus), a)
      ensures Le(Ops3D, a, Ops3D.plus(Ops3D.plus(a, Ops3D.neighborOffsets[k]), Ops3D.unitPlus))
    {
      var o := Ops3D.neighborOffsets[k];
      assert o in Index3D.NeighborOffsets;
      NeighborInBox3D(a, o);
    }
  }

  /** A point moved by an offset of at most one per axis stays within one unit of where it was. */
  lemma NeighborInBox3D(a: Index3D, o: Index3D)
    requires -1 <= o.x <= 1 && -1 <= o.y <= 1 && -1 <= o.z <= 1
    ensures Le(Ops3D, Ops3D.plus(Ops3D.plus(a, o), Ops3D.unitMinus), a)
    ensures Le(Ops3D, a, Ops3D.plus(Ops3D.plus(a, o), Ops3D.unitPlus))
  {
    Le3D(Ops3D.plus(Ops3D.plus(a, o), Ops3D.unitMinus), a);
    Le3D(a, Ops3D.plus(Ops3D.plus(a, o), Ops3D.unitPlus));
  }

  lemma BoxLaws3D()
    ensures BoxLaws(Ops3D)
  {
    forall lo: Index3D, hi: Index3D | Le(Ops3D, lo, hi) ensures Ops3D.indicesBetween.requires(lo, hi) {
      Le3D(lo, hi);
    }
    forall lo: Index3D, hi: Index3D, p: Index3D | Le(Ops3D, lo, hi)
      ensures p in Ops3D.indicesBetween(lo, hi) <==> Le(Ops3D, lo, p) && Le(Ops3D, p, hi)
    {
      Le3D(lo, hi);
      Le3D(lo, p);
      Le3D(p, hi);
      IndicesBetweenSpec3D(lo, hi);
    }
  }

  /** `Index3D` satisfies the laws. */
  lemma Lawful3D()
    ensures Lawful(Ops3D)
  {
    MinLaws3D();
    MaxLaws3D();
    PlusLaws3D();
    NeighborLaws3D();
    BoxLaws3D();
  }

  lemma Le4D(a: Index4D, b: Index4D)
    ensures Le(Ops4D, a, b) <==> Index4D.Le(a, b)
  {
  }

  lemma MinLaws4D()
    ensures MinLaws(Ops4D)
  {
    forall a: Index4D, b: Index4D ensures Ops4D.min(a, b) == Ops4D.min(b, a) {
    }
    forall a: Index4D, b: Index4D, c: Index4D
      ensures Ops4D.min(Ops4D.min(a, b), c) == Ops4D.min(a, Ops4D.min(b, c))
    {
    }
  }

  lemma MaxLaws4D()
    ensures MaxLaws(Ops4D)
  {
    forall a: Index4D, b: Index4D ensures Ops4D.max(a, b) == Ops4D.max(b, a) {
    }
    forall a: Index4D, b: Index4D, c: Index4D
      ensures Ops4D.max(Ops4D.max(a, b), c) == Ops4D.max(a, Ops4D.max(b, c))
    {
    }
    forall a: Index4D, b: Index4D ensures Ops4D.min(a, b) == a <==> Ops4D.max(a, b) == b {
    }
  }

  lemma PlusLaws4D()
    ensures PlusLaws(Ops4D)
  {
    forall a: Index4D, b: Index4D, u: Index4D
      ensures Ops4D.plus(Ops4D.min(a, b), u) == Ops4D.min(Ops4D.plus(a, u), Ops4D.plus(b, u))
    {
      PlusMin4D(a, b, u);
    }
    forall a: Index4D ensures Ops4D.plus(Ops4D.plus(a, Ops4D.unitMinus), Ops4D.unitPlus) == a {
      PlusUnits4D(a);
    }
    forall a: Index4D ensures Ops4D.plus(Ops4D.plus(a, Ops4D.unitPlus), Ops4D.unitMinus) == a {
      PlusUnits4D(a);
    }
    forall a: Index4D ensures Le(Ops4D, Ops4D.plus(a, Ops4D.unitMinus), a) {
      PlusUnits4D(a);
      Le4D(Ops4D.plus(a, Ops4D.unitMinus), a);
    }
  }

  lemma PlusUnits4D(a: Index4D)
    ensures Index4D.Plus(Index4D.Plus(a, Index4D.UnitMinus), Index4D.UnitPlus) == a
    ensures Index4D.Plus(Index4D.Plus(a, Index4D.UnitPlus), Index4D.UnitMinus) == a
    ensures Index4D.Le(Index4D.Plus(a, Index4D.UnitMinus), a)
  {
  }

  lemma PlusMin4D(a: Index4D, b: Index4D, u: Index4D)
    ensures Index4D.Plus(Index4D.Min(a, b), u) == Index4D.Min(Index4D.Plus(a, u), Index4D.Plus(b, u))
  {
  }

  lemma NeighborLaws4D()
    ensures NeighborLaws(Ops4D)
  {
    NeighborOffsetsMembers4D();
    forall a: Index4D, k | 0 <= k < |Ops4D.neighborOffsets|
      ensures Le(Ops4D, Ops4D.plus(Ops4D.plus(a, Ops4D.neighborOffsets[k]), Ops4D.unitMinus), a)
      ensures Le(Ops4D, a, Ops4D.plus(Ops4D.plus(a, Ops4D.neighborOffsets[k]), Ops4D.unitPlus))
    {
      var o := Ops4D.neighborOffsets[k];
      assert o in Index4D.NeighborOffsets;
      NeighborInBox4D(a, o);
    }
  }

  /** A point moved by an offset of at most one per axis stays within one unit of where it was. */
  lemma NeighborInBox4D(a: Index4D, o: Index4D)
    requires -1 <= o.x <= 1 && -1 <= o.y <= 1 && -1 <= o.z <= 1 && -1 <= o.zz <= 1
    ensures Le(Ops4D, Ops4D.plus(Ops4D.plus(a, o), Ops4D.unitMinus), a)
    ensures Le(Ops4D, a, Ops4D.plus(Ops4D.plus(a, o), Ops4D.unitPlus))
  {
    Le4D(Ops4D.plus(Ops4D.plus(a, o), Ops4D.unitMinus), a);
    Le4D(a, Ops4D.plus(Ops4D.plus(a, o), Ops4D.unitPlus));
  }

  lemma BoxLaws4D()
    ensures BoxLaws(Ops4D)
  {
    forall lo: Index4D, hi: Index4D | Le(Ops4D, lo, hi) ensures Ops4D.indicesBetween.requires(lo, hi) {
      Le4D(lo, hi);
    }
    forall lo: Index4D, hi: Index4D, p: Index4D | Le(Ops4D, lo, hi)
      ensures p in Ops4D.indicesBetween(lo, hi) <==> Le(Ops4D, lo, p) && Le(Ops4D, p, hi)
    {
      Le4D(lo, hi);
      Le4D(lo, p);
      Le4D(p, hi);
      IndicesBetweenSpec4D(lo, hi);
    }
  }

  /** `Index4D` satisfies the laws. */
  lemma Lawful4D()
    ensures Lawful(Ops4D)
  {
    MinLaws4D();
    MaxLaws4D();
    PlusLaws4D();
    NeighborLaws4D();
    BoxLaws4D();
  }

  /** A cube has 26 neighbours in 3D and 80 in 4D, so the counts stay within those. */
  lemma NeighborCubeCountBounds(c3: Conway<Index3D>, i3: Index3D, c4: Conway<Index4D>, i4: Index4D)
    ensures NeighborCubeCount(Ops3D, c3, i3) <= 26
    ensures NeighborCubeCount(Ops4D, c4, i4) <= 80
  {
    NeighborOffsetsCount3D();
    NeighborOffsetsCount4D();
  }
}
