/**
 * Day 24: a floor of hexagonal tiles in axial coordinates (`Index2D`). A tile
 * is named by the path of steps that reaches it from the reference tile;
 * `TileFloor` holds the set of black tiles, flips single tiles, and lives
 * one day at a time by a Conway-like rule over the six neighbours. The box
 * machinery of Day 17 (`ConwayCubes`) is reused with the hexagonal
 * neighbour offsets.
 */
module LobbyLayout {
  import opened Wrappers
  import opened Seqs
  import opened Collections
  import opened IndexingRanges
  import opened Indexing
  import opened SetToggle
  import opened ConwayCubes

  /** `Dir`: the six directions out of a hexagonal tile. */
  datatype Dir = E | SE | SW | W | NW | NE

  /** `Dir.allCases`, in declaration order. */
  const AllDirs: seq<Dir> := [E, SE, SW, W, NW, NE]

  /** One step to an adjacent hexagon in axial coordinates: hexagonal distance exactly one. */
  predicate IsHexStep(o: Index2D)
  {
    o != Index2D.Zero && -1 <= o.x <= 1 && -1 <= o.y <= 1 && -1 <= o.x + o.y <= 1
  }

  /** `Dir.offset`: the axial offset of each direction, a single hexagonal step. */
  function Offset(d: Dir): (o: Index2D)
    ensures IsHexStep(o)
  {
    match d
    case E => Index2D(1, 0)
    case SE => Index2D(0, 1)
    case SW => Index2D(-1, 1)
    case W => Index2D(-1, 0)
    case NW => Index2D(0, -1)
    case NE => Index2D(1, -1)
  }

  /** The six directions reach six different tiles, and every hexagonal step is one of them. */
  lemma OffsetBijective()
    ensures forall d, d' :: Offset(d) == Offset(d') ==> d == d'
    ensures forall o :: IsHexStep(o) ==> exists d :: Offset(d) == o
  {
    forall o | IsHexStep(o) ensures exists d :: Offset(d) == o {
      if o.x == 1 {
        assert Offset(if o.y == 0 then E else NE) == o;
      } else if o.x == 0 {
        assert Offset(if o.y == 1 then SE else NW) == o;
      } else {
        assert Offset(if o.y == 1 then SW else W) == o;
      }
    }
  }

  /** `TileFloor.neighborOffsets`: `Dir.allCases.map(\.offset)`. */
  const HexOffsets: seq<Index2D> := Map(AllDirs, Offset)

  /** The neighbour offsets are the six hexagonal steps, each once. */
  lemma HexOffsetsSpec()
    ensures |HexOffsets| == 6 && Distinct(HexOffsets)
    ensures forall o :: o in HexOffsets <==> IsHexStep(o)
  {
    OffsetBijective();
    var offs := [Index2D(1, 0), Index2D(0, 1), Index2D(-1, 1), Index2D(-1, 0), Index2D(0, -1), Index2D(1, -1)];
    assert HexOffsets == offs;
    forall o ensures o in offs <==> IsHexStep(o) {
      if IsHexStep(o) {
        var d :| Offset(d) == o;
        assert d in AllDirs;
      }
    }
  }

  /** One step of the `tileIndex` fold. */
  function Step(r: Index2D, d: Dir): Index2D
  {
    Index2D.Plus(r, Offset(d))
  }

  /** `tileIndex`: the offsets of a path folded onto `.zero`, from the first step to the last. */
  function TileIndexOf(dirs: seq<Dir>): Index2D
  {
    FoldLeft(Index2D.Zero, dirs, Step)
  }

  /** A path one step longer ends one step further. */
  lemma TileIndexSnoc(init: seq<Dir>, d: Dir)
    ensures TileIndexOf(init + [d]) == Index2D.Plus(TileIndexOf(init), Offset(d))
  {
    FoldLeftSnoc(Index2D.Zero, init, d, Step);
  }

  /** Net steps along the first axis. */
  function StepsX(dirs: seq<Dir>): int
  {
    Count(dirs, E) + Count(dirs, NE) - Count(dirs, W) - Count(dirs, SW)
  }

  /** Net steps along the second axis. */
  function StepsY(dirs: seq<Dir>): int
  {
    Count(dirs, SE) + Count(dirs, SW) - Count(dirs, NW) - Count(dirs, NE)
  }

  lemma {:induction false} FoldCounts(acc: Index2D, dirs: seq<Dir>)
    ensures FoldLeft(acc, dirs, Step) == Index2D(acc.x + StepsX(dirs), acc.y + StepsY(dirs))
    decreases |dirs|
  {
    if dirs != [] {
      FoldCounts(Step(acc, dirs[0]), dirs[1..]);
      match dirs[0]
      case E => case SE => case SW => case W => case NW => case NE =>
    }
  }

  /** Each axis of a tile index counts the steps along it, so only how often each direction occurs matters. */
  lemma TileIndexCounts(dirs: seq<Dir>)
    ensures TileIndexOf(dirs) == Index2D(
      Count(dirs, E) + Count(dirs, NE) - Count(dirs, W) - Count(dirs, SW),
      Count(dirs, SE) + Count(dirs, SW) - Count(dirs, NW) - Count(dirs, NE))
  {
    FoldCounts(Index2D.Zero, dirs);
  }

  lemma {:induction false} CountMultiset<A>(s: seq<A>, x: A)
    ensures Count(s, x) == multiset(s)[x]
  {
    if s != [] {
      CountMultiset(s[1..], x);
      assert s == [s[0]] + s[1..];
    }
  }

  /** Paths that take the same steps in any order lead to the same tile. */
  lemma TileIndexReordered(a: seq<Dir>, b: seq<Dir>)
    requires multiset(a) == multiset(b)
    ensures TileIndexOf(a) == TileIndexOf(b)
  {
    TileIndexCounts(a);
    TileIndexCounts(b);
    forall d ensures Count(a, d) == Count(b, d) {
      CountMultiset(a, d);
      CountMultiset(b, d);
    }
  }

  /** "nwwswee" leads back to the reference tile. */
  lemma NwwsweeReturns()
    ensures TileIndexOf([NW, W, SW, E, E]) == Index2D.Zero
  {
    TileIndexSnoc([], NW);
    TileIndexSnoc([NW], W);
    TileIndexSnoc([NW, W], SW);
    TileIndexSnoc([NW, W, SW], E);
    TileIndexSnoc([NW, W, SW, E], E);
  }

  /** The `Indexing` members of `TileIndex` with the hexagonal neighbours. */
  const OpsHex: IndexOps<Index2D> := IndexOps(
    Index2D.IndicesBetween, Index2D.UnitPlus, Index2D.UnitMinus, HexOffsets,
    Index2D.Plus, Index2D.Min, Index2D.Max)

  lemma LeHex(a: Index2D, b: Index2D)
    ensures Le(OpsHex, a, b) <==> Index2D.Le(a, b)
  {
  }

  lemma MinLawsHex()
    ensures MinLaws(OpsHex)
  {
    forall a: Index2D, b: Index2D ensures OpsHex.min(a, b) == OpsHex.min(b, a) {
    }
    forall a: Index2D, b: Index2D, c: Index2D
      ensures OpsHex.min(OpsHex.min(a, b), c) == OpsHex.min(a, OpsHex.min(b, c))
    {
    }
  }

  lemma MaxLawsHex()
    ensures MaxLaws(OpsHex)
  {
    forall a: Index2D, b: Index2D ensures OpsHex.max(a, b) == OpsHex.max(b, a) {
    }
    forall a: Index2D, b: Index2D, c: Index2D
      ensures OpsHex.max(OpsHex.max(a, b), c) == OpsHex.max(a, OpsHex.max(b, c))
    {
    }
    forall a: Index2D, b: Index2D ensures OpsHex.min(a, b) == a <==> OpsHex.max(a, b) == b {
    }
  }

  lemma PlusUnitsHex(a: Index2D)
    ensures Index2D.Plus(Index2D.Plus(a, Index2D.UnitMinus), Index2D.UnitPlus) == a
    ensures Index2D.Plus(Index2D.Plus(a, Index2D.UnitPlus), Index2D.UnitMinus) == a
    ensures Index2D.Le(Index2D.Plus(a, Index2D.UnitMinus), a)
  {
  }

  lemma PlusLawsHex()
    ensures PlusLaws(OpsHex)
  {
    forall a: Index2D, b: Index2D, u: Index2D
      ensures OpsHex.plus(OpsHex.min(a, b), u) == OpsHex.min(OpsHex.plus(a, u), OpsHex.plus(b, u))
    {
    }
    forall a: Index2D ensures OpsHex.plus(OpsHex.plus(a, OpsHex.unitMinus), OpsHex.unitPlus) == a {
      PlusUnitsHex(a);
    }
    forall a: Index2D ensures OpsHex.plus(OpsHex.plus(a, OpsHex.unitPlus), OpsHex.unitMinus) == a {
      PlusUnitsHex(a);
    }
    forall a: Index2D ensures Le(OpsHex, OpsHex.plus(a, OpsHex.unitMinus), a) {
      PlusUnitsHex(a);
      LeHex(OpsHex.plus(a, OpsHex.unitMinus), a);
    }
  }

  lemma NeighborLawsHex()
    ensures NeighborLaws(OpsHex)
  {
    HexOffsetsSpec();
    forall a: Index2D, k | 0 <= k < |OpsHex.neighborOffsets|
      ensures Le(OpsHex, OpsHex.plus(OpsHex.plus(a, OpsHex.neighborOffsets[k]), OpsHex.unitMinus), a)
      ensures Le(OpsHex, a, OpsHex.plus(OpsHex.plus(a, OpsHex.neighborOffsets[k]), OpsHex.unitPlus))
    {
      var o := OpsHex.neighborOffsets[k];
      assert o in HexOffsets;
      LeHex(OpsHex.plus(OpsHex.plus(a, o), OpsHex.unitMinus), a);
      LeHex(a, OpsHex.plus(OpsHex.plus(a, o), OpsHex.unitPlus));
    }
  }

  lemma BoxLawsHex()
    ensures BoxLaws(OpsHex)
  {
    forall lo: Index2D, hi: Index2D | Le(OpsHex, lo, hi) ensures OpsHex.indicesBetween.requires(lo, hi) {
      LeHex(lo, hi);
    }
    forall lo: Index2D, hi: Index2D, p: Index2D | Le(OpsHex, lo, hi)
      ensures p in OpsHex.indicesBetween(lo, hi) <==> Le(OpsHex, lo, p) && Le(OpsHex, p, hi)
    {
      LeHex(lo, hi);
      LeHex(lo, p);
      LeHex(p, hi);
      BoxMembers2D(lo, hi);
    }
  }

  /**
   * `TileFloor`: the set of black tiles; every other tile is white. The Swift
   * struct is a value, so `flip` yields the updated floor.
   */
  datatype TileFloor = TileFloor(blackTiles: set<Index2D>) {
    /** The floor seen as a Day 17 automaton whose active cells are the black tiles. */
    function Floor(): Conway<Index2D>
    {
      Conway(blackTiles)
    }

    /** `flip`: the tile changes colour, no other tile does. */
    function Flip(tile: Index2D): (r: TileFloor)
      ensures tile in r.blackTiles <==> tile !in blackTiles
      ensures forall t :: t != tile ==> (t in r.blackTiles <==> t in blackTiles)
    {
      TileFloor(Toggle(blackTiles, tile))
    }

    /** Flipping the same tile twice leaves the floor as it was. */
    lemma FlipTwice(tile: Index2D)
      ensures Flip(tile).Flip(tile) == this
    {
      ToggleTwice(blackTiles, tile);
    }

    /** `tiles.reduce(into: floor) { $0.flip($1) }`: a tile ends up flipped iff it is listed an odd number of times. */
    method FlipAll(tiles: seq<Index2D>) returns (r: TileFloor)
      ensures forall t :: t in r.blackTiles <==> (t in blackTiles) != (Count(tiles, t) % 2 == 1)
    {
      r := this;
      for i := 0 to |tiles|
        invariant forall t :: t in r.blackTiles <==> (t in blackTiles) != (Count(tiles[..i], t) % 2 == 1)
      {
        CountSnoc(tiles[..i], tiles[i]);
        assert tiles[..i + 1] == tiles[..i] + [tiles[i]];
        r := r.Flip(tiles[i]);
      }
      assert tiles[..|tiles|] == tiles;
    }

    /** `blackNeighbors`: how many of the six adjacent tiles are black. */
    function BlackNeighbors(tile: Index2D): (n: nat)
      ensures n <= 6
    {
      HexOffsetsSpec();
      NeighborCubeCount(OpsHex, Floor(), tile)
    }

    /** `whiteNeighbors`: the rest of the six. */
    function WhiteNeighbors(tile: Index2D): (n: int)
      ensures 0 <= n <= 6
    {
      |AllDirs| - BlackNeighbors(tile)
    }

    /** The white count is the number of adjacent tiles that are not black. */
    lemma WhiteNeighborsSpec(tile: Index2D)
      ensures WhiteNeighbors(tile) == |Filter(Neighbors(OpsHex, tile), InactiveIn(Floor()))|
    {
      HexOffsetsSpec();
      NeighborCubeCountComplement(OpsHex, Floor(), tile);
    }

    /** `BlackNeighbors` is zero exactly when no adjacent tile is black. */
    lemma BlackNeighborsZero(tile: Index2D)
      ensures BlackNeighbors(tile) == 0 <==> forall d :: Index2D.Plus(tile, Offset(d)) !in blackTiles
    {
      NeighborCubeCountZero(OpsHex, Floor(), tile);
      HexOffsetsSpec();
      if d :| Index2D.Plus(tile, Offset(d)) in blackTiles {
        assert Offset(d) in HexOffsets by {
          assert d in AllDirs;
        }
      }
      if k :| 0 <= k < |HexOffsets| && Index2D.Plus(tile, HexOffsets[k]) in blackTiles {
        assert HexOffsets[k] == Offset(AllDirs[k]);
      }
    }

    /** The switch in `dayProgress`: what colour a tile has the next day. */
    predicate WillBeBlack(tile: Index2D)
    {
      if tile in blackTiles then
        !(BlackNeighbors(tile) == 0 || BlackNeighbors(tile) > 2)
      else
        BlackNeighbors(tile) == 2
    }

    /** A black tile stays black with one or two black neighbours, a white tile turns black with exactly two. */
    lemma WillBeBlackSpec(tile: Index2D)
      ensures tile in blackTiles ==> (WillBeBlack(tile) <==> 1 <= BlackNeighbors(tile) <= 2)
      ensures tile !in blackTiles ==> (WillBeBlack(tile) <==> BlackNeighbors(tile) == 2)
      ensures WillBeBlack(tile) ==> tile in blackTiles || exists d :: Index2D.Plus(tile, Offset(d)) in blackTiles
    {
      BlackNeighborsZero(tile);
    }

    /**
     * `areaOfInterest`: `nil` on an all-white floor, else the component-wise
     * bounds of the black tiles (`reduceFirst(TileIndex.min)` and `max`)
     * moved one unit out.
     */
    method AreaOfInterest() returns (area: Option<IndexingRange<Index2D>>)
      ensures IsBoxOfInterest(OpsHex, Floor(), area)
    {
      MinLawsHex();
      MaxLawsHex();
      PlusLawsHex();
      area := BoxOfInterest(OpsHex, Floor());
    }

    /** The area of interest of a floor with a black tile is a non-empty box. */
    lemma AreaOrdered(box: IndexingRange<Index2D>)
      requires IsBoxOfInterest(OpsHex, Floor(), Some(box))
      ensures Index2D.Le(box.min, box.max)
    {
      MinLawsHex();
      PlusLawsHex();
      BoxOrdered(OpsHex, Floor(), box);
      LeHex(box.min, box.max);
    }

    /** A tile that can be black the next day lies in the area of interest. */
    lemma WillBeBlackInArea(box: IndexingRange<Index2D>, tile: Index2D)
      requires IsBoxOfInterest(OpsHex, Floor(), Some(box)) && WillBeBlack(tile)
      ensures Index2D.Le(box.min, box.max)
      ensures tile in Index2D.IndicesInRange(box)
    {
      AreaOrdered(box);
      assert tile in blackTiles || NeighborCubeCount(OpsHex, Floor(), tile) > 0;
      MinLawsHex();
      PlusLawsHex();
      NeighborLawsHex();
      NearActiveInBox(OpsHex, Floor(), box, tile);
      LeHex(box.min, tile);
      LeHex(tile, box.max);
      BoxMembers2D(box.min, box.max);
    }

    /**
     * `dayProgress`: every tile of the area of interest is given its colour
     * for the next day in a fresh floor. No tile outside the area can turn
     * black, so the new floor is exactly the rule applied everywhere.
     * `areaOfInterest()!` traps on an all-white floor.
     */
    method DayProgress() returns (next: TileFloor)
      requires blackTiles != {}
      ensures forall t :: t in next.blackTiles <==> WillBeBlack(t)
    {
      var nextDayBlackTiles: set<Index2D> := {};
      var range := AreaOfInterest();
      var box := range.value;
      AreaOrdered(box);
      var tiles := Index2D.IndicesInRange(box);
      for k := 0 to |tiles|
        invariant forall t :: t in nextDayBlackTiles <==> t in tiles[..k] && WillBeBlack(t)
      {
        forall t ensures t in tiles[..k + 1] <==> t in tiles[..k] || t == tiles[k] {
          PrefixStep(tiles, k, t);
        }
        if tiles[k] in blackTiles {
          var n := BlackNeighbors(tiles[k]);
          if !(n == 0 || n > 2) {
            nextDayBlackTiles := nextDayBlackTiles + {tiles[k]};
          }
        } else {
          if BlackNeighbors(tiles[k]) == 2 {
            nextDayBlackTiles := nextDayBlackTiles + {tiles[k]};
          }
        }
      }
      FullPrefix(tiles);
      forall t | WillBeBlack(t) ensures t in tiles {
        WillBeBlackInArea(box, t);
      }
      next := TileFloor(nextDayBlackTiles);
    }
  }
}
