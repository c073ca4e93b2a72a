/**
 * Day 11: a seating chart of chairs ('L') and floor ('.'). Each round, every
 * chair decides from the previous occupancy whether it will be occupied;
 * rounds repeat until the occupancy stops changing. Neighbours are either the
 * eight adjacent chairs or the first chair seen along each of the eight
 * directions.
 */
module SeatingSystem {
  import opened Wrappers
  import opened Seqs
  import opened Collections
  import opened IndexingRanges
  import opened Indexing

  /** `Lounge`: the chart, the box of its cells and the set of chair cells. */
  datatype Lounge = Lounge(seatingChart: seq<seq<char>>, indexRange: IndexingRange<Index2D>, chairs: set<Index2D>)

  /** What `init` relies on: a first row (`first!`) that is not empty, and no row shorter than it. */
  predicate WellFormedChart(chart: seq<seq<char>>)
  {
    |chart| > 0 && |chart[0]| > 0 && forall y :: 0 <= y < |chart| ==> |chart[y]| >= |chart[0]|
  }

  /** Whether cell `i` of the chart holds a chair. */
  predicate IsChair(chart: seq<seq<char>>, i: Index2D)
  {
    0 <= i.y < |chart| && 0 <= i.x < |chart[i.y]| && chart[i.y][i.x] == 'L'
  }

  /** Every chair lies inside the lounge's range. */
  predicate Valid(l: Lounge)
  {
    forall c :: c in l.chairs ==> Contains(l.indexRange, Components2D, c)
  }

  /** `init(seatingChart:)`: `chairIndicies` is exactly the cells holding 'L'. */
  function MakeLounge(chart: seq<seq<char>>): (l: Lounge)
    requires WellFormedChart(chart)
    ensures l.seatingChart == chart && Valid(l)
    ensures l.indexRange == IndexingRange(Index2D.Zero, Index2D(|chart[0]| - 1, |chart| - 1))
    ensures forall p :: p in l.chairs <==> 0 <= p.x < |chart[0]| && 0 <= p.y < |chart| && chart[p.y][p.x] == 'L'
  {
    var range := IndexingRange(Index2D.Zero, Index2D(|chart[0]| - 1, |chart| - 1));
    var cells := Index2D.IndicesInRange(range);
    var chairs := Filter(cells, i => IsChair(chart, i));
    ChairsOfChart(chart, range, cells, chairs);
    Lounge(chart, range, AsSet(chairs))
  }

  lemma ChairsOfChart(chart: seq<seq<char>>, range: IndexingRange<Index2D>, cells: seq<Index2D>, chairs: seq<Index2D>)
    requires WellFormedChart(chart)
    requires range == IndexingRange(Index2D.Zero, Index2D(|chart[0]| - 1, |chart| - 1))
    requires cells == Index2D.IndicesInRange(range) && chairs == Filter(cells, i => IsChair(chart, i))
    ensures forall p :: p in AsSet(chairs) ==> Contains(range, Components2D, p)
    ensures forall p :: p in AsSet(chairs) <==> 0 <= p.x < |chart[0]| && 0 <= p.y < |chart| && chart[p.y][p.x] == 'L'
  {
    forall p ensures p in AsSet(chairs) <==> Contains(range, Components2D, p) && IsChair(chart, p) {
      InFilter(cells, i => IsChair(chart, i), p);
      ContainsSpec2D(range, p);
    }
    forall p ensures Contains(range, Components2D, p) && IsChair(chart, p) <==>
      0 <= p.x < |chart[0]| && 0 <= p.y < |chart| && chart[p.y][p.x] == 'L'
    {
      ContainsSpec2D(range, p);
    }
  }

  /** The chairs at `c + o` for each `o` of `offsets`, in order. */
  function AdjacentAlong(chairs: set<Index2D>, c: Index2D, offsets: seq<Index2D>): seq<Index2D>
  {
    Filter(Map(offsets, o => Index2D.Plus(c, o)), p => p in chairs)
  }

  lemma AdjacentAlongSpec(chairs: set<Index2D>, c: Index2D, offsets: seq<Index2D>, p: Index2D)
    ensures p in AdjacentAlong(chairs, c, offsets) <==> p in chairs && Index2D(p.x - c.x, p.y - c.y) in offsets
    ensures |AdjacentAlong(chairs, c, offsets)| <= |offsets|
  {
    var cells := Map(offsets, o => Index2D.Plus(c, o));
    InFilter(cells, q => q in chairs, p);
    FilterLength(cells, q => q in chairs);
    var o := Index2D(p.x - c.x, p.y - c.y);
    assert p == Index2D.Plus(c, o);
    if p in cells {
      var o' := MapInv(offsets, q => Index2D.Plus(c, q), p);
      assert o' == o;
    }
    if o in offsets {
      InMap(offsets, q => Index2D.Plus(c, q), o);
    }
  }

  /** The chairs at the eight adjacent cells of `c`, in `neighborOffsets` order. */
  function Adjacent(chairs: set<Index2D>, c: Index2D): seq<Index2D>
  {
    AdjacentAlong(chairs, c, Index2D.NeighborOffsets)
  }

  /** An adjacent chair is a chair other than `c` within one step on each axis; there are at most 8. */
  lemma AdjacentSpec(chairs: set<Index2D>, c: Index2D, p: Index2D)
    ensures p in Adjacent(chairs, c) <==>
      p in chairs && p != c && -1 <= p.x - c.x <= 1 && -1 <= p.y - c.y <= 1
    ensures |Adjacent(chairs, c)| <= 8
  {
    NeighborOffsetsMembers2D();
    NeighborOffsetsCount2D();
    AdjacentAlongUnits(chairs, c, Index2D.NeighborOffsets, p);
  }

  lemma AdjacentAlongUnits(chairs: set<Index2D>, c: Index2D, offsets: seq<Index2D>, p: Index2D)
    requires |offsets| == 8
    requires forall o :: o in offsets <==> o != Index2D.Zero && -1 <= o.x <= 1 && -1 <= o.y <= 1
    ensures p in AdjacentAlong(chairs, c, offsets) <==>
      p in chairs && p != c && -1 <= p.x - c.x <= 1 && -1 <= p.y - c.y <= 1
    ensures |AdjacentAlong(chairs, c, offsets)| <= 8
  {
    AdjacentAlongSpec(chairs, c, offsets, p);
    var o := Index2D(p.x - c.x, p.y - c.y);
    assert o == Index2D.Zero <==> p == c;
  }

  /** `neighboringSeats`: each chair mapped to its adjacent chairs. */
  function NeighboringSeats(l: Lounge): map<Index2D, seq<Index2D>>
  {
    map c | c in l.chairs :: Adjacent(l.chairs, c)
  }

  /** The map has an entry for every chair and no other, holding exactly the adjacent chairs. */
  lemma NeighboringSeatsSpec(l: Lounge, c: Index2D, p: Index2D)
    ensures c in NeighboringSeats(l) <==> c in l.chairs
    ensures c in l.chairs ==> (p in NeighboringSeats(l)[c] <==>
      p in l.chairs && p != c && -1 <= p.x - c.x <= 1 && -1 <= p.y - c.y <= 1)
  {
    AdjacentSpec(l.chairs, c, p);
  }

  /** A direction: one of the eight neighbour offsets. */
  predicate UnitStep(o: Index2D)
  {
    o != Index2D.Zero && -1 <= o.x <= 1 && -1 <= o.y <= 1
  }

  /** How many more steps along `o` stay inside `range` from `p`, measured on an axis `o` moves along. */
  function Remaining(range: IndexingRange<Index2D>, p: Index2D, o: Index2D): int
  {
    if o.x > 0 then range.max.x - p.x
    else if o.x < 0 then p.x - range.min.x
    else if o.y > 0 then range.max.y - p.y
    else p.y - range.min.y
  }

  /** A step along `o` that stays in the range leaves one step fewer. */
  lemma RemainingStep(range: IndexingRange<Index2D>, p: Index2D, o: Index2D)
    requires UnitStep(o) && Contains(range, Components2D, p) && Contains(range, Components2D, Index2D.Plus(p, o))
    ensures 0 <= Remaining(range, Index2D.Plus(p, o), o) < Remaining(range, p, o)
  {
    ContainsSpec2D(range, p);
    ContainsSpec2D(range, Index2D.Plus(p, o));
  }

  /** The first chair seen from `p` looking along `o`, or `None` when the look leaves the range first. */
  function SightFrom(l: Lounge, p: Index2D, o: Index2D): Option<Index2D>
    requires UnitStep(o) && Contains(l.indexRange, Components2D, p)
    decreases Remaining(l.indexRange, p, o)
  {
    var q := Index2D.Plus(p, o);
    if !Contains(l.indexRange, Components2D, q) then None
    else if q in l.chairs then Some(q)
    else
      RemainingStep(l.indexRange, p, o);
      SightFrom(l, q, o)
  }

  /** The cell `k` steps from `p` along `o`. */
  function Walk(p: Index2D, o: Index2D, k: nat): Index2D
    decreases k
  {
    if k == 0 then p else Walk(Index2D.Plus(p, o), o, k - 1)
  }

  /** Every cell strictly between `p` and step `k` is inside the range and is not a chair. */
  ghost predicate ClearUntil(l: Lounge, p: Index2D, o: Index2D, k: nat)
  {
    forall j :: 1 <= j < k ==> Contains(l.indexRange, Components2D, Walk(p, o, j)) && Walk(p, o, j) !in l.chairs
  }

  /**
   * The line of sight stops at the first step `k` that leaves the range or
   * reaches a chair: `None` in the first case, that chair in the second.
   */
  lemma {:induction false} SightFromSpec(l: Lounge, p: Index2D, o: Index2D, k: nat)
    requires UnitStep(o) && Contains(l.indexRange, Components2D, p)
    requires k >= 1 && ClearUntil(l, p, o, k)
    requires !Contains(l.indexRange, Components2D, Walk(p, o, k)) || Walk(p, o, k) in l.chairs
    ensures SightFrom(l, p, o) ==
      if Contains(l.indexRange, Components2D, Walk(p, o, k)) then Some(Walk(p, o, k)) else None
    decreases k
  {
    var q := Index2D.Plus(p, o);
    assert Walk(p, o, 1) == q;
    if k > 1 {
      assert Contains(l.indexRange, Components2D, q) && q !in l.chairs;
      forall j | 1 <= j < k - 1
        ensures Contains(l.indexRange, Components2D, Walk(q, o, j)) && Walk(q, o, j) !in l.chairs
      {
        assert Walk(p, o, j + 1) == Walk(q, o, j);
      }
      assert Walk(p, o, k) == Walk(q, o, k - 1);
      SightFromSpec(l, q, o, k - 1);
    }
  }

  /** Such a step always exists: looking along a direction ends. */
  lemma {:induction false} SightEnds(l: Lounge, p: Index2D, o: Index2D) returns (k: nat)
    requires UnitStep(o) && Contains(l.indexRange, Components2D, p)
    ensures k >= 1 && ClearUntil(l, p, o, k)
    ensures !Contains(l.indexRange, Components2D, Walk(p, o, k)) || Walk(p, o, k) in l.chairs
    decreases Remaining(l.indexRange, p, o)
  {
    var q := Index2D.Plus(p, o);
    assert Walk(p, o, 1) == q;
    if !Contains(l.indexRange, Components2D, q) || q in l.chairs {
      k := 1;
    } else {
      RemainingStep(l.indexRange, p, o);
      var k' := SightEnds(l, q, o);
      k := k' + 1;
      forall j | 1 <= j < k
        ensures Contains(l.indexRange, Components2D, Walk(p, o, j)) && Walk(p, o, j) !in l.chairs
      {
        assert Walk(p, o, j) == Walk(q, o, j - 1);
      }
      assert Walk(p, o, k) == Walk(q, o, k');
    }
  }

  /** The `while true` stepping loop of `neighboringSeatsLineOfSight`'s `compactMap`. */
  method LineOfSight(l: Lounge, c: Index2D, o: Index2D) returns (r: Option<Index2D>)
    requires UnitStep(o) && Contains(l.indexRange, Components2D, c)
    ensures r == SightFrom(l, c, o)
  {
    var index := c;
    while true
      invariant Contains(l.indexRange, Components2D, index)
      invariant SightFrom(l, index, o) == SightFrom(l, c, o)
      decreases Remaining(l.indexRange, index, o)
    {
      var next := Index2D.Plus(index, o);
      if !Contains(l.indexRange, Components2D, next) {
        return None;
      }
      RemainingStep(l.indexRange, index, o);
      index := next;
      if index in l.chairs {
        return Some(index);
      }
    }
  }

  /** The chairs seen from `c` along each direction of `offsets`, skipping directions that see none. */
  function Sights(l: Lounge, c: Index2D, offsets: seq<Index2D>): seq<Index2D>
    requires Contains(l.indexRange, Components2D, c) && forall o :: o in offsets ==> UnitStep(o)
  {
    if offsets == [] then []
    else
      var last := offsets[|offsets| - 1];
      Sights(l, c, offsets[..|offsets| - 1]) +
        match SightFrom(l, c, last)
        case Some(p) => [p]
        case None => []
  }

  lemma {:induction false} SightsSpec(l: Lounge, c: Index2D, offsets: seq<Index2D>, p: Index2D)
    requires Contains(l.indexRange, Components2D, c) && forall o :: o in offsets ==> UnitStep(o)
    ensures p in Sights(l, c, offsets) <==> exists o :: o in offsets && SightFrom(l, c, o) == Some(p)
    ensures |Sights(l, c, offsets)| <= |offsets|
  {
    if offsets != [] {
      var init, last := offsets[..|offsets| - 1], offsets[|offsets| - 1];
      assert offsets == init + [last];
      SightsSpec(l, c, init, p);
      if o :| o in offsets && SightFrom(l, c, o) == Some(p) {
        if o != last {
          assert o in init;
        }
      }
    }
  }

  lemma NeighborOffsetsAreSteps()
    ensures forall o :: o in Index2D.NeighborOffsets ==> UnitStep(o)
  {
    NeighborOffsetsMembers2D();
  }

  /** The `compactMap` over the directions for one chair. */
  method LookAround(l: Lounge, c: Index2D, offsets: seq<Index2D>) returns (neighbors: seq<Index2D>)
    requires Contains(l.indexRange, Components2D, c) && forall o :: o in offsets ==> UnitStep(o)
    ensures neighbors == Sights(l, c, offsets)
  {
    neighbors := [];
    for k := 0 to |offsets|
      invariant neighbors == Sights(l, c, offsets[..k])
    {
      assert offsets[..k + 1][..k] == offsets[..k];
      var seen := LineOfSight(l, c, offsets[k]);
      if seen.Some? {
        neighbors := neighbors + [seen.value];
      }
    }
    assert offsets[..|offsets|] == offsets;
  }

  /** `m` maps each of its chairs to the chairs seen from it along `offsets`. */
  ghost predicate SightsMap(l: Lounge, m: map<Index2D, seq<Index2D>>, offsets: seq<Index2D>)
  {
    (forall o :: o in offsets ==> UnitStep(o)) &&
    forall c :: c in m ==> Contains(l.indexRange, Components2D, c) && m[c] == Sights(l, c, offsets)
  }

  lemma SightsMapAdd(l: Lounge, m: map<Index2D, seq<Index2D>>, offsets: seq<Index2D>, c: Index2D, v: seq<Index2D>)
    requires SightsMap(l, m, offsets) && Contains(l.indexRange, Components2D, c) && v == Sights(l, c, offsets)
    ensures SightsMap(l, m[c := v], offsets)
  {
  }

  /** The `reduce(into:)` over the chairs, for any set of directions. */
  method SightsOfChairs(l: Lounge, offsets: seq<Index2D>) returns (m: map<Index2D, seq<Index2D>>)
    requires Valid(l) && forall o :: o in offsets ==> UnitStep(o)
    ensures m.Keys == l.chairs && SightsMap(l, m, offsets)
  {
    m := map[];
    var rest := l.chairs;
    while rest != {}
      invariant rest <= l.chairs && m.Keys == l.chairs - rest
      invariant SightsMap(l, m, offsets)
      decreases |rest|
    {
      var c := Pick(rest);
      var neighbors := LookAround(l, c, offsets);
      SightsMapAdd(l, m, offsets, c, neighbors);
      m := m[c := neighbors];
      rest := rest - {c};
    }
  }

  /** `neighboringSeatsLineOfSight`: each chair mapped to the first chair seen in each of the eight directions. */
  method NeighboringSeatsLineOfSight(l: Lounge) returns (m: map<Index2D, seq<Index2D>>)
    requires Valid(l)
    ensures m.Keys == l.chairs && SightsMap(l, m, Index2D.NeighborOffsets)
  {
    NeighborOffsetsAreSteps();
    m := SightsOfChairs(l, Index2D.NeighborOffsets);
  }

  /** `occupiedNeighbors`: how many of `neighbors` are occupied. */
  function OccupiedNeighbors(neighbors: seq<Index2D>, occupied: set<Index2D>): (n: nat)
    ensures n <= |neighbors|
  {
    FilterLength(neighbors, p => p in occupied);
    |Filter(neighbors, p => p in occupied)|
  }

  /** The count is zero exactly when no neighbour is occupied. */
  lemma OccupiedNeighborsZero(neighbors: seq<Index2D>, occupied: set<Index2D>)
    ensures OccupiedNeighbors(neighbors, occupied) == 0 <==> forall p :: p in neighbors ==> p !in occupied
  {
    var seated := Filter(neighbors, p => p in occupied);
    if |seated| > 0 {
      InFilter(neighbors, p => p in occupied, seated[0]);
    }
    forall p | p in neighbors && p in occupied ensures |seated| > 0 {
      InFilter(neighbors, q => q in occupied, p);
    }
  }

  /**
   * `willBeOccupied`: an empty seat with no occupied neighbour fills, an
   * occupied seat with at least `croudedCount` occupied neighbours empties,
   * and any other seat keeps its state. `neighboringSeats[index]!` traps on
   * a cell without an entry.
   */
  function WillBeOccupied(index: Index2D, wereOccupied: set<Index2D>, croudedCount: int,
                          neighboringSeats: map<Index2D, seq<Index2D>>): (r: bool)
    requires index in neighboringSeats
    ensures var n := OccupiedNeighbors(neighboringSeats[index], wereOccupied);
      r <==> if index in wereOccupied then n < croudedCount else n == 0
  {
    var wasOccupied := index in wereOccupied;
    var neighborCount := OccupiedNeighbors(neighboringSeats[index], wereOccupied);
    if !wasOccupied && neighborCount == 0 then true
    else if wasOccupied && neighborCount >= croudedCount then false
    else wasOccupied
  }

  /** The rule a round applies: `willBeOccupied` for a given threshold and neighbour map. */
  function Rule(croudedCount: int, neighboringSeats: map<Index2D, seq<Index2D>>): (Index2D, set<Index2D>) --> bool
  {
    (i, s) requires i in neighboringSeats => WillBeOccupied(i, s, croudedCount, neighboringSeats)
  }

  /** The rule can be asked about any chair under any occupancy. */
  ghost predicate RuleDefined(l: Lounge, willBeOccupied: (Index2D, set<Index2D>) --> bool)
  {
    forall i, s :: i in l.chairs ==> willBeOccupied.requires(i, s)
  }

  /** One round: the chairs the rule occupies given the previous occupancy. */
  function NextSeating(l: Lounge, wereOccupied: set<Index2D>, willBeOccupied: (Index2D, set<Index2D>) --> bool): set<Index2D>
    requires forall i :: i in l.chairs ==> willBeOccupied.requires(i, wereOccupied)
  {
    set i | i in l.chairs && willBeOccupied(i, wereOccupied)
  }

  /** `seating`: the `forEach` over the chairs inserting those the rule occupies. */
  method Seating(l: Lounge, wereOccupied: set<Index2D>, willBeOccupied: (Index2D, set<Index2D>) --> bool)
    returns (nextSeating: set<Index2D>)
    requires forall i :: i in l.chairs ==> willBeOccupied.requires(i, wereOccupied)
    ensures forall i :: i in nextSeating <==> i in l.chairs && willBeOccupied(i, wereOccupied)
  {
    nextSeating := {};
    var rest := l.chairs;
    while rest != {}
      invariant rest <= l.chairs
      invariant forall i :: i in nextSeating <==> i in l.chairs - rest && willBeOccupied(i, wereOccupied)
      decreases |rest|
    {
      var index := Pick(rest);
      if willBeOccupied(index, wereOccupied) {
        nextSeating := nextSeating + {index};
      }
      rest := rest - {index};
    }
  }

  /** The occupancy after `n` rounds from an empty lounge. */
  ghost function Rounds(l: Lounge, willBeOccupied: (Index2D, set<Index2D>) --> bool, n: nat): set<Index2D>
    requires RuleDefined(l, willBeOccupied)
  {
    if n == 0 then {} else NextSeating(l, Rounds(l, willBeOccupied, n - 1), willBeOccupied)
  }

  /**
   * `seatUntilStable`: rounds repeat until one leaves the occupancy
   * unchanged. `fuel` bounds the number of rounds; `None` means no round up
   * to `fuel` was stable. Otherwise the count is the first round `n` with
   * `Rounds(n) == Rounds(n - 1)` (it counts the confirming pass), and the
   * seating is that fixed point.
   */
  method SeatUntilStable(l: Lounge, willBeOccupied: (Index2D, set<Index2D>) --> bool, fuel: nat)
    returns (r: Option<(nat, set<Index2D>)>)
    requires RuleDefined(l, willBeOccupied)
    ensures r.Some? ==> 1 <= r.value.0 <= fuel && r.value.1 == Rounds(l, willBeOccupied, r.value.0)
    ensures r.Some? ==> NextSeating(l, r.value.1, willBeOccupied) == r.value.1
    ensures r.Some? ==> forall j :: 1 <= j < r.value.0 ==>
      Rounds(l, willBeOccupied, j - 1) != Rounds(l, willBeOccupied, j)
    ensures r.None? ==> forall j :: 1 <= j <= fuel ==>
      Rounds(l, willBeOccupied, j - 1) != Rounds(l, willBeOccupied, j)
  {
    var occupied: set<Index2D> := {};
    var seatingCount: nat := 0;
    while true
      invariant seatingCount <= fuel && occupied == Rounds(l, willBeOccupied, seatingCount)
      invariant forall j :: 1 <= j <= seatingCount ==>
        Rounds(l, willBeOccupied, j - 1) != Rounds(l, willBeOccupied, j)
      decreases fuel - seatingCount
    {
      if seatingCount == fuel {
        return None;
      }
      seatingCount := seatingCount + 1;
      var previous := occupied;
      occupied := Seating(l, occupied, willBeOccupied);
      assert occupied == Rounds(l, willBeOccupied, seatingCount);
      if previous == occupied {
        return Some((seatingCount, occupied));
      }
    }
  }

  /** Occupancy only ever holds chairs. */
  lemma RoundsAreChairs(l: Lounge, willBeOccupied: (Index2D, set<Index2D>) --> bool, n: nat)
    requires RuleDefined(l, willBeOccupied)
    ensures Rounds(l, willBeOccupied, n) <= l.chairs
  {
  }

  /** Once a round changes nothing, no later round does. */
  lemma {:induction false} StableForever(l: Lounge, willBeOccupied: (Index2D, set<Index2D>) --> bool, n: nat, m: nat)
    requires RuleDefined(l, willBeOccupied) && n >= 1 && n <= m
    requires Rounds(l, willBeOccupied, n) == Rounds(l, willBeOccupied, n - 1)
    ensures Rounds(l, willBeOccupied, m) == Rounds(l, willBeOccupied, n - 1)
    decreases m - n
  {
    if m > n {
      StableForever(l, willBeOccupied, n, m - 1);
    }
  }

  /** With a neighbour map covering the chairs, `willBeOccupied` is a rule defined on every chair. */
  lemma RuleDefinedOn(l: Lounge, croudedCount: int, neighboringSeats: map<Index2D, seq<Index2D>>)
    requires l.chairs <= neighboringSeats.Keys
    ensures RuleDefined(l, Rule(croudedCount, neighboringSeats))
  {
  }

  /** The first round from an empty lounge fills every chair, whatever the neighbours and threshold. */
  lemma FirstRoundFillsAll(l: Lounge, croudedCount: int, neighboringSeats: map<Index2D, seq<Index2D>>)
    requires l.chairs <= neighboringSeats.Keys
    ensures RuleDefined(l, Rule(croudedCount, neighboringSeats))
    ensures Rounds(l, Rule(croudedCount, neighboringSeats), 1) == l.chairs
  {
    var rule := Rule(croudedCount, neighboringSeats);
    forall i | i in l.chairs ensures rule(i, {}) {
      OccupiedNeighborsZero(neighboringSeats[i], {});
    }
  }
}
