/**
 * Shuttle buses: bus `id` departs at every multiple of `id`. Find the next departure after a
 * time, and the first time at which every listed bus leaves its offset in minutes later.
 */
module Buses {
  import opened Wrappers
  import opened ModuloUtils

  datatype Bus = Id(number: int) | OutOfService

  /** `id`: the bus number, `nil` for a bus out of service. */
  function BusId(bus: Bus): (r: Option<int>)
    ensures r.Some? <==> bus.Id?
  {
    match bus
    case Id(n) => Some(n)
    case OutOfService => None
  }

  /**
   * `nextDepartureAfter`: `numberAtLeast(time, whereModulo: id, equals: 0)`, the first multiple
   * of the bus number at or after `time`; `nil` for a bus out of service.
   */
  function NextDepartureAfter(bus: Bus, time: int): (r: Option<int>)
    ensures r.Some? <==> bus.Id?
    ensures bus.Id? && bus.number > 0 && time >= 0 ==>
      time <= r.value < time + bus.number && r.value % bus.number == 0 &&
      forall t :: time <= t < r.value ==> t % bus.number != 0
  {
    match BusId(bus)
    case None => None
    case Some(id) =>
      if id > 0 && time >= 0 then NumberAtLeastSpec(time, id, 0); Some(NumberAtLeast(time, id, 0))
      else Some(NumberAtLeast(time, id, 0))
  }

  /** `departureSatifiesAllOffsets`: bus `id` at offset `i` leaves at minute `departure + i`, under Swift's `%`. */
  predicate DepartureSatisfiesAllOffsets(departure: int, offsetBusses: seq<(int, int)>)
    requires forall k :: 0 <= k < |offsetBusses| ==> offsetBusses[k].1 != 0
  {
    forall k :: 0 <= k < |offsetBusses| ==> Rem(departure + offsetBusses[k].0, offsetBusses[k].1) == 0
  }

  /** Swift's `%` is zero exactly when the divisor divides the number. */
  lemma RemZero(a: int, m: int)
    requires m != 0
    ensures Rem(a, m) == 0 <==> a % m == 0
  {
    if a < 0 {
      ModNegate(-a, Abs(m));
    }
    assert a % m == a % Abs(m);
  }

  lemma ModNegate(a: int, m: int)
    requires a > 0 && m > 0
    ensures (-a) % m == 0 <==> a % m == 0
  {
    var q := a / m;
    if a % m == 0 {
      assert -a == (-q) * m;
      ModUnique(-a, m, -q, 0);
    }
    if (-a) % m == 0 {
      var p := (-a) / m;
      assert a == (-p) * m;
      ModUnique(a, m, -p, 0);
    }
  }

  /** Each bus leaves at its offset after `departure` exactly when its number divides `departure + i`. */
  lemma SatisfiesSpec(departure: int, offsetBusses: seq<(int, int)>)
    requires forall k :: 0 <= k < |offsetBusses| ==> offsetBusses[k].1 != 0
    ensures DepartureSatisfiesAllOffsets(departure, offsetBusses) <==>
      forall k :: 0 <= k < |offsetBusses| ==> (departure + offsetBusses[k].0) % offsetBusses[k].1 == 0
  {
    forall k | 0 <= k < |offsetBusses| {
      RemZero(departure + offsetBusses[k].0, offsetBusses[k].1);
    }
  }

  /**
   * The first element of the list sorted by bus number and reversed: the one with the largest
   * number, the last of them when several share it (Swift's sort is stable).
   */
  function LargestIdIndex(offsetBusses: seq<(int, int)>): (k: nat)
    requires |offsetBusses| > 0
    ensures k < |offsetBusses|
    ensures forall j :: 0 <= j < |offsetBusses| ==> offsetBusses[j].1 <= offsetBusses[k].1
    ensures forall j :: k < j < |offsetBusses| ==> offsetBusses[j].1 < offsetBusses[k].1
  {
    if |offsetBusses| == 1 then 0
    else
      var k := LargestIdIndex(offsetBusses[..|offsetBusses| - 1]);
      if offsetBusses[|offsetBusses| - 1].1 >= offsetBusses[k].1 then |offsetBusses| - 1 else k
  }

  /**
   * `firstOffsetDeparture`: start at the largest number minus its offset and step by the largest
   * number until every bus leaves at its offset. The search only ends when some candidate works,
   * which `solution` witnesses: `first!` traps on an empty list, and so does `%` by zero.
   */
  method FirstOffsetDeparture(offsetBusses: seq<(int, int)>, ghost solution: nat) returns (departure: int)
    requires |offsetBusses| > 0
    requires forall k :: 0 <= k < |offsetBusses| ==> offsetBusses[k].1 != 0
    requires var l := offsetBusses[LargestIdIndex(offsetBusses)];
      DepartureSatisfiesAllOffsets(l.1 - l.0 + solution * l.1, offsetBusses)
    ensures DepartureSatisfiesAllOffsets(departure, offsetBusses)
    ensures var l := offsetBusses[LargestIdIndex(offsetBusses)];
      exists n: nat :: departure == l.1 - l.0 + n * l.1 &&
        forall m: nat :: m < n ==> !DepartureSatisfiesAllOffsets(l.1 - l.0 + m * l.1, offsetBusses)
  {
    var largestId := offsetBusses[LargestIdIndex(offsetBusses)];
    departure := largestId.1 - largestId.0;
    ghost var n: nat := 0;
    while !DepartureSatisfiesAllOffsets(departure, offsetBusses)
      invariant departure == largestId.1 - largestId.0 + n * largestId.1
      invariant n <= solution
      invariant forall m: nat :: m < n ==> !DepartureSatisfiesAllOffsets(largestId.1 - largestId.0 + m * largestId.1, offsetBusses)
      decreases solution - n
    {
      departure := departure + largestId.1;
      n := n + 1;
    }
  }

  /** Part one of the example: after time 939, bus 59 leaves first, at 944, and 59 times the wait is 295. */
  lemma NextBusExample()
    ensures NextDepartureAfter(Id(7), 939) == Some(945)
    ensures NextDepartureAfter(Id(13), 939) == Some(949)
    ensures NextDepartureAfter(Id(59), 939) == Some(944)
    ensures NextDepartureAfter(Id(31), 939) == Some(961)
    ensures NextDepartureAfter(Id(19), 939) == Some(950)
    ensures NextDepartureAfter(OutOfService, 939) == None
    ensures 59 * (944 - 939) == 295
  {
  }

  /** Part two of the example: at 1068781 the buses 7, 13, 59, 31, 19 leave at offsets 0, 1, 4, 6, 7. */
  lemma OffsetExample()
    ensures DepartureSatisfiesAllOffsets(1068781, [(0, 7), (1, 13), (4, 59), (6, 31), (7, 19)])
    ensures LargestIdIndex([(0, 7), (1, 13), (4, 59), (6, 31), (7, 19)]) == 2
  {
  }
}
