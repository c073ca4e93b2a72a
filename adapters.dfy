/**
 * Day 10: joltage adapters. `pathsOutWith` counts, for every voltage, the ways
 * to reach the device (3 above the largest adapter) in steps of 1 to 3 jolts;
 * `findArrangements2` lists those ways; `lessThan` is the lexicographic order
 * on voltage lists; the deltas are the gaps of the sorted chain.
 */
module Adapters {
  import opened Seqs
  import opened Sorting
  import opened Collections

  // `pathsOutWith`.

  /** `result[k] ?? 0` */
  function Get(m: map<int, int>, k: int): int
  {
    if k in m then m[k] else 0
  }

  /** `chargers.sorted().reversed() + [0]`: the voltages from the largest down to the outlet. */
  function Voltages(chargers: seq<int>): seq<int>
  {
    Reverse(Sort(chargers)) + [0]
  }

  /** Any descending arrangement of the adapters is what `sorted().reversed()` gives. */
  lemma VoltagesOf(chargers: seq<int>, d: seq<int>)
    requires Descending(d) && multiset(d) == multiset(chargers)
    ensures Voltages(chargers) == d + [0]
  {
    ReverseDescending(d);
    SortUnique(chargers, Reverse(d));
    ReverseReverse(d);
  }

  /** One step of the fold: the paths out of `charger` are those out of the three voltages above it. */
  function PathsStep(result: map<int, int>, charger: int): map<int, int>
  {
    result[charger := Get(result, charger + 1) + Get(result, charger + 2) + Get(result, charger + 3)]
  }

  /** The fold over `vs`, from the first element to the last. */
  function PathsFold(init: map<int, int>, vs: seq<int>): map<int, int>
    decreases |vs|
  {
    if vs == [] then init else PathsFold(PathsStep(init, vs[0]), vs[1..])
  }

  /** The fold takes the last voltage last. */
  lemma {:induction false} PathsFoldLast(init: map<int, int>, vs: seq<int>, x: int)
    ensures PathsFold(init, vs + [x]) == PathsStep(PathsFold(init, vs), x)
    decreases |vs|
  {
    if vs == [] {
      assert PathsFold(PathsStep(init, x), []) == PathsStep(init, x);
    } else {
      PathsFoldLast(PathsStep(init, vs[0]), vs[1..], x);
      assert (vs + [x])[1..] == vs[1..] + [x];
    }
  }

  /** The result of `pathsOutWith`: the device, 3 above the first voltage, is seeded with one path. */
  function PathsOut(chargers: seq<int>): map<int, int>
  {
    PathsFrom(Voltages(chargers))
  }

  /** The `reduce(into:)` over the voltages, seeded with one path out of the device 3 above the first. */
  function PathsFrom(voltages: seq<int>): map<int, int>
    requires voltages != []
  {
    PathsFold(map[voltages[0] + 3 := 1], voltages)
  }

  /** `pathsOutWith(chargers:)`: the voltages, then the `reduce(into:)` over them. */
  method PathsOutWith(chargers: seq<int>) returns (pathsOut: map<int, int>)
    ensures pathsOut == PathsOut(chargers)
  {
    var voltages := Reverse(Sort(chargers)) + [0];
    pathsOut := ReducePaths(voltages);
  }

  /** The `reduce(into:)` of `pathsOutWith`, one voltage after the other. */
  method ReducePaths(voltages: seq<int>) returns (pathsOut: map<int, int>)
    requires voltages != []
    ensures pathsOut == PathsFrom(voltages)
  {
    var deviceVoltage := voltages[0] + 3;
    pathsOut := map[deviceVoltage := 1];
    for k := 0 to |voltages|
      invariant pathsOut == PathsFold(map[deviceVoltage := 1], voltages[..k])
    {
      assert voltages[..k + 1] == voltages[..k] + [voltages[k]];
      PathsFoldLast(map[deviceVoltage := 1], voltages[..k], voltages[k]);
      var charger := voltages[k];
      pathsOut := pathsOut[charger := Get(pathsOut, charger + 1) + Get(pathsOut, charger + 2) + Get(pathsOut, charger + 3)];
    }
    assert voltages[..|voltages|] == voltages;
  }

  /** Folding in the first voltage `w` gives it the sum of the three entries above it. */
  lemma FoldOn(r: map<int, int>, w: int, rest: seq<int>, paths: int)
    requires paths == Get(r, w + 1) + Get(r, w + 2) + Get(r, w + 3)
    ensures PathsFold(r, [w] + rest) == PathsFold(r[w := paths], rest)
  {
    assert ([w] + rest)[1..] == rest;
  }

  /** Folding in the voltage at `k` gives it the sum of the three entries above it. */
  lemma FoldAt(r: map<int, int>, vs: seq<int>, k: nat, paths: int)
    requires k < |vs| && paths == Get(r, vs[k] + 1) + Get(r, vs[k] + 2) + Get(r, vs[k] + 3)
    ensures PathsFold(r, vs[k..]) == PathsFold(r[vs[k] := paths], vs[k + 1..])
  {
    FoldOn(r, vs[k], vs[k + 1..], paths);
    assert vs[k..] == [vs[k]] + vs[k + 1..];
  }

  // `findArrangements2`.

  /** The voltages of `vs` above `v`: what is left to climb from `v`. */
  function Above(vs: set<int>, v: int): set<int>
  {
    set x | x in vs && x > v
  }

  /** `[1, 2, 3].map { from + $0 }.filter { voltages.contains($0) }` */
  function Nexts(from: int, vs: set<int>): (r: seq<int>)
    ensures |r| <= 3 && forall n :: n in r ==> n in vs && from < n <= from + 3
  {
    (if from + 1 in vs then [from + 1] else [])
    + (if from + 2 in vs then [from + 2] else [])
    + (if from + 3 in vs then [from + 3] else [])
  }

  /** `findArrangements2`: every chain from `from` to `to` in steps of 1 to 3 through `vs`. */
  function Arrangements(from: int, to: int, vs: set<int>): seq<seq<int>>
    decreases Above(vs, from), 4
  {
    if from == to then [[from]] else Through(from, to, vs, Nexts(from, vs))
  }

  /** The arrangements from each of `nexts`, in order, each with `from` put in front. */
  function Through(from: int, to: int, vs: set<int>, nexts: seq<int>): seq<seq<int>>
    requires |nexts| <= 3 && forall n :: n in nexts ==> n in vs && n > from
    decreases Above(vs, from), |nexts|
  {
    if nexts == [] then []
    else
      assert Above(vs, nexts[0]) < Above(vs, from) by {
        assert nexts[0] in nexts;
        AboveShrinks(vs, from, nexts[0]);
      }
      Map(Arrangements(nexts[0], to, vs), (a: seq<int>) => [from] + a) + Through(from, to, vs, nexts[1..])
  }

  /** Climbing to a voltage `n` above `from` leaves fewer voltages to climb. */
  lemma AboveShrinks(vs: set<int>, from: int, n: int)
    requires n in vs && n > from
    ensures Above(vs, n) < Above(vs, from)
  {
    assert n in Above(vs, from);
  }

  /** A chain from `from` to `to` whose every later voltage is in `vs` and 1 to 3 above the one before. */
  ghost predicate IsArrangement(a: seq<int>, from: int, to: int, vs: set<int>)
  {
    && |a| >= 1 && a[0] == from && a[|a| - 1] == to
    && forall i :: 1 <= i < |a| ==> a[i] in vs && a[i - 1] < a[i] <= a[i - 1] + 3
  }

  lemma ThroughMembers(from: int, to: int, vs: set<int>, nexts: seq<int>, a: seq<int>)
    requires |nexts| <= 3 && forall n :: n in nexts ==> n in vs && n > from
    ensures a in Through(from, to, vs, nexts) <==>
      |a| >= 2 && a[0] == from && a[1] in nexts && a[1..] in Arrangements(a[1], to, vs)
    decreases |nexts|
  {
    if nexts != [] {
      forall n | n in nexts[1..] ensures n in nexts {
        var i :| 0 <= i < |nexts[1..]| && nexts[1..][i] == n;
        assert nexts[i + 1] == n;
      }
      ThroughMembers(from, to, vs, nexts[1..], a);
      var head := Map(Arrangements(nexts[0], to, vs), (b: seq<int>) => [from] + b);
      if a in head {
        var b := MapInv(Arrangements(nexts[0], to, vs), (b: seq<int>) => [from] + b, a);
        assert a[1..] == b;
        ArrangementsStart(nexts[0], to, vs, b);
      }
      if |a| >= 2 && a[0] == from && a[1] == nexts[0] && a[1..] in Arrangements(a[1], to, vs) {
        InMap(Arrangements(nexts[0], to, vs), (b: seq<int>) => [from] + b, a[1..]);
        assert [from] + a[1..] == a;
      }
    }
  }

  /** Every arrangement starts at `from`. */
  lemma {:induction false} ArrangementsStart(from: int, to: int, vs: set<int>, a: seq<int>)
    requires a in Arrangements(from, to, vs)
    ensures |a| >= 1 && a[0] == from
    decreases Above(vs, from), 4
  {
    if from != to {
      ThroughStart(from, to, vs, Nexts(from, vs), a);
    }
  }

  lemma {:induction false} ThroughStart(from: int, to: int, vs: set<int>, nexts: seq<int>, a: seq<int>)
    requires |nexts| <= 3 && forall n :: n in nexts ==> n in vs && n > from
    requires a in Through(from, to, vs, nexts)
    ensures |a| >= 1 && a[0] == from
    decreases Above(vs, from), |nexts|
  {
    var head := Map(Arrangements(nexts[0], to, vs), (b: seq<int>) => [from] + b);
    if a in head {
      var b := MapInv(Arrangements(nexts[0], to, vs), (b: seq<int>) => [from] + b, a);
    } else {
      ThroughStart(from, to, vs, nexts[1..], a);
    }
  }

  /** `findArrangements2` lists exactly the chains from `from` to `to`. */
  lemma {:induction false} ArrangementsSpec(from: int, to: int, vs: set<int>, a: seq<int>)
    ensures a in Arrangements(from, to, vs) <==> IsArrangement(a, from, to, vs)
    decreases Above(vs, from)
  {
    if from == to {
      if IsArrangement(a, from, to, vs) {
        if |a| > 1 {
          Climbs(a, |a| - 1);
          assert false;
        }
        assert a == [from];
      }
    } else {
      var nexts := Nexts(from, vs);
      ThroughMembers(from, to, vs, nexts, a);
      if |a| >= 2 && a[0] == from && a[1] in nexts {
        AboveShrinks(vs, from, a[1]);
        ArrangementsSpec(a[1], to, vs, a[1..]);
        ArrangementCons(a, from, to, vs);
      }
      if IsArrangement(a, from, to, vs) {
        ArrangementNext(a, from, to, vs);
      }
    }
  }

  /** A chain of two or more voltages is an arrangement exactly when its tail is one from its second voltage. */
  lemma ArrangementCons(a: seq<int>, from: int, to: int, vs: set<int>)
    requires |a| >= 2 && a[0] == from && a[1] in vs && from < a[1] <= from + 3
    ensures IsArrangement(a, from, to, vs) <==> IsArrangement(a[1..], a[1], to, vs)
  {
    if IsArrangement(a[1..], a[1], to, vs) {
      forall i | 1 <= i < |a| ensures a[i] in vs && a[i - 1] < a[i] <= a[i - 1] + 3 {
        if i > 1 {
          assert a[i] == a[1..][i - 1] && a[i - 1] == a[1..][i - 2];
        }
      }
    }
    if IsArrangement(a, from, to, vs) {
      forall i | 1 <= i < |a[1..]| ensures a[1..][i] in vs && a[1..][i - 1] < a[1..][i] <= a[1..][i - 1] + 3 {
        assert a[1..][i] == a[i + 1];
      }
    }
  }

  /** An arrangement out of a voltage other than the target goes on to one of its next voltages. */
  lemma ArrangementNext(a: seq<int>, from: int, to: int, vs: set<int>)
    requires from != to && IsArrangement(a, from, to, vs)
    ensures |a| >= 2 && a[1] in Nexts(from, vs)
  {
    assert |a| >= 2;
    assert a[1] in vs && from < a[1] <= from + 3;
  }

  /** The voltages of a chain increase. */
  lemma {:induction false} Climbs(a: seq<int>, i: nat)
    requires |a| >= 1 && i < |a|
    requires forall j :: 1 <= j < |a| ==> a[j - 1] < a[j]
    ensures i > 0 ==> a[0] < a[i]
  {
    if i > 1 {
      Climbs(a, i - 1);
    }
  }

  /** The number of arrangements out of `n`, when `n` is a voltage. */
  function CountAt(n: int, to: int, vs: set<int>): nat
  {
    if n in vs then |Arrangements(n, to, vs)| else 0
  }

  /** The arrangements out of `from` number those out of the voltages 1, 2 and 3 above it. */
  lemma ArrangementsCount(from: int, to: int, vs: set<int>)
    requires from != to
    ensures |Arrangements(from, to, vs)| == CountAt(from + 1, to, vs) + CountAt(from + 2, to, vs) + CountAt(from + 3, to, vs)
  {
    var nexts := Nexts(from, vs);
    ThroughCount(from, to, vs, nexts);
    var c1, c2, c3 := CountAt(from + 1, to, vs), CountAt(from + 2, to, vs), CountAt(from + 3, to, vs);
    assert SumCounts(nexts, to, vs) == c1 + c2 + c3 by {
      var n1 := if from + 1 in vs then [from + 1] else [];
      var n2 := if from + 2 in vs then [from + 2] else [];
      var n3 := if from + 3 in vs then [from + 3] else [];
      assert nexts == n1 + n2 + n3;
      SumCountsAppend(n1 + n2, n3, to, vs);
      SumCountsAppend(n1, n2, to, vs);
    }
  }

  function SumCounts(nexts: seq<int>, to: int, vs: set<int>): nat
  {
    if nexts == [] then 0 else CountAt(nexts[0], to, vs) + SumCounts(nexts[1..], to, vs)
  }

  lemma {:induction false} SumCountsAppend(a: seq<int>, b: seq<int>, to: int, vs: set<int>)
    ensures SumCounts(a + b, to, vs) == SumCounts(a, to, vs) + SumCounts(b, to, vs)
  {
    if a != [] {
      SumCountsAppend(a[1..], b, to, vs);
      assert (a + b)[1..] == a[1..] + b;
    } else {
      assert a + b == b;
    }
  }

  lemma {:induction false} ThroughCount(from: int, to: int, vs: set<int>, nexts: seq<int>)
    requires |nexts| <= 3 && forall n :: n in nexts ==> n in vs && n > from
    ensures |Through(from, to, vs, nexts)| == SumCounts(nexts, to, vs)
    decreases |nexts|
  {
    if nexts != [] {
      assert forall n :: n in nexts[1..] ==> n in nexts;
      ThroughCount(from, to, vs, nexts[1..]);
    }
  }

  /** `pathsOut` maps every adapter voltage, and the outlet, to the number of its arrangements up to the largest adapter. */
  lemma PathsOutCounts(chargers: seq<int>)
    requires chargers != [] && forall c :: c in chargers ==> c >= 0
    ensures forall v :: v in chargers || v == 0 ==>
      v in PathsOut(chargers) && PathsOut(chargers)[v] == |Arrangements(v, Max(chargers), AsSet(chargers))|
  {
    var d := Voltages(chargers);
    var m := Max(chargers);
    var vs := AsSet(chargers);
    VoltagesChain(chargers);
    FoldResult(d, m, vs);
    assert forall v :: v in chargers ==> v in vs;
  }

  /** Folding in all the voltages maps each adapter and the outlet to its count of arrangements. */
  lemma FoldResult(d: seq<int>, m: int, vs: set<int>)
    requires Chain(d, m, vs)
    ensures forall v :: v in vs || v == 0 ==> v in PathsFrom(d) && PathsFrom(d)[v] == |Arrangements(v, m, vs)|
  {
    ArrangementsRecurrence(m, vs);
    var count := ArrangementCounts(m, vs);
    PathsFoldInvariant(d, |d|, m, vs, count);
    assert d[..|d|] == d;
    var r := PathsFrom(d);
    assert FoldHolds(r, d, |d|, m, count);
    forall v | v in vs || v == 0 ensures v in d {
      if v in vs {
        Listed(d, m, vs, v);
      } else {
        assert d[|d| - 1] == 0;
      }
    }
    forall v | v in d ensures v in r && r[v] == count(v) {
    }
  }

  /** The number of arrangements from each voltage up to `m`. */
  function ArrangementCounts(m: int, vs: set<int>): int -> int
  {
    (x: int) => |Arrangements(x, m, vs)|
  }

  /** The arrangement counts obey the recurrence the fold computes. */
  lemma ArrangementsRecurrence(m: int, vs: set<int>)
    ensures Recurrence(ArrangementCounts(m, vs), m, vs)
  {
    var count := ArrangementCounts(m, vs);
    forall w | w < m ensures Recurs(count, w, vs) {
      ArrangementsCount(w, m, vs);
    }
    assert Arrangements(m, m, vs) == [[m]];
  }

  /** `count(v)` for a voltage `v`, nothing otherwise. */
  function CountIn(count: int -> int, v: int, vs: set<int>): int
  {
    if v in vs then count(v) else 0
  }

  /**
   * The voltages `d` descend from `m` to the outlet 0, and before the outlet
   * they are exactly the adapters `vs`.
   */
  ghost predicate Chain(d: seq<int>, m: int, vs: set<int>)
  {
    && |d| >= 1 && d[0] == m && d[|d| - 1] == 0
    && (forall i, j :: 0 <= i < j < |d| ==> d[i] >= d[j])
    && (forall i :: 0 <= i < |d| ==> 0 <= d[i] <= m)
    && (forall i :: 0 <= i < |d| - 1 ==> d[i] in vs)
    && (forall x :: x in vs ==> exists i :: 0 <= i < |d| - 1 && d[i] == x)
  }

  lemma Listed(d: seq<int>, m: int, vs: set<int>, x: int)
    requires Chain(d, m, vs) && x in vs
    ensures x in d
  {
    var i :| 0 <= i < |d| - 1 && d[i] == x;
  }

  /**
   * After the first `k` voltages, the fold holds the device and exactly those
   * voltages, each mapped to `count` of it.
   */
  ghost predicate FoldHolds(r: map<int, int>, d: seq<int>, k: nat, m: int, count: int -> int)
    requires k <= |d|
  {
    && (forall x :: x in r <==> x == m + 3 || x in d[..k])
    && m + 3 in r && r[m + 3] == 1
    && (forall x :: x in d[..k] ==> r[x] == count(x))
  }

  /** `count` obeys the recurrence the fold computes: 1 at the top, the sum of the three voltages above below it. */
  ghost predicate Recurrence(count: int -> int, m: int, vs: set<int>)
  {
    count(m) == 1 && forall w :: w < m ==> Recurs(count, w, vs)
  }

  ghost predicate Recurs(count: int -> int, w: int, vs: set<int>)
  {
    count(w) == CountIn(count, w + 1, vs) + CountIn(count, w + 2, vs) + CountIn(count, w + 3, vs)
  }

  lemma VoltagesChain(chargers: seq<int>)
    requires chargers != [] && forall c :: c in chargers ==> c >= 0
    ensures Chain(Voltages(chargers), Max(chargers), AsSet(chargers))
  {
    var c := Reverse(Sort(chargers));
    ReverseAscending(Sort(chargers));
    SortedMax(chargers);
    VoltagesMembers(chargers, c);
    ChainOf(c, Max(chargers), AsSet(chargers));
  }

  /** A descending run from `m` over exactly the adapters, with the outlet appended, is a chain. */
  lemma ChainOf(c: seq<int>, m: int, vs: set<int>)
    requires c != [] && c[0] == m && Descending(c)
    requires forall i :: 0 <= i < |c| ==> c[i] in vs && 0 <= c[i] <= m
    requires forall x :: x in vs ==> x in c
    ensures Chain(c + [0], m, vs)
  {
    var d := c + [0];
    forall i | 0 <= i < |d| ensures 0 <= d[i] <= m {
      if i < |c| {
        assert d[i] == c[i];
      }
    }
    forall i | 0 <= i < |d| - 1 ensures d[i] in vs {
      assert d[i] == c[i];
    }
    forall x | x in vs ensures exists i :: 0 <= i < |d| - 1 && d[i] == x {
      assert x in c;
      var i :| 0 <= i < |c| && c[i] == x;
      assert d[i] == x;
    }
    forall i, j | 0 <= i < j < |d| ensures d[i] >= d[j] {
      if j < |c| {
        assert d[i] == c[i] && d[j] == c[j];
      }
    }
  }

  lemma VoltagesMembers(chargers: seq<int>, c: seq<int>)
    requires chargers != [] && forall x :: x in chargers ==> x >= 0
    requires multiset(c) == multiset(chargers)
    ensures forall i :: 0 <= i < |c| ==> c[i] in AsSet(chargers) && 0 <= c[i] <= Max(chargers)
    ensures forall x :: x in AsSet(chargers) ==> x in c
  {
    forall i | 0 <= i < |c| ensures c[i] in AsSet(chargers) && 0 <= c[i] <= Max(chargers) {
      assert c[i] in multiset(c);
    }
    forall x | x in AsSet(chargers) ensures x in c {
      assert x in multiset(chargers);
    }
  }

  lemma {:induction false} PathsFoldInvariant(d: seq<int>, k: nat, m: int, vs: set<int>, count: int -> int)
    requires Chain(d, m, vs) && Recurrence(count, m, vs) && k <= |d|
    ensures FoldHolds(PathsFold(map[d[0] + 3 := 1], d[..k]), d, k, m, count)
  {
    if k > 0 {
      PathsFoldInvariant(d, k - 1, m, vs, count);
      assert d[..k] == d[..k - 1] + [d[k - 1]];
      PathsFoldLast(map[d[0] + 3 := 1], d[..k - 1], d[k - 1]);
      FoldStep(d, k, m, vs, count, PathsFold(map[d[0] + 3 := 1], d[..k - 1]));
    }
  }

  /** Folding in the `k`-th voltage maps it to its count. */
  lemma FoldStep(d: seq<int>, k: nat, m: int, vs: set<int>, count: int -> int, r: map<int, int>)
    requires Chain(d, m, vs) && Recurrence(count, m, vs) && 0 < k <= |d| && FoldHolds(r, d, k - 1, m, count)
    ensures FoldHolds(PathsStep(r, d[k - 1]), d, k, m, count)
  {
    var g1, g2, g3 := GetAboveAll(d, k, m, vs, count, r);
    StepValue(count, m, vs, r, d[k - 1], g1, g2, g3);
    FoldExtend(r, d, k, m, count);
  }

  /**
   * What the fold holds just above a voltage `w` below the top: `g1`, `g2`,
   * `g3` are its entries at `w + 1`, `w + 2`, `w + 3`, each the count there,
   * or 1 for the device.
   */
  ghost predicate AboveFacts(count: int -> int, m: int, vs: set<int>, r: map<int, int>, w: int, g1: int, g2: int, g3: int)
  {
    && w <= m && m + 1 !in vs && m + 2 !in vs
    && g1 == Get(r, w + 1) && g2 == Get(r, w + 2) && g3 == Get(r, w + 3)
    && g1 == (if w + 1 == m + 3 then 1 else CountIn(count, w + 1, vs))
    && g2 == (if w + 2 == m + 3 then 1 else CountIn(count, w + 2, vs))
    && g3 == (if w + 3 == m + 3 then 1 else CountIn(count, w + 3, vs))
  }

  /** The value the step stores for a voltage below the top is its count. */
  lemma StepValue(count: int -> int, m: int, vs: set<int>, r: map<int, int>, w: int, g1: int, g2: int, g3: int)
    requires Recurrence(count, m, vs) && AboveFacts(count, m, vs, r, w, g1, g2, g3)
    ensures PathsStep(r, w)[w] == count(w)
  {
    SumAbove(count, m, vs, w, g1, g2, g3);
    StepAt(r, w, g1, g2, g3);
  }

  /** The three entries above the `k`-th voltage, and the facts about the top that `SumAbove` needs. */
  lemma GetAboveAll(d: seq<int>, k: nat, m: int, vs: set<int>, count: int -> int, r: map<int, int>)
      returns (g1: int, g2: int, g3: int)
    requires Chain(d, m, vs) && 0 < k <= |d| && FoldHolds(r, d, k - 1, m, count)
    ensures AboveFacts(count, m, vs, r, d[k - 1], g1, g2, g3)
  {
    g1 := GetAbove(d, k, m, vs, count, r, 1);
    g2 := GetAbove(d, k, m, vs, count, r, 2);
    g3 := GetAbove(d, k, m, vs, count, r, 3);
    NoneAboveMax(d, m, vs, m + 1);
    NoneAboveMax(d, m, vs, m + 2);
  }

  lemma StepAt(r: map<int, int>, w: int, g1: int, g2: int, g3: int)
    requires g1 == Get(r, w + 1) && g2 == Get(r, w + 2) && g3 == Get(r, w + 3)
    ensures PathsStep(r, w)[w] == g1 + g2 + g3
  {
  }

  /** The three counts above `w` add up to the count of `w`. */
  lemma SumAbove(count: int -> int, m: int, vs: set<int>, w: int, g1: int, g2: int, g3: int)
    requires Recurrence(count, m, vs) && w <= m && m + 1 !in vs && m + 2 !in vs
    requires g1 == if w + 1 == m + 3 then 1 else CountIn(count, w + 1, vs)
    requires g2 == if w + 2 == m + 3 then 1 else CountIn(count, w + 2, vs)
    requires g3 == if w + 3 == m + 3 then 1 else CountIn(count, w + 3, vs)
    ensures g1 + g2 + g3 == count(w)
  {
    if w < m {
      assert Recurs(count, w, vs);
    }
  }

  lemma NoneAboveMax(d: seq<int>, m: int, vs: set<int>, x: int)
    requires Chain(d, m, vs) && x > m
    ensures x !in vs
  {
    forall y | y in vs ensures y <= m {
      Listed(d, m, vs, y);
    }
  }

  /** Storing the `k`-th voltage's count extends the fold's invariant by one voltage. */
  lemma FoldExtend(r: map<int, int>, d: seq<int>, k: nat, m: int, count: int -> int)
    requires 0 < k <= |d| && FoldHolds(r, d, k - 1, m, count) && d[k - 1] <= m
    ensures FoldHolds(r[d[k - 1] := count(d[k - 1])], d, k, m, count)
  {
    assert d[..k] == d[..k - 1] + [d[k - 1]];
  }

  /** The voltages above the `k`-th were all folded in before it, since the voltages descend. */
  lemma GetAbove(d: seq<int>, k: nat, m: int, vs: set<int>, count: int -> int, r: map<int, int>, j: int)
      returns (g: int)
    requires Chain(d, m, vs) && 0 < k <= |d| && FoldHolds(r, d, k - 1, m, count) && 1 <= j <= 3
    ensures g == Get(r, d[k - 1] + j)
    ensures g == if d[k - 1] + j == m + 3 then 1 else CountIn(count, d[k - 1] + j, vs)
  {
    var x := d[k - 1] + j;
    g := Get(r, x);
    if x == m + 3 {
    } else if x in d[..k - 1] {
      FoldedIsListed(d, k, m, vs, x);
    } else if x in vs {
      ListedAboveIsFolded(d, k, m, vs, x);
    }
  }

  lemma FoldedIsListed(d: seq<int>, k: nat, m: int, vs: set<int>, x: int)
    requires Chain(d, m, vs) && 0 < k <= |d| && x in d[..k - 1]
    ensures x in vs
  {
    var i :| 0 <= i < k - 1 && d[..k - 1][i] == x;
    assert d[i] == x;
  }

  lemma ListedAboveIsFolded(d: seq<int>, k: nat, m: int, vs: set<int>, x: int)
    requires Chain(d, m, vs) && 0 < k <= |d| && x in vs && x > d[k - 1]
    ensures x in d[..k - 1]
  {
    var i :| 0 <= i < |d| - 1 && d[i] == x;
    assert i < k - 1;
    assert d[..k - 1][i] == x;
  }
}

/** The rest of day 10: `findArrangements`, `lessThan` and the deltas of the sorted chain. */
module AdapterChains {
  import opened Seqs
  import opened Sorting
  import opened Collections
  import opened Adapters

  /** `ChargerArranger.findArrangements`: the arrangements from the outlet 0 up to the largest adapter. */
  function FindArrangements(chargers: seq<int>): seq<seq<int>>
    requires chargers != []
  {
    Arrangements(0, Max(chargers), AsSet(chargers))
  }

  /** The two answers agree: the paths out of the outlet number the arrangements `findArrangements` lists. */
  lemma PathsOutAgrees(chargers: seq<int>)
    requires chargers != [] && forall c :: c in chargers ==> c >= 0
    ensures 0 in PathsOut(chargers) && PathsOut(chargers)[0] == |FindArrangements(chargers)|
    ensures forall a :: a in FindArrangements(chargers) <==> IsArrangement(a, 0, Max(chargers), AsSet(chargers))
  {
    PathsOutCounts(chargers);
    forall a ensures a in FindArrangements(chargers) <==> IsArrangement(a, 0, Max(chargers), AsSet(chargers)) {
      ArrangementsSpec(0, Max(chargers), AsSet(chargers), a);
    }
  }

  // `lessThan`.

  /** `lhs` comes first: it is a proper prefix of `rhs`, or it is smaller at the first place they differ. */
  ghost predicate LexLess(lhs: seq<int>, rhs: seq<int>)
  {
    || (|lhs| < |rhs| && lhs == rhs[..|lhs|])
    || exists i :: 0 <= i < |lhs| && i < |rhs| && lhs[..i] == rhs[..i] && lhs[i] < rhs[i]
  }

  /** The length of the longest common prefix. */
  function CommonPrefix(a: seq<int>, b: seq<int>): (k: nat)
    ensures k <= |a| && k <= |b| && a[..k] == b[..k]
    ensures k < |a| && k < |b| ==> a[k] != b[k]
  {
    if a == [] || b == [] || a[0] != b[0] then 0
    else
      var k := CommonPrefix(a[1..], b[1..]);
      assert a[..k + 1] == [a[0]] + a[1..][..k];
      assert b[..k + 1] == [b[0]] + b[1..][..k];
      k + 1
  }

  /** At the first difference `i`, the order is that of the elements there. */
  lemma LexLessAt(lhs: seq<int>, rhs: seq<int>, i: nat)
    requires i < |lhs| && i < |rhs| && lhs[..i] == rhs[..i] && lhs[i] != rhs[i]
    ensures LexLess(lhs, rhs) <==> lhs[i] < rhs[i]
  {
    if exists j :: 0 <= j < |lhs| && j < |rhs| && lhs[..j] == rhs[..j] && lhs[j] < rhs[j] {
      var j :| 0 <= j < |lhs| && j < |rhs| && lhs[..j] == rhs[..j] && lhs[j] < rhs[j];
      if j < i {
        assert lhs[..i][j] == rhs[..i][j];
      } else if j > i {
        assert lhs[..j][i] == rhs[..j][i];
      }
    }
  }

  /** When one runs out before they differ, the shorter comes first. */
  lemma LexLessEnd(lhs: seq<int>, rhs: seq<int>, n: nat)
    requires n <= |lhs| && n <= |rhs| && (n == |lhs| || n == |rhs|) && lhs[..n] == rhs[..n]
    ensures LexLess(lhs, rhs) <==> |lhs| < |rhs|
  {
    if exists j :: 0 <= j < |lhs| && j < |rhs| && lhs[..j] == rhs[..j] && lhs[j] < rhs[j] {
      var j :| 0 <= j < |lhs| && j < |rhs| && lhs[..j] == rhs[..j] && lhs[j] < rhs[j];
      assert lhs[..n][j] == rhs[..n][j];
    }
    if |lhs| < |rhs| {
      assert lhs == lhs[..n];
    }
  }

  /** `lessThan(lhs:rhs:)`: the first pair that differs decides, else the shorter comes first. */
  method LessThan(lhs: seq<int>, rhs: seq<int>) returns (b: bool)
    ensures b == LexLess(lhs, rhs)
  {
    var n := if |lhs| < |rhs| then |lhs| else |rhs|;
    for i := 0 to n
      invariant lhs[..i] == rhs[..i]
    {
      if lhs[i] != rhs[i] {
        LexLessAt(lhs, rhs, i);
        return lhs[i] < rhs[i];
      }
      assert lhs[..i + 1] == lhs[..i] + [lhs[i]];
      assert rhs[..i + 1] == rhs[..i] + [rhs[i]];
    }
    LexLessEnd(lhs, rhs, n);
    return |lhs| < |rhs|;
  }

  /** No list comes before itself. */
  lemma LexLessIrreflexive(a: seq<int>)
    ensures !LexLess(a, a)
  {
  }

  /** Of two different lists, one comes first. */
  lemma LexLessTotal(a: seq<int>, b: seq<int>)
    requires a != b
    ensures LexLess(a, b) || LexLess(b, a)
  {
    var k := CommonPrefix(a, b);
    if k < |a| && k < |b| {
      LexLessAt(a, b, k);
      LexLessAt(b, a, k);
    } else {
      LexLessEnd(a, b, k);
      LexLessEnd(b, a, k);
    }
  }

  /** The place where `a` comes before `b`: where `a` ends, or where it is smaller. */
  lemma Split(a: seq<int>, b: seq<int>) returns (i: nat)
    requires LexLess(a, b)
    ensures i <= |a| && i < |b| && a[..i] == b[..i] && (i == |a| || a[i] < b[i])
  {
    if |a| < |b| && a == b[..|a|] {
      i := |a|;
    } else {
      i :| 0 <= i < |a| && i < |b| && a[..i] == b[..i] && a[i] < b[i];
    }
  }

  /** The order is transitive. */
  lemma LexLessTransitive(a: seq<int>, b: seq<int>, c: seq<int>)
    requires LexLess(a, b) && LexLess(b, c)
    ensures LexLess(a, c)
  {
    var i := Split(a, b);
    var j := Split(b, c);
    if i < j {
      assert b[..j][i] == c[..j][i];
      assert a[..i] == c[..i] by {
        assert b[..j][..i] == c[..j][..i];
      }
      if i == |a| {
        assert a == c[..|a|];
      } else {
        assert a[..i + 1][i] < c[i];
      }
    } else if j < i {
      assert a[..i][j] == b[..i][j];
      assert a[..j] == c[..j] by {
        assert a[..i][..j] == b[..i][..j];
      }
      assert a[j] < c[j];
    } else {
      assert a[..i] == c[..i];
      if i == |a| {
        assert a == c[..|a|];
      } else {
        assert a[i] < c[i];
      }
    }
  }

  // The deltas.

  /** `zip(sorted, sorted.dropFirst()).map { $0.1 - $0.0 }` */
  function Deltas(s: seq<int>): (d: seq<int>)
    ensures |d| == if s == [] then 0 else |s| - 1
    ensures forall i :: 0 <= i < |d| ==> d[i] == s[i + 1] - s[i]
  {
    if |s| < 2 then [] else [s[1] - s[0]] + Deltas(s[1..])
  }

  /** The deltas add up to the span of the list. */
  lemma {:induction false} DeltasSum(s: seq<int>)
    requires s != []
    ensures Sum(Deltas(s)) == s[|s| - 1] - s[0]
  {
    if |s| >= 2 {
      DeltasSum(s[1..]);
    }
  }

  /** The deltas of an ascending list are not negative. */
  lemma DeltasAscending(s: seq<int>)
    requires Ascending(s)
    ensures forall d :: d in Deltas(s) ==> d >= 0
  {
  }

  /** `(chargers + [0, chargers.max()! + 3]).sorted()`: the chain from the outlet to the device. */
  function JoltChain(chargers: seq<int>): seq<int>
    requires chargers != []
  {
    Sort(chargers + [0, Max(chargers) + 3])
  }

  /** The chain runs from the outlet at 0 to the device 3 above the largest adapter, so its deltas add up to that. */
  lemma JoltChainSpan(chargers: seq<int>)
    requires chargers != [] && forall c :: c in chargers ==> c >= 0
    ensures var chain := JoltChain(chargers);
      && |chain| == |chargers| + 2 && chain[0] == 0 && chain[|chain| - 1] == Max(chargers) + 3
      && Sum(Deltas(chain)) == Max(chargers) + 3
      && forall d :: d in Deltas(chain) ==> d >= 0
  {
    var m := Max(chargers);
    var all := chargers + [0, m + 3];
    assert forall x :: x in all ==> x in chargers || x == 0 || x == m + 3;
    ChainSpan(JoltChain(chargers), m + 3, all);
  }

  lemma ChainSpan(chain: seq<int>, top: int, all: seq<int>)
    requires Ascending(chain) && multiset(chain) == multiset(all)
    requires 0 in all && top in all && forall x :: x in all ==> 0 <= x <= top
    ensures |chain| == |all| && chain != [] && chain[0] == 0 && chain[|chain| - 1] == top
    ensures Sum(Deltas(chain)) == top && forall d :: d in Deltas(chain) ==> d >= 0
  {
    SortedEnds(chain, 0, top, all);
    DeltasSum(chain);
    DeltasAscending(chain);
  }

  /** An ascending permutation of `all` starts at its least element and ends at its greatest. */
  lemma SortedEnds(chain: seq<int>, lo: int, hi: int, all: seq<int>)
    requires Ascending(chain) && multiset(chain) == multiset(all)
    requires lo in all && hi in all && forall x :: x in all ==> lo <= x <= hi
    ensures |chain| == |all| && chain != [] && chain[0] == lo && chain[|chain| - 1] == hi
  {
    assert |multiset(chain)| == |multiset(all)|;
    assert lo in multiset(chain) && hi in multiset(chain);
    assert chain[0] in multiset(all) && chain[|chain| - 1] in multiset(all);
    assert chain[0] in all && chain[|chain| - 1] in all;
    assert lo <= chain[0] && chain[|chain| - 1] <= hi;
    var i :| 0 <= i < |chain| && chain[i] == lo;
    var j :| 0 <= j < |chain| && chain[j] == hi;
    assert chain[0] <= chain[i] && chain[j] <= chain[|chain| - 1];
  }

  /** When every delta is 1, 2 or 3, the counts of each, weighted, add up to the span. */
  lemma {:induction false} DeltaCounts(d: seq<int>)
    requires forall x :: x in d ==> 1 <= x <= 3
    ensures Sum(d) == Count(d, 1) + 2 * Count(d, 2) + 3 * Count(d, 3)
  {
    if d != [] {
      assert d[0] in d;
      assert forall x :: x in d[1..] ==> x in d;
      DeltaCounts(d[1..]);
    }
  }
}
