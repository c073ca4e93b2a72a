/**
 * The two examples of day 10: the simple one has 8 arrangements, the larger one 19208.
 * Each is stated for every listing of its adapters, in whatever order, since both
 * `pathsOutWith` and `findArrangements` sort the adapters first.
 */
module AdaptersExample {
  import opened Sorting
  import opened Adapters
  import opened AdapterChains

  const SimpleDescending: seq<int> := [19, 16, 15, 12, 11, 10, 7, 6, 5, 4, 1]

  const ExampleDescending: seq<int> := [
    49, 48, 47, 46, 45, 42, 39, 38, 35, 34, 33, 32, 31, 28, 25, 24,
    23, 20, 19, 18, 17, 14, 11, 10, 9, 8, 7, 4, 3, 2, 1
  ]

  /** Any listing of the simple example's adapters has 8 arrangements and 8 paths out of the outlet. */
  lemma SimpleExampleCounts(chargers: seq<int>)
    requires multiset(chargers) == multiset(SimpleDescending)
    ensures 0 in PathsOut(chargers) && PathsOut(chargers)[0] == 8
    ensures |FindArrangements(chargers)| == 8
  {
    Descends(SimpleDescending);
    SimpleFold(SimpleDescending + [0]);
    CountsFrom(chargers, SimpleDescending, 8);
  }

  /** Any listing of the example's adapters has 19208 arrangements and 19208 paths out of the outlet. */
  lemma ExampleCounts(chargers: seq<int>)
    requires multiset(chargers) == multiset(ExampleDescending)
    ensures 0 in PathsOut(chargers) && PathsOut(chargers)[0] == 19208
    ensures |FindArrangements(chargers)| == 19208
  {
    Descends(ExampleDescending);
    ExampleFold(ExampleDescending + [0]);
    CountsFrom(chargers, ExampleDescending, 19208);
  }

  /** A descending listing `d` of the adapters whose fold gives `n` answers `n` for every listing of them. */
  lemma CountsFrom(chargers: seq<int>, d: seq<int>, n: int)
    requires d != [] && Descending(d) && forall x :: x in d ==> x >= 0
    requires multiset(chargers) == multiset(d)
    requires 0 in PathsFrom(d + [0]) && PathsFrom(d + [0])[0] == n
    ensures 0 in PathsOut(chargers) && PathsOut(chargers)[0] == n
    ensures |FindArrangements(chargers)| == n
  {
    assert d[0] in multiset(chargers);
    VoltagesOf(chargers, d);
    forall c | c in chargers ensures c >= 0 {
      assert c in multiset(chargers) && c in multiset(d);
      assert c in d;
    }
    PathsOutAgrees(chargers);
  }

  /** Both listings go strictly down and end at 1. */
  lemma Descends(d: seq<int>)
    requires d == SimpleDescending || d == ExampleDescending
    ensures d != [] && Descending(d) && forall x :: x in d ==> x >= 0
  {
    assert forall i :: 0 < i < |d| ==> d[i - 1] >= d[i];
    DescendingSteps(d);
    assert d[|d| - 1] == 1;
  }

  /** Folding the simple example's voltages leaves 8 paths out of the outlet. */
  lemma SimpleFold(vs: seq<int>)
    requires vs == SimpleDescending + [0]
    ensures 0 in PathsFrom(vs) && PathsFrom(vs)[0] == 8
  {
    SimpleEntries(vs);
    var r: map<int, int> := map[22 := 1];
    assert PathsFrom(vs) == PathsFold(r, vs[0..]);
    r := SimpleSteps0(r, vs);
    r := SimpleSteps1(r, vs);
    r := SimpleSteps2(r, vs);
    assert vs[12..] == [];
  }

  lemma SimpleEntries(vs: seq<int>)
    requires vs == SimpleDescending + [0]
    ensures |vs| == 12 && vs[0] == 19 && vs[1] == 16 && vs[2] == 15 && vs[3] == 12 && vs[4] == 11 && vs[5] == 10 && vs[6] == 7 && vs[7] == 6 && vs[8] == 5 && vs[9] == 4 && vs[10] == 1 && vs[11] == 0
  {
  }

  lemma SimpleSteps0(r: map<int, int>, vs: seq<int>) returns (r': map<int, int>)
    requires |vs| == 12 && vs[0] == 19 && vs[1] == 16 && vs[2] == 15 && vs[3] == 12
    requires forall x :: x in r ==> x > 19
    requires Get(r, 20) == 0 && Get(r, 21) == 0 && Get(r, 22) == 1
    ensures PathsFold(r, vs[0..]) == PathsFold(r', vs[4..])
    ensures forall x :: x in r' ==> x > 11
    ensures Get(r', 12) == 1 && Get(r', 13) == 0 && Get(r', 14) == 0
  {
    var q := r;
    FoldAt(q, vs, 0, 1);
    q := q[19 := 1];
    FoldAt(q, vs, 1, 1);
    q := q[16 := 1];
    FoldAt(q, vs, 2, 1);
    q := q[15 := 1];
    FoldAt(q, vs, 3, 1);
    q := q[12 := 1];
    r' := q;
  }

  lemma SimpleSteps1(r: map<int, int>, vs: seq<int>) returns (r': map<int, int>)
    requires |vs| == 12 && vs[4] == 11 && vs[5] == 10 && vs[6] == 7 && vs[7] == 6
    requires forall x :: x in r ==> x > 11
    requires Get(r, 12) == 1 && Get(r, 13) == 0 && Get(r, 14) == 0
    ensures PathsFold(r, vs[4..]) == PathsFold(r', vs[8..])
    ensures forall x :: x in r' ==> x > 5
    ensures Get(r', 6) == 2 && Get(r', 7) == 2 && Get(r', 8) == 0
  {
    var q := r;
    FoldAt(q, vs, 4, 1);
    q := q[11 := 1];
    FoldAt(q, vs, 5, 2);
    q := q[10 := 2];
    FoldAt(q, vs, 6, 2);
    q := q[7 := 2];
    FoldAt(q, vs, 7, 2);
    q := q[6 := 2];
    r' := q;
  }

  lemma SimpleSteps2(r: map<int, int>, vs: seq<int>) returns (r': map<int, int>)
    requires |vs| == 12 && vs[8] == 5 && vs[9] == 4 && vs[10] == 1 && vs[11] == 0
    requires forall x :: x in r ==> x > 5
    requires Get(r, 6) == 2 && Get(r, 7) == 2 && Get(r, 8) == 0
    ensures PathsFold(r, vs[8..]) == PathsFold(r', vs[12..])
    ensures 0 in r' && r'[0] == 8
  {
    var q := r;
    FoldAt(q, vs, 8, 4);
    q := q[5 := 4];
    FoldAt(q, vs, 9, 8);
    q := q[4 := 8];
    FoldAt(q, vs, 10, 8);
    q := q[1 := 8];
    FoldAt(q, vs, 11, 8);
    q := q[0 := 8];
    r' := q;
  }

  /** Folding the example's voltages leaves 19208 paths out of the outlet. */
  lemma ExampleFold(vs: seq<int>)
    requires vs == ExampleDescending + [0]
    ensures 0 in PathsFrom(vs) && PathsFrom(vs)[0] == 19208
  {
    ExampleEntries(vs);
    var r: map<int, int> := map[52 := 1];
    assert PathsFrom(vs) == PathsFold(r, vs[0..]);
    r := ExampleSteps0(r, vs);
    r := ExampleSteps1(r, vs);
    r := ExampleSteps2(r, vs);
    r := ExampleSteps3(r, vs);
    r := ExampleSteps4(r, vs);
    r := ExampleSteps5(r, vs);
    r := ExampleSteps6(r, vs);
    r := ExampleSteps7(r, vs);
    assert vs[32..] == [];
  }

  lemma ExampleEntries(vs: seq<int>)
    requires vs == ExampleDescending + [0]
    ensures |vs| == 32 && vs[0] == 49 && vs[1] == 48 && vs[2] == 47 && vs[3] == 46 && vs[4] == 45 && vs[5] == 42 && vs[6] == 39 && vs[7] == 38 && vs[8] == 35 && vs[9] == 34 && vs[10] == 33 && vs[11] == 32 && vs[12] == 31 && vs[13] == 28 && vs[14] == 25 && vs[15] == 24 && vs[16] == 23 && vs[17] == 20 && vs[18] == 19 && vs[19] == 18 && vs[20] == 17 && vs[21] == 14 && vs[22] == 11 && vs[23] == 10 && vs[24] == 9 && vs[25] == 8 && vs[26] == 7 && vs[27] == 4 && vs[28] == 3 && vs[29] == 2 && vs[30] == 1 && vs[31] == 0
  {
  }

  lemma ExampleSteps0(r: map<int, int>, vs: seq<int>) returns (r': map<int, int>)
    requires |vs| == 32 && vs[0] == 49 && vs[1] == 48 && vs[2] == 47 && vs[3] == 46
    requires forall x :: x in r ==> x > 49
    requires Get(r, 50) == 0 && Get(r, 51) == 0 && Get(r, 52) == 1
    ensures PathsFold(r, vs[0..]) == PathsFold(r', vs[4..])
    ensures forall x :: x in r' ==> x > 45
    ensures Get(r', 46) == 4 && Get(r', 47) == 2 && Get(r', 48) == 1
  {
    var q := r;
    FoldAt(q, vs, 0, 1);
    q := q[49 := 1];
    FoldAt(q, vs, 1, 1);
    q := q[48 := 1];
    FoldAt(q, vs, 2, 2);
    q := q[47 := 2];
    FoldAt(q, vs, 3, 4);
    q := q[46 := 4];
    r' := q;
  }

  lemma ExampleSteps1(r: map<int, int>, vs: seq<int>) returns (r': map<int, int>)
    requires |vs| == 32 && vs[4] == 45 && vs[5] == 42 && vs[6] == 39 && vs[7] == 38
    requires forall x :: x in r ==> x > 45
    requires Get(r, 46) == 4 && Get(r, 47) == 2 && Get(r, 48) == 1
    ensures PathsFold(r, vs[4..]) == PathsFold(r', vs[8..])
    ensures forall x :: x in r' ==> x > 35
    ensures Get(r', 36) == 0 && Get(r', 37) == 0 && Get(r', 38) == 7
  {
    var q := r;
    FoldAt(q, vs, 4, 7);
    q := q[45 := 7];
    FoldAt(q, vs, 5, 7);
    q := q[42 := 7];
    FoldAt(q, vs, 6, 7);
    q := q[39 := 7];
    FoldAt(q, vs, 7, 7);
    q := q[38 := 7];
    r' := q;
  }

  lemma ExampleSteps2(r: map<int, int>, vs: seq<int>) returns (r': map<int, int>)
    requires |vs| == 32 && vs[8] == 35 && vs[9] == 34 && vs[10] == 33 && vs[11] == 32
    requires forall x :: x in r ==> x > 35
    requires Get(r, 36) == 0 && Get(r, 37) == 0 && Get(r, 38) == 7
    ensures PathsFold(r, vs[8..]) == PathsFold(r', vs[12..])
    ensures forall x :: x in r' ==> x > 31
    ensures Get(r', 32) == 28 && Get(r', 33) == 14 && Get(r', 34) == 7
  {
    var q := r;
    FoldAt(q, vs, 8, 7);
    q := q[35 := 7];
    FoldAt(q, vs, 9, 7);
    q := q[34 := 7];
    FoldAt(q, vs, 10, 14);
    q := q[33 := 14];
    FoldAt(q, vs, 11, 28);
    q := q[32 := 28];
    r' := q;
  }

  lemma ExampleSteps3(r: map<int, int>, vs: seq<int>) returns (r': map<int, int>)
    requires |vs| == 32 && vs[12] == 31 && vs[13] == 28 && vs[14] == 25 && vs[15] == 24
    requires forall x :: x in r ==> x > 31
    requires Get(r, 32) == 28 && Get(r, 33) == 14 && Get(r, 34) == 7
    ensures PathsFold(r, vs[12..]) == PathsFold(r', vs[16..])
    ensures forall x :: x in r' ==> x > 23
    ensures Get(r', 24) == 49 && Get(r', 25) == 49 && Get(r', 26) == 0
  {
    var q := r;
    FoldAt(q, vs, 12, 49);
    q := q[31 := 49];
    FoldAt(q, vs, 13, 49);
    q := q[28 := 49];
    FoldAt(q, vs, 14, 49);
    q := q[25 := 49];
    FoldAt(q, vs, 15, 49);
    q := q[24 := 49];
    r' := q;
  }

  lemma ExampleSteps4(r: map<int, int>, vs: seq<int>) returns (r': map<int, int>)
    requires |vs| == 32 && vs[16] == 23 && vs[17] == 20 && vs[18] == 19 && vs[19] == 18
    requires forall x :: x in r ==> x > 23
    requires Get(r, 24) == 49 && Get(r, 25) == 49 && Get(r, 26) == 0
    ensures PathsFold(r, vs[16..]) == PathsFold(r', vs[20..])
    ensures forall x :: x in r' ==> x > 17
    ensures Get(r', 18) == 196 && Get(r', 19) == 98 && Get(r', 20) == 98
  {
    var q := r;
    FoldAt(q, vs, 16, 98);
    q := q[23 := 98];
    FoldAt(q, vs, 17, 98);
    q := q[20 := 98];
    FoldAt(q, vs, 18, 98);
    q := q[19 := 98];
    FoldAt(q, vs, 19, 196);
    q := q[18 := 196];
    r' := q;
  }

  lemma ExampleSteps5(r: map<int, int>, vs: seq<int>) returns (r': map<int, int>)
    requires |vs| == 32 && vs[20] == 17 && vs[21] == 14 && vs[22] == 11 && vs[23] == 10
    requires forall x :: x in r ==> x > 17
    requires Get(r, 18) == 196 && Get(r, 19) == 98 && Get(r, 20) == 98
    ensures PathsFold(r, vs[20..]) == PathsFold(r', vs[24..])
    ensures forall x :: x in r' ==> x > 9
    ensures Get(r', 10) == 392 && Get(r', 11) == 392 && Get(r', 12) == 0
  {
    var q := r;
    FoldAt(q, vs, 20, 392);
    q := q[17 := 392];
    FoldAt(q, vs, 21, 392);
    q := q[14 := 392];
    FoldAt(q, vs, 22, 392);
    q := q[11 := 392];
    FoldAt(q, vs, 23, 392);
    q := q[10 := 392];
    r' := q;
  }

  lemma ExampleSteps6(r: map<int, int>, vs: seq<int>) returns (r': map<int, int>)
    requires |vs| == 32 && vs[24] == 9 && vs[25] == 8 && vs[26] == 7 && vs[27] == 4
    requires forall x :: x in r ==> x > 9
    requires Get(r, 10) == 392 && Get(r, 11) == 392 && Get(r, 12) == 0
    ensures PathsFold(r, vs[24..]) == PathsFold(r', vs[28..])
    ensures forall x :: x in r' ==> x > 3
    ensures Get(r', 4) == 2744 && Get(r', 5) == 0 && Get(r', 6) == 0
  {
    var q := r;
    FoldAt(q, vs, 24, 784);
    q := q[9 := 784];
    FoldAt(q, vs, 25, 1568);
    q := q[8 := 1568];
    FoldAt(q, vs, 26, 2744);
    q := q[7 := 2744];
    FoldAt(q, vs, 27, 2744);
    q := q[4 := 2744];
    r' := q;
  }

  lemma ExampleSteps7(r: map<int, int>, vs: seq<int>) returns (r': map<int, int>)
    requires |vs| == 32 && vs[28] == 3 && vs[29] == 2 && vs[30] == 1 && vs[31] == 0
    requires forall x :: x in r ==> x > 3
    requires Get(r, 4) == 2744 && Get(r, 5) == 0 && Get(r, 6) == 0
    ensures PathsFold(r, vs[28..]) == PathsFold(r', vs[32..])
    ensures 0 in r' && r'[0] == 19208
  {
    var q := r;
    FoldAt(q, vs, 28, 2744);
    q := q[3 := 2744];
    FoldAt(q, vs, 29, 5488);
    q := q[2 := 5488];
    FoldAt(q, vs, 30, 10976);
    q := q[1 := 10976];
    FoldAt(q, vs, 31, 19208);
    q := q[0 := 19208];
    r' := q;
  }
}
