/**
 * The crab's cup game: the cups sit on a circular `LinkedList` whose head is
 * the current cup. A move picks up the three cups after the current one,
 * chooses a destination cup among those left, puts the three back after it and
 * makes the cup after the current one the new current cup.
 *
 * `MoveSpec` is the meaning of one move on the sequence of cup labels;
 * `CrabWalk.Move` performs it on the linked list and is proved to produce it.
 */
module CrabCups {
  import opened Wrappers
  import opened Seqs
  import opened ListSpec
  import opened LinkedLists

  /**
   * Swift's `filter(p).max()` on a sequence: the position of the first of the
   * largest elements satisfying `p` (`max()` only replaces its candidate by a
   * strictly larger element), or `None` when no element satisfies `p`.
   */
  function FirstMax(s: seq<int>, p: int -> bool): (r: Option<nat>)
    ensures r.Some? ==> r.value < |s|
  {
    if s == [] then None
    else
      var r := FirstMax(s[1..], p);
      if p(s[0]) && (r.None? || s[1..][r.value] <= s[0]) then Some(0)
      else match r
        case None => None
        case Some(i) => Some(i + 1)
  }

  /** `r` is the first position of a largest element satisfying `p`, or `None` when none does. */
  ghost predicate IsFirstMax(s: seq<int>, p: int -> bool, r: Option<nat>)
  {
    (r.None? <==> forall i :: 0 <= i < |s| ==> !p(s[i])) &&
    (r.Some? ==>
      r.value < |s| && p(s[r.value]) &&
      (forall j :: 0 <= j < |s| && p(s[j]) ==> s[j] <= s[r.value]) &&
      (forall j :: 0 <= j < r.value && p(s[j]) ==> s[j] < s[r.value]))
  }

  lemma {:induction false} FirstMaxSpec(s: seq<int>, p: int -> bool)
    ensures IsFirstMax(s, p, FirstMax(s, p))
  {
    if s != [] {
      FirstMaxSpec(s[1..], p);
    }
  }

  /**
   * `i` is where `pickDesination(from: cup)` lands among the labels `rest`: the
   * first of the largest labels below `cup`, or, when no label is below `cup`,
   * the first of the largest labels.
   */
  ghost predicate IsDestination(rest: seq<int>, cup: int, i: int)
  {
    0 <= i < |rest| &&
    (if exists j :: 0 <= j < |rest| && rest[j] < cup
     then rest[i] < cup && forall j :: 0 <= j < |rest| && rest[j] < cup ==> rest[j] <= rest[i]
     else forall j :: 0 <= j < |rest| ==> rest[j] <= rest[i]) &&
    forall j :: 0 <= j < i ==> rest[j] != rest[i]
  }

  /** `pickDesination(from: cup)` on labels: `filter { $0 < cup }.max()`, falling back to `max()`. */
  function DestinationIndex(rest: seq<int>, cup: int): (i: nat)
    requires rest != []
    ensures i < |rest|
  {
    match FirstMax(rest, v => v < cup)
    case Some(i) => i
    case None =>
      // `max()` of the non-empty list; its `fatalError()` branch cannot be reached
      match FirstMax(rest, v => true)
      case Some(i) => i
      case None => 0
  }

  lemma DestinationSpec(rest: seq<int>, cup: int)
    requires rest != []
    ensures IsDestination(rest, cup, DestinationIndex(rest, cup))
  {
    FirstMaxSpec(rest, v => v < cup);
    FirstMaxSpec(rest, v => true);
  }

  /** There is only one destination. */
  lemma DestinationUnique(rest: seq<int>, cup: int, i: int, k: int)
    requires IsDestination(rest, cup, i) && IsDestination(rest, cup, k)
    ensures i == k
  {
    assert rest[i] == rest[k];
  }

  /** One move on the labels `cups`, current cup first, exactly as `move()` rewires the list. */
  function MoveSpec(cups: seq<int>): (r: seq<int>)
    requires |cups| >= 2
    ensures |r| == |cups|
  {
    var rest, three := Removed(cups, 1, 3), Taken(cups, 1, 3);
    Rotated(InsertedAsWritten(rest, DestinationIndex(rest, cups[0]) + 1, three), 1)
  }

  /** A move only reorders the cups. */
  lemma MovePermutes(cups: seq<int>)
    requires |cups| >= 2
    ensures multiset(MoveSpec(cups)) == multiset(cups)
  {
    var rest, three := Removed(cups, 1, 3), Taken(cups, 1, 3);
    RemovedTakenPartition(cups, 1, 3);
    var d := DestinationIndex(rest, cups[0]);
    SplicedMultiset(rest, d + 1, three);
    RotatedLaws(InsertedAsWritten(rest, d + 1, three), 1);
  }

  /** Label of the destination cup chosen in the move on `cups`. */
  function Destination(cups: seq<int>): int
    requires |cups| >= 2
  {
    var rest := Removed(cups, 1, 3);
    rest[DestinationIndex(rest, cups[0])]
  }

  /**
   * The old current cup ends the sequence, and the new current cup is the one
   * that follows the old current cup once the three are back: the first
   * picked-up cup when they went straight back after it, else the fifth cup.
   */
  lemma MoveCurrentGoesLast(cups: seq<int>)
    requires |cups| >= 2
    ensures MoveSpec(cups)[|cups| - 1] == cups[0]
    ensures MoveSpec(cups)[0] == if |cups| >= 5 && Destination(cups) != cups[0] then cups[4] else cups[1]
  {
    var rest, three := Removed(cups, 1, 3), Taken(cups, 1, 3);
    RemovedTakenPartition(cups, 1, 3);
    assert rest[0] == cups[0] && three[0] == cups[1];
    DestinationSpec(rest, cups[0]);
    var d := DestinationIndex(rest, cups[0]);
    var inserted := InsertedAsWritten(rest, d + 1, three);
    assert inserted == rest[..d + 1] + three + rest[d + 1..];
    assert MoveSpec(cups) == inserted[1..] + inserted[..1];
    assert inserted[0] == cups[0];
    if d == 0 {
      assert inserted[1] == three[0];
    } else {
      assert inserted[1] == rest[1] == cups[4];
    }
  }

  /**
   * With distinct labels the destination is never one of the three picked-up
   * cups, and it is the largest remaining label below the current one when there
   * is such a label.
   */
  lemma DestinationNotPickedUp(cups: seq<int>)
    requires |cups| >= 2 && Distinct(cups)
    ensures Destination(cups) !in Taken(cups, 1, 3)
    ensures Destination(cups) in cups
    ensures (exists c :: c in cups && c !in Taken(cups, 1, 3) && c < cups[0]) ==>
      Destination(cups) < cups[0] &&
      forall c :: c in cups && c !in Taken(cups, 1, 3) && c < cups[0] ==> c <= Destination(cups)
  {
    var rest, three := Removed(cups, 1, 3), Taken(cups, 1, 3);
    RemovedTakenPartition(cups, 1, 3);
    RemovedTakenDisjoint(cups, 1, 3);
    DestinationSpec(rest, cups[0]);
    var d := DestinationIndex(rest, cups[0]);
    assert Destination(cups) == rest[d] && rest[d] in rest;
    forall c | c in cups && c !in three ensures exists j :: 0 <= j < |rest| && rest[j] == c {
      assert multiset(cups)[c] > 0 && multiset(three)[c] == 0;
      assert c in rest;
    }
    forall c | c in cups && c !in three && c < cups[0] ensures rest[d] < cups[0] && c <= rest[d] {
      var j :| 0 <= j < |rest| && rest[j] == c;
    }
  }

  /** After the move, with the destination not the current cup, the three picked-up cups follow it in order. */
  lemma MovePlacesThreeAfterDestination(cups: seq<int>)
    requires |cups| >= 5
    ensures var r := MoveSpec(cups);
      Destination(cups) != cups[0] ==>
        exists p :: 0 <= p && p + 4 <= |r| && r[p] == Destination(cups) && r[p + 1..p + 4] == cups[1..4]
  {
    var rest, three := Removed(cups, 1, 3), Taken(cups, 1, 3);
    var d := DestinationIndex(rest, cups[0]);
    var inserted := InsertedAsWritten(rest, d + 1, three);
    var r := MoveSpec(cups);
    assert three == cups[1..4];
    assert inserted == rest[..d + 1] + three + rest[d + 1..];
    if rest[d] != cups[0] {
      assert d != 0;
      assert r == inserted[1..] + inserted[..1];
      assert r[d - 1] == inserted[d] == rest[d];
      assert r[d..d + 3] == inserted[d + 1..d + 4] == three;
    }
  }

  /** `moves` moves in a row. */
  function Moves(cups: seq<int>, moves: nat): (r: seq<int>)
    requires |cups| >= 2
    ensures |r| == |cups|
    decreases moves
  {
    if moves == 0 then cups else Moves(MoveSpec(cups), moves - 1)
  }

  /** `circularRotate(to: findNode(where: { $0 == target })!)` on the labels. */
  function RotatedTo(cups: seq<int>, target: int): seq<int>
  {
    Rotated(cups, FirstIndexWhere(cups, c => c == target))
  }

  /** A move whose picked-up cups, remaining cups and destination are known. */
  lemma MoveTo(cups: seq<int>, rest: seq<int>, three: seq<int>, d: nat)
    requires |cups| >= 2 && rest == Removed(cups, 1, 3) && three == Taken(cups, 1, 3)
    requires IsDestination(rest, cups[0], d)
    ensures MoveSpec(cups) == Rotated(InsertedAsWritten(rest, d + 1, three), 1)
  {
    DestinationSpec(rest, cups[0]);
    DestinationUnique(rest, cups[0], d, DestinationIndex(rest, cups[0]));
  }

  /** The game: the circle of cups as a linked list, current cup at the head. */
  class CrabWalk {
    const cups: LinkedList<int>

    ghost predicate Valid()
      reads this, cups, cups.nodes
    {
      cups.Valid() && cups.TailOk()
    }

    /** `CrabWalk(cups: .init(values:))`. */
    constructor (labels: seq<int>)
      ensures Valid() && cups.Contents() == labels && fresh(cups)
    {
      cups := new LinkedList.FromValues(labels);
    }

    /** `pickDesination(from: cup)`: the node `filter { $0.value < cup }.max()`, else `max()`. */
    function PickDestination(cup: int): (d: ListNode<int>)
      reads this, cups, cups.nodes
      requires cups.Valid() && cups.nodes != []
      ensures |cups.Contents()| == |cups.nodes| && d == cups.nodes[DestinationIndex(cups.Contents(), cup)]
    {
      ValuesLength(cups.nodes);
      var below := MaxNode(cups.head, cups.nodes, v => v < cup);
      if below != null then below
      else
        var all := MaxNode(cups.head, cups.nodes, v => true);
        assert all != null by { assert (v => true)(cups.Contents()[0]); ValuesAt(cups.nodes); }
        all
    }

    /** `move()`: requires two cups at least (with one cup `current.next!` traps). */
    method Move()
      requires Valid() && |cups.Contents()| >= 2
      modifies cups, cups.nodes
      ensures Valid() && cups.Contents() == MoveSpec(old(cups.Contents()))
    {
      ValuesLength(cups.nodes);
      PickUpAndPutBack();
      RotateToNext();
    }

    /** The last step of `move()`: the cup after the current one becomes the head. */
    method RotateToNext()
      requires cups.Valid() && |cups.nodes| >= 2
      modifies cups, cups.nodes
      ensures Valid() && cups.nodes == Rotated(old(cups.nodes), 1)
    {
      ghost var s2 := cups.nodes;
      var current := cups.head;
      ChainNext(s2, 0);
      ChainSuffix(s2, 1);
      var rotated := cups.CircularRotate(current.next, s2[1..]);
      IndexOfAt(s2, 1);
    }

    /**
     * The first three steps of `move()`: take up the three cups after the
     * current one, pick the destination among the rest and put the three back
     * after it; rotating the result by one would complete the move.
     */
    method PickUpAndPutBack()
      requires Valid() && |cups.Contents()| >= 2
      modifies cups, cups.nodes
      ensures cups.Valid() && |cups.nodes| == |old(cups.nodes)|
      ensures forall i :: 0 <= i < |cups.nodes| ==> cups.nodes[i] in old(cups.nodes)
      ensures Values(Rotated(cups.nodes, 1)) == MoveSpec(old(cups.Contents()))
    {
      ghost var s0 := cups.nodes;
      ValuesLength(s0);
      var current := cups.head;
      IndexOfAt(s0, 0);
      assert Start(s0, current) == 1;
      var three := cups.RemoveFirst(3, current);
      assert cups.nodes == Removed(s0, 1, 3) && three.nodes == Taken(s0, 1, 3);
      RemovedTakenPartition(s0, 1, 3);
      RemovedTakenDisjoint(s0, 1, 3);
      assert forall i :: 0 <= i < |cups.nodes| ==> cups.nodes[i] in s0;
      assert forall i :: 0 <= i < |three.nodes| ==> three.nodes[i] in s0;
      var d := PutBack(current.value, three);
      PutBackShape(s0, d);
      MoveOnNodes(s0, d);
    }

    /** `insert(three, after: pickDesination(from: cup))`; `d` is the destination's position. */
    method PutBack(cup: int, three: LinkedList<int>) returns (ghost d: nat)
      requires cups.Valid() && cups.nodes != [] && three.Valid() && three.TailOk() && three != cups
      requires Disjoint(cups.nodes, three.nodes)
      modifies cups, cups.nodes, three.nodes
      ensures cups.Valid() && cups.head == old(cups.head)
      ensures var s1 := old(cups.nodes);
        d < |s1| && IsDestination(Values(s1), cup, d) &&
        cups.nodes == InsertedAsWritten(s1, d + 1, old(three.nodes))
    {
      ghost var s1 := cups.nodes;
      var destination := PickDestination(cup);
      d := DestinationIndex(Values(s1), cup);
      assert destination == s1[d];
      DestinationSpec(Values(s1), cup);
      IndexOfAt(s1, d);
      assert Start(s1, destination) == d + 1;
      cups.Insert(three, destination);
    }
  }

  /** The circle after the three are put back: as long as before, same current cup, no new cups. */
  lemma PutBackShape<X>(s0: seq<X>, d: nat)
    requires |s0| >= 2 && d < |Removed(s0, 1, 3)|
    ensures var s2 := InsertedAsWritten(Removed(s0, 1, 3), d + 1, Taken(s0, 1, 3));
      |s2| == |s0| && s2[0] == s0[0] && forall x :: x in s2 ==> x in s0
  {
    var s1, t := Removed(s0, 1, 3), Taken(s0, 1, 3);
    RemovedTakenPartition(s0, 1, 3);
    assert t != [];
    var s2 := InsertedAsWritten(s1, d + 1, t);
    assert s2 == s1[..d + 1] + t + s1[d + 1..];
    forall x | x in s2 ensures x in s0 {
      assert x in s1[..d + 1] || x in t || x in s1[d + 1..];
    }
  }

  /**
   * A move rewired on nodes, read back as labels: removing, re-inserting after
   * the `d`-th remaining node and rotating by one is `MoveSpec` on the labels.
   */
  lemma MoveOnNodes(s0: seq<ListNode<int>>, d: nat)
    requires |s0| >= 2 && d < |Removed(s0, 1, 3)|
    requires IsDestination(Values(Removed(s0, 1, 3)), s0[0].value, d)
    ensures |Values(s0)| == |s0| &&
      Values(Rotated(InsertedAsWritten(Removed(s0, 1, 3), d + 1, Taken(s0, 1, 3)), 1)) == MoveSpec(Values(s0))
  {
    var s1, t := Removed(s0, 1, 3), Taken(s0, 1, 3);
    ValuesRemoved(s0, 1, 3);
    ValuesTaken(s0, 1, 3);
    ValuesAt(s0);
    ValuesInserted(s1, d + 1, t);
    var s2 := InsertedAsWritten(s1, d + 1, t);
    ValuesRotated(s2, 1);
    MoveTo(Values(s0), Values(s1), Values(t), d);
  }

  /**
   * The recursive scan behind `filter(..).max()` on the nodes from `n`: the first
   * node of largest value among those whose value satisfies `p`, or null.
   */
  function MaxNode(n: ListNode?<int>, ghost chain: seq<ListNode<int>>, p: int -> bool): (r: ListNode?<int>)
    reads chain
    requires ChainFrom(n, chain)
    ensures |Values(chain)| == |chain| &&
      r == match FirstMax(Values(chain), p) case None => null case Some(i) => chain[i]
    decreases |chain|
  {
    ValuesAt(chain);
    if n == null then null
    else
      ChainSuffix(chain, 1);
      ChainNext(chain, 0);
      var vs := Values(chain);
      assert vs[0] == n.value && vs[1..] == Values(chain[1..]);
      var r := MaxNode(n.next, chain[1..], p);
      assert r != null ==> r.value == vs[1..][FirstMax(vs[1..], p).value];
      if p(n.value) && (r == null || r.value <= n.value) then n else r
  }
}
