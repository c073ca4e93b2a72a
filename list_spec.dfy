/**
 * Sequence-level meaning of the splice operations of the linked list: what the
 * chain of nodes (and so the list of values) becomes after `insert(list, after:)`,
 * `removeFirst(k, after:)` and `circularRotate(to:)`. An anchor is described by
 * `at`, the position just after it (0 for "no anchor", i.e. the front).
 */
module ListSpec {
  function Min(a: int, b: int): int
  {
    if a <= b then a else b
  }

  /** `ins` placed between the first `at` elements of `s` and the rest. */
  function Spliced<X>(s: seq<X>, at: nat, ins: seq<X>): seq<X>
    requires at <= |s|
  {
    s[..at] + ins + s[at..]
  }

  /**
   * `insert(list, after:)` as the code behaves: the anchor (or the head) is
   * pointed at the inserted list's first node, so an empty inserted list cuts
   * the receiver off after the anchor.
   */
  function InsertedAsWritten<X>(s: seq<X>, at: nat, ins: seq<X>): seq<X>
    requires at <= |s|
  {
    if ins == [] then s[..at] else Spliced(s, at, ins)
  }

  /** What `removeFirst(k, after:)` leaves behind: the run of up to `k` elements at `at` is gone. */
  function Removed<X>(s: seq<X>, at: nat, k: int): seq<X>
    requires at <= |s|
  {
    if k <= 0 then s else s[..at] + s[Min(at + k, |s|)..]
  }

  /** What `removeFirst(k, after:)` returns: the run of up to `k` elements at `at`. */
  function Taken<X>(s: seq<X>, at: nat, k: int): seq<X>
    requires at <= |s|
  {
    if k <= 0 then [] else s[at..Min(at + k, |s|)]
  }

  /** `circularRotate`: the element at `m` becomes the first, the prefix moves to the end. */
  function Rotated<X>(s: seq<X>, m: nat): seq<X>
    requires m <= |s|
  {
    s[m..] + s[..m]
  }

  /** Position of the first element satisfying `p`, or `|s|` when there is none. */
  function FirstIndexWhere<X>(s: seq<X>, p: X -> bool): (i: nat)
    ensures i <= |s|
    ensures i < |s| ==> p(s[i])
    ensures forall j :: 0 <= j < i ==> !p(s[j])
  {
    if s == [] then 0 else if p(s[0]) then 0 else 1 + FirstIndexWhere(s[1..], p)
  }

  ghost predicate Disjoint<X>(a: seq<X>, b: seq<X>)
  {
    forall x :: x in a ==> x !in b
  }

  /** Removing a run splits the sequence into what is left and what is taken. */
  lemma RemovedTakenPartition<X>(s: seq<X>, at: nat, k: int)
    requires at <= |s|
    ensures |Removed(s, at, k)| + |Taken(s, at, k)| == |s|
    ensures multiset(Removed(s, at, k)) + multiset(Taken(s, at, k)) == multiset(s)
    ensures forall x :: x in Removed(s, at, k) ==> x in s
    ensures forall x :: x in Taken(s, at, k) ==> x in s
    ensures k > 0 ==> Removed(s, at, k)[..at] == s[..at]
  {
    if k > 0 {
      var e := Min(at + k, |s|);
      assert s == s[..at] + s[at..e] + s[e..];
      calc {
        multiset(s);
        multiset(s[..at] + s[at..e] + s[e..]);
        multiset(s[..at]) + multiset(s[at..e]) + multiset(s[e..]);
      }
    }
  }

  /** Over a duplicate-free sequence, the remainder and the taken run share nothing. */
  lemma RemovedTakenDisjoint<X>(s: seq<X>, at: nat, k: int)
    requires at <= |s|
    requires forall i, j :: 0 <= i < j < |s| ==> s[i] != s[j]
    ensures Disjoint(Removed(s, at, k), Taken(s, at, k))
  {
    if k > 0 {
      var e := Min(at + k, |s|);
      assert Removed(s, at, k) == s[..at] + s[e..] && Taken(s, at, k) == s[at..e];
    }
  }

  /**
   * Re-inserting the taken run at the same place restores the sequence exactly
   * when something was asked for (`k > 0`) or the anchor is the end: with `k <= 0`
   * the empty run is inserted, which cuts the sequence at the anchor.
   */
  lemma RemoveThenInsertRestores<X>(s: seq<X>, at: nat, k: int)
    requires at <= |s|
    ensures InsertedAsWritten(Removed(s, at, k), at, Taken(s, at, k)) == s <==> (k > 0 || at == |s|)
  {
    var r, t := Removed(s, at, k), Taken(s, at, k);
    if k > 0 {
      var e := Min(at + k, |s|);
      assert r[..at] == s[..at] && r[at..] == s[e..];
      if t == [] {
        assert e == at;
      } else {
        assert s == s[..at] + s[at..e] + s[e..];
      }
    } else if at < |s| {
      assert |InsertedAsWritten(r, at, t)| == at;
    }
  }

  /** Splicing adds exactly the inserted elements. */
  lemma SplicedMultiset<X>(s: seq<X>, at: nat, ins: seq<X>)
    requires at <= |s|
    ensures |Spliced(s, at, ins)| == |s| + |ins|
    ensures multiset(Spliced(s, at, ins)) == multiset(s) + multiset(ins)
  {
    assert s == s[..at] + s[at..];
  }

  /** Rotation only reorders: same length and elements, the `m`-th element first, and it is undone by rotating by the rest. */
  lemma RotatedLaws<X>(s: seq<X>, m: nat)
    requires m <= |s|
    ensures |Rotated(s, m)| == |s|
    ensures multiset(Rotated(s, m)) == multiset(s)
    ensures m < |s| ==> Rotated(s, m)[0] == s[m]
    ensures Rotated(Rotated(s, m), |s| - m) == s
  {
    assert s == s[..m] + s[m..];
    var r := Rotated(s, m);
    assert r[..|s| - m] == s[m..] && r[|s| - m..] == s[..m];
  }
}
