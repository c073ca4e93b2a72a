/**
 * Handy haversacks: bag rules ("light red bags contain 1 bright white bag, ..."),
 * the inverse "contained by" relation, the transitive containers of a bag and
 * the number of bags a bag must hold. Rules arrive already parsed.
 */
module ColoredBags {
  import opened Wrappers
  import opened Seqs

  datatype Bag = Bag(pattern: string, color: string)

  datatype BagCount = BagCount(count: nat, bag: Bag)

  datatype Contents = ContainsBagCounts(counts: seq<BagCount>) | NoOtherBags {
    /** `bags`: the set of bags listed, `nil` for "no other bags". */
    function Bags(): (r: Option<set<Bag>>)
      ensures r.None? <==> NoOtherBags?
      ensures r.Some? ==> forall b :: b in r.value <==> exists i :: 0 <= i < |counts| && counts[i].bag == b
    {
      match this
      case ContainsBagCounts(counts) => Some(set i | 0 <= i < |counts| :: counts[i].bag)
      case NoOtherBags => None
    }
  }

  datatype Constraint = Constraint(bag: Bag, contents: Contents)

  /** The content set of a rule, empty for "no other bags" (`c.contents.bags ?? []`). */
  function ContentSet(c: Constraint): set<Bag>
  {
    c.contents.Bags().GetOr({})
  }

  predicate Mentions(c: Constraint, bag: Bag)
  {
    c.contents.Bags().Some? && bag in c.contents.Bags().value
  }

  /** `constraintsFrom(_:containing:)`: the rules whose contents list `bag`, in their order. */
  function ConstraintsFrom(constraints: seq<Constraint>, bag: Bag): (r: seq<Constraint>)
    ensures |r| <= |constraints|
    ensures forall c :: c in r <==> c in constraints && Mentions(c, bag)
  {
    var r := Filter(constraints, c => Mentions(c, bag));
    assert forall c :: c in r <==> c in constraints && Mentions(c, bag) by {
      forall c { InFilter(constraints, c => Mentions(c, bag), c); }
    }
    FilterLength(constraints, c => Mentions(c, bag));
    r
  }

  /**
   * The rules come out in the order they were given: a single rule is kept exactly
   * when it mentions the bag, and the result for a concatenation is the concatenation.
   */
  lemma ConstraintsFromOrder(a: seq<Constraint>, b: seq<Constraint>, bag: Bag)
    ensures ConstraintsFrom([], bag) == []
    ensures ConstraintsFrom(a + b, bag) == ConstraintsFrom(a, bag) + ConstraintsFrom(b, bag)
    ensures |b| == 1 ==> ConstraintsFrom(b, bag) == if Mentions(b[0], bag) then b else []
  {
    FilterConcat(a, b, c => Mentions(c, bag));
    if |b| == 1 {
      assert b[1..] == [];
    }
  }

  /** `directlyContains`: each rule's bag mapped to its content set; a later rule for the same bag wins. */
  function DirectlyContains(constraints: seq<Constraint>): (m: map<Bag, set<Bag>>)
    ensures forall b :: b in m <==> exists i :: 0 <= i < |constraints| && constraints[i].bag == b
  {
    if constraints == [] then map[]
    else
      var n := |constraints| - 1;
      var m := DirectlyContains(constraints[..n])[constraints[n].bag := ContentSet(constraints[n])];
      assert forall b :: b in m <==> exists i :: 0 <= i < |constraints| && constraints[i].bag == b by {
        forall b | b in m && b != constraints[n].bag ensures exists i :: 0 <= i < |constraints| && constraints[i].bag == b {
          var i :| 0 <= i < n && constraints[..n][i].bag == b;
          assert constraints[i].bag == b;
        }
        forall b | exists i :: 0 <= i < |constraints| && constraints[i].bag == b ensures b in m {
          var i :| 0 <= i < |constraints| && constraints[i].bag == b;
          if i < n { assert constraints[..n][i].bag == b; }
        }
      }
      m
  }

  /** The entry of a bag is the content set of the last rule for it. */
  lemma {:induction false} DirectlyContainsLast(constraints: seq<Constraint>, i: nat)
    requires i < |constraints|
    requires forall j :: i < j < |constraints| ==> constraints[j].bag != constraints[i].bag
    ensures DirectlyContains(constraints)[constraints[i].bag] == ContentSet(constraints[i])
  {
    var n := |constraints| - 1;
    if i < n {
      var init := constraints[..n];
      forall j | i < j < |init| ensures init[j].bag != init[i].bag {
        assert init[j] == constraints[j];
      }
      DirectlyContainsLast(init, i);
      assert init[i] == constraints[i];
    }
  }

  /** `b` is in the inverse relation's entry for `a` exactly when `a` is in the relation's entry for `b`. */
  ghost predicate IsInverse(m: map<Bag, set<Bag>>, inv: map<Bag, set<Bag>>)
  {
    (forall a, b :: b in m && a in m[b] ==> a in inv && b in inv[a]) &&
    (forall a, b :: a in inv && b in inv[a] ==> b in m && a in m[b])
  }

  /** `containedBy`: the inverse of `directlyContains`, built by visiting each entry and each of its bags. */
  method ContainedBy(directlyContains: map<Bag, set<Bag>>) returns (result: map<Bag, set<Bag>>)
    ensures IsInverse(directlyContains, result)
  {
    result := map[];
    var todo := directlyContains.Keys;
    while todo != {}
      invariant todo <= directlyContains.Keys
      invariant forall a, b :: b in directlyContains && b !in todo && a in directlyContains[b] ==> a in result && b in result[a]
      invariant forall a, b :: a in result && b in result[a] ==> b in directlyContains && b !in todo && a in directlyContains[b]
      decreases |todo|
    {
      var key :| key in todo;
      var values := directlyContains[key];
      while values != {}
        invariant values <= directlyContains[key]
        invariant forall a, b :: b in directlyContains && b !in todo && a in directlyContains[b] ==> a in result && b in result[a]
        invariant forall a :: a in directlyContains[key] && a !in values ==> a in result && key in result[a]
        invariant forall a, b :: a in result && b in result[a] ==> b in directlyContains && (b !in todo || b == key) && a in directlyContains[b]
        decreases |values|
      {
        var b :| b in values;
        result := result[b := (if b in result then result[b] else {}) + {key}];
        values := values - {b};
      }
      todo := todo - {key};
    }
  }

  /** A rank that strictly decreases along every "contained by" edge: the relation has no cycle. */
  ghost predicate Ranked(containedBy: map<Bag, set<Bag>>, rank: Bag -> nat)
  {
    forall b, y :: b in containedBy && y in containedBy[b] ==> rank(y) < rank(b)
  }

  /**
   * `canContainsFor`: the direct containers of a bag and, recursively, theirs.
   * The recursion ends only on an acyclic relation, which `rank` witnesses.
   */
  function CanContainsFor(containedBy: map<Bag, set<Bag>>, bag: Bag, ghost rank: Bag -> nat): set<Bag>
    requires Ranked(containedBy, rank)
    decreases rank(bag)
  {
    if bag !in containedBy then {}
    else
      var directs := containedBy[bag];
      directs + (set y, x | y in directs && x in CanContainsFor(containedBy, y, rank) :: x)
  }

  /** `p` walks along the relation: each bag is in the entry of the one before. */
  ghost predicate IsPath(containedBy: map<Bag, set<Bag>>, p: seq<Bag>)
  {
    |p| >= 2 && forall i :: 0 <= i < |p| - 1 ==> p[i] in containedBy && p[i + 1] in containedBy[p[i]]
  }

  /** `canContainsFor(bag)` is exactly the set of bags reachable from `bag` in one or more steps. */
  lemma CanContainsForReach(containedBy: map<Bag, set<Bag>>, bag: Bag, rank: Bag -> nat, x: Bag)
    requires Ranked(containedBy, rank)
    ensures x in CanContainsFor(containedBy, bag, rank) <==>
      exists p :: IsPath(containedBy, p) && p[0] == bag && p[|p| - 1] == x
  {
    if x in CanContainsFor(containedBy, bag, rank) {
      var p := PathTo(containedBy, bag, rank, x);
    }
    if exists p :: IsPath(containedBy, p) && p[0] == bag && p[|p| - 1] == x {
      var p :| IsPath(containedBy, p) && p[0] == bag && p[|p| - 1] == x;
      PathIn(containedBy, p, rank);
    }
  }

  lemma PathTo(containedBy: map<Bag, set<Bag>>, bag: Bag, rank: Bag -> nat, x: Bag) returns (p: seq<Bag>)
    requires Ranked(containedBy, rank)
    requires x in CanContainsFor(containedBy, bag, rank)
    ensures IsPath(containedBy, p) && p[0] == bag && p[|p| - 1] == x
    decreases rank(bag)
  {
    var directs := containedBy[bag];
    if x in directs {
      p := [bag, x];
    } else {
      var y :| y in directs && x in CanContainsFor(containedBy, y, rank);
      var q := PathTo(containedBy, y, rank, x);
      p := [bag] + q;
      forall i | 0 <= i < |p| - 1 ensures p[i] in containedBy && p[i + 1] in containedBy[p[i]] {
        if i > 0 { assert p[i] == q[i - 1] && p[i + 1] == q[i]; }
      }
    }
  }

  lemma {:induction false} PathIn(containedBy: map<Bag, set<Bag>>, p: seq<Bag>, rank: Bag -> nat)
    requires Ranked(containedBy, rank)
    requires IsPath(containedBy, p)
    ensures p[|p| - 1] in CanContainsFor(containedBy, p[0], rank)
    decreases |p|
  {
    assert p[0] in containedBy && p[1] in containedBy[p[0]];
    if |p| > 2 {
      var q := p[1..];
      forall i | 0 <= i < |q| - 1 ensures q[i] in containedBy && q[i + 1] in containedBy[q[i]] {
        assert q[i] == p[i + 1] && q[i + 1] == p[i + 2];
      }
      PathIn(containedBy, q, rank);
      assert q[|q| - 1] == p[|p| - 1];
    }
  }

  /** `constraintFor`: the first rule for a bag. */
  function ConstraintFor(constraints: seq<Constraint>, bag: Bag): (r: Option<Constraint>)
    ensures r.Some? <==> exists i :: 0 <= i < |constraints| && constraints[i].bag == bag
    ensures r.Some? ==> r.value in constraints && r.value.bag == bag
  {
    if constraints == [] then None
    else if constraints[0].bag == bag then Some(constraints[0])
    else
      var r := ConstraintFor(constraints[1..], bag);
      assert r.Some? <==> exists i :: 0 <= i < |constraints| && constraints[i].bag == bag by {
        if exists i :: 0 <= i < |constraints| && constraints[i].bag == bag {
          var i :| 0 <= i < |constraints| && constraints[i].bag == bag;
          assert constraints[1..][i - 1].bag == bag;
        }
        if r.Some? {
          var i :| 0 <= i < |constraints[1..]| && constraints[1..][i].bag == bag;
          assert constraints[i + 1].bag == bag;
        }
      }
      r
  }

  /** `constraintFor` picks the first rule for the bag: the rule at `k` when no earlier rule is for its bag. */
  lemma {:induction false} ConstraintForFirst(constraints: seq<Constraint>, k: nat)
    requires k < |constraints|
    requires forall j :: 0 <= j < k ==> constraints[j].bag != constraints[k].bag
    ensures ConstraintFor(constraints, constraints[k].bag) == Some(constraints[k])
  {
    if k > 0 {
      var rest := constraints[1..];
      forall j | 0 <= j < k - 1 ensures rest[j].bag != rest[k - 1].bag {
        assert rest[j] == constraints[j + 1];
      }
      ConstraintForFirst(rest, k - 1);
    }
  }

  /**
   * The rules can be counted through: every bag a rule lists has a rule of its
   * own, and `rank` strictly decreases from a rule's bag to every bag it lists.
   * `mustContain` traps without the former and does not end without the latter.
   */
  ghost predicate Countable(constraints: seq<Constraint>, rank: Bag -> nat)
  {
    forall c :: c in constraints ==> CountableRule(constraints, rank, c)
  }

  ghost predicate CountableRule(constraints: seq<Constraint>, rank: Bag -> nat, c: Constraint)
  {
    c.contents.ContainsBagCounts? ==> forall bc :: bc in c.contents.counts ==>
      rank(bc.bag) < rank(c.bag) && ConstraintFor(constraints, bc.bag).Some?
  }

  /** `mustContain`: 0 for "no other bags", otherwise the sum of `count * (1 + mustContain(bag))`. */
  function MustContain(constraints: seq<Constraint>, bag: Bag, ghost rank: Bag -> nat): nat
    requires Countable(constraints, rank)
    requires ConstraintFor(constraints, bag).Some?
    decreases rank(bag), 1
  {
    match ConstraintFor(constraints, bag).value.contents
    case NoOtherBags => 0
    case ContainsBagCounts(counts) => CountsTotal(constraints, counts, rank, rank(bag))
  }

  /** `bagCounts.map { count * (1 + mustContain(bag)) }.reduce(0, +)`. */
  function CountsTotal(constraints: seq<Constraint>, counts: seq<BagCount>, ghost rank: Bag -> nat, ghost bound: nat): nat
    requires Countable(constraints, rank)
    requires forall bc :: bc in counts ==> rank(bc.bag) < bound && ConstraintFor(constraints, bc.bag).Some?
    decreases bound, 0, |counts|
  {
    if counts == [] then 0
    else counts[0].count * (1 + MustContain(constraints, counts[0].bag, rank)) + CountsTotal(constraints, counts[1..], rank, bound)
  }

  /** One unfolding of `MustContain` for a bag whose rule lists `counts`. */
  lemma MustContainUnfold(constraints: seq<Constraint>, bag: Bag, rank: Bag -> nat, counts: seq<BagCount>)
    requires Countable(constraints, rank)
    requires ConstraintFor(constraints, bag).Some? && ConstraintFor(constraints, bag).value.contents == ContainsBagCounts(counts)
    ensures forall bc :: bc in counts ==> rank(bc.bag) < rank(bag) && ConstraintFor(constraints, bc.bag).Some?
    ensures MustContain(constraints, bag, rank) == CountsTotal(constraints, counts, rank, rank(bag))
  {
    assert CountableRule(constraints, rank, ConstraintFor(constraints, bag).value);
  }

  /** `CountsTotal` of a two-entry list. */
  lemma CountsTotalPair(constraints: seq<Constraint>, a: BagCount, b: BagCount, rank: Bag -> nat, bound: nat)
    requires Countable(constraints, rank)
    requires rank(a.bag) < bound && ConstraintFor(constraints, a.bag).Some?
    requires rank(b.bag) < bound && ConstraintFor(constraints, b.bag).Some?
    ensures CountsTotal(constraints, [a, b], rank, bound) ==
      a.count * (1 + MustContain(constraints, a.bag, rank)) + b.count * (1 + MustContain(constraints, b.bag, rank))
  {
    assert [a, b][1..] == [b];
    assert [b][1..] == [];
    assert CountsTotal(constraints, [b], rank, bound) == b.count * (1 + MustContain(constraints, b.bag, rank));
  }

  /** `n` copies of `s`. */
  function Repeat<X>(n: nat, s: seq<X>): seq<X>
  {
    if n == 0 then [] else s + Repeat(n - 1, s)
  }

  /** Every bag inside `bag`, one entry per physical bag: each listed bag, `count` times, followed by what it holds. */
  function Inside(constraints: seq<Constraint>, bag: Bag, ghost rank: Bag -> nat): seq<Bag>
    requires Countable(constraints, rank)
    requires ConstraintFor(constraints, bag).Some?
    decreases rank(bag), 1
  {
    match ConstraintFor(constraints, bag).value.contents
    case NoOtherBags => []
    case ContainsBagCounts(counts) => InsideAll(constraints, counts, rank, rank(bag))
  }

  function InsideAll(constraints: seq<Constraint>, counts: seq<BagCount>, ghost rank: Bag -> nat, ghost bound: nat): seq<Bag>
    requires Countable(constraints, rank)
    requires forall bc :: bc in counts ==> rank(bc.bag) < bound && ConstraintFor(constraints, bc.bag).Some?
    decreases bound, 0, |counts|
  {
    if counts == [] then []
    else Repeat(counts[0].count, [counts[0].bag] + Inside(constraints, counts[0].bag, rank)) + InsideAll(constraints, counts[1..], rank, bound)
  }

  lemma {:induction false} RepeatLength<X>(n: nat, s: seq<X>)
    ensures |Repeat(n, s)| == n * |s|
  {
    if n > 0 {
      RepeatLength(n - 1, s);
      assert n * |s| == (n - 1) * |s| + |s|;
    }
  }

  /** `mustContain` is the number of bags found inside when every listed bag is unpacked. */
  lemma {:induction false} MustContainCountsInside(constraints: seq<Constraint>, bag: Bag, rank: Bag -> nat)
    requires Countable(constraints, rank)
    requires ConstraintFor(constraints, bag).Some?
    ensures MustContain(constraints, bag, rank) == |Inside(constraints, bag, rank)|
    decreases rank(bag), 1
  {
    match ConstraintFor(constraints, bag).value.contents
    case NoOtherBags =>
    case ContainsBagCounts(counts) =>
      CountsTotalCountsInside(constraints, counts, rank, rank(bag));
  }

  lemma {:induction false} CountsTotalCountsInside(constraints: seq<Constraint>, counts: seq<BagCount>, rank: Bag -> nat, bound: nat)
    requires Countable(constraints, rank)
    requires forall bc :: bc in counts ==> rank(bc.bag) < bound && ConstraintFor(constraints, bc.bag).Some?
    ensures CountsTotal(constraints, counts, rank, bound) == |InsideAll(constraints, counts, rank, bound)|
    decreases bound, 0, |counts|
  {
    if counts != [] {
      var bc := counts[0];
      var unit := [bc.bag] + Inside(constraints, bc.bag, rank);
      MustContainCountsInside(constraints, bc.bag, rank);
      assert |unit| == 1 + MustContain(constraints, bc.bag, rank);
      RepeatLength(bc.count, unit);
      CountsTotalCountsInside(constraints, counts[1..], rank, bound);
      assert InsideAll(constraints, counts, rank, bound) == Repeat(bc.count, unit) + InsideAll(constraints, counts[1..], rank, bound);
      assert CountsTotal(constraints, counts, rank, bound) == bc.count * |unit| + CountsTotal(constraints, counts[1..], rank, bound);
    }
  }

  /** `BagChecker`: the rules and the two relations computed from them once, at construction. */
  class BagChecker {
    const constraints: seq<Constraint>
    const directlyContains: map<Bag, set<Bag>>
    const containedBy: map<Bag, set<Bag>>

    constructor (constraints: seq<Constraint>)
      ensures this.constraints == constraints
      ensures directlyContains == DirectlyContains(constraints)
      ensures IsInverse(directlyContains, containedBy)
    {
      this.constraints := constraints;
      var dc := DirectlyContains(constraints);
      var cb := ContainedBy(dc);
      directlyContains := dc;
      containedBy := cb;
    }
  }
}
