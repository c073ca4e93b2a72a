/**
 * Ticket translation (day 16): rules name two closed ranges each, a ticket is a
 * list of values; values that no range admits are invalid, and the rules that
 * admit every valid ticket's value at a position are the candidates for that
 * position.
 */
module Tickets {
  import opened Wrappers
  import opened Seqs
  import opened Collections

  /** A closed range `lo ... hi`; the parser builds it from two integers. */
  datatype IntRange = IntRange(lo: int, hi: int) {
    predicate Contains(v: int)
    {
      lo <= v <= hi
    }
  }

  datatype Rule = Rule(name: string, range1: IntRange, range2: IntRange) {
    /** The test both `validRulesForTicket` and, through `allRanges`, `isInvalidValue` apply. */
    predicate Admits(v: int)
    {
      range1.Contains(v) || range2.Contains(v)
    }
  }

  type Ticket = seq<int>

  datatype RulesAndTickets = RulesAndTickets(rules: seq<Rule>, ticket: Ticket, nearbyTickets: seq<Ticket>)

  /** `allRanges`: both ranges of every rule, rule by rule. */
  function AllRanges(rules: seq<Rule>): (r: seq<IntRange>)
    ensures |r| == 2 * |rules|
    ensures forall i :: 0 <= i < |rules| ==> r[2 * i] == rules[i].range1 && r[2 * i + 1] == rules[i].range2
  {
    if rules == [] then []
    else
      var rest := AllRanges(rules[1..]);
      assert forall i :: 1 <= i < |rules| ==> rules[i] == rules[1..][i - 1];
      [rules[0].range1, rules[0].range2] + rest
  }

  /** The rule a position of `allRanges` comes from. */
  lemma {:induction false} Halve(k: nat, n: nat) returns (i: nat)
    requires k < 2 * n
    ensures i < n && (k == 2 * i || k == 2 * i + 1)
  {
    if k < 2 {
      i := 0;
    } else {
      i := Halve(k - 2, n - 1);
      i := i + 1;
    }
  }

  /** Some range of `allRanges` holds `v`. */
  predicate SomeRangeHolds(rules: seq<Rule>, v: int)
  {
    exists k :: 0 <= k < |AllRanges(rules)| && AllRanges(rules)[k].Contains(v)
  }

  /** Some rule admits `v`. */
  predicate SomeRuleAdmits(rules: seq<Rule>, v: int)
  {
    exists i :: 0 <= i < |rules| && rules[i].Admits(v)
  }

  /** Some range of `allRanges` holds `v` exactly when some rule admits it. */
  lemma AllRangesAdmit(rules: seq<Rule>, v: int)
    ensures SomeRangeHolds(rules, v) <==> SomeRuleAdmits(rules, v)
  {
    var all := AllRanges(rules);
    if SomeRangeHolds(rules, v) {
      var k :| 0 <= k < |all| && all[k].Contains(v);
      var i := Halve(k, |rules|);
      assert rules[i].Admits(v);
    }
    if SomeRuleAdmits(rules, v) {
      var i :| 0 <= i < |rules| && rules[i].Admits(v);
      var k := if rules[i].range1.Contains(v) then 2 * i else 2 * i + 1;
      assert all[k].Contains(v);
    }
  }

  /** `isInvalidValue`: no range of `allRanges` holds the value. */
  function IsInvalidValue(rt: RulesAndTickets, v: int): bool
  {
    FirstWhere(AllRanges(rt.rules), (r: IntRange) => r.Contains(v)) == None
  }

  /** A value is invalid exactly when no rule admits it through either of its ranges. */
  lemma IsInvalidValueSpec(rt: RulesAndTickets, v: int)
    ensures IsInvalidValue(rt, v) <==> forall i :: 0 <= i < |rt.rules| ==> !rt.rules[i].Admits(v)
  {
    AllRangesAdmit(rt.rules, v);
  }

  /** `invalidTicketValues`: the ticket's invalid values, in ticket order. */
  function InvalidTicketValues(rt: RulesAndTickets, ticket: Ticket): seq<int>
  {
    Filter(ticket, v => IsInvalidValue(rt, v))
  }

  /** The invalid values are exactly the ticket's values no rule admits, and there are at most as many as values. */
  lemma InvalidTicketValuesSpec(rt: RulesAndTickets, ticket: Ticket)
    ensures |InvalidTicketValues(rt, ticket)| <= |ticket|
    ensures forall v :: v in InvalidTicketValues(rt, ticket) <==> v in ticket && forall i :: 0 <= i < |rt.rules| ==> !rt.rules[i].Admits(v)
  {
    FilterLength(ticket, v => IsInvalidValue(rt, v));
    forall v ensures v in InvalidTicketValues(rt, ticket) <==> v in ticket && IsInvalidValue(rt, v) {
      InFilter(ticket, v => IsInvalidValue(rt, v), v);
    }
    forall v ensures IsInvalidValue(rt, v) <==> forall i :: 0 <= i < |rt.rules| ==> !rt.rules[i].Admits(v) {
      IsInvalidValueSpec(rt, v);
    }
  }

  /** `isInvalidTicket`: some value of the ticket is invalid. */
  function IsInvalidTicket(rt: RulesAndTickets, ticket: Ticket): bool
  {
    FirstWhere(ticket, v => IsInvalidValue(rt, v)) != None
  }

  /** A ticket is invalid exactly when it has an invalid value, that is when `invalidTicketValues` is not empty. */
  lemma IsInvalidTicketSpec(rt: RulesAndTickets, ticket: Ticket)
    ensures IsInvalidTicket(rt, ticket) <==> exists i :: 0 <= i < |ticket| && IsInvalidValue(rt, ticket[i])
    ensures IsInvalidTicket(rt, ticket) <==> InvalidTicketValues(rt, ticket) != []
  {
    if IsInvalidTicket(rt, ticket) {
      var i :| 0 <= i < |ticket| && IsInvalidValue(rt, ticket[i]);
      InFilter(ticket, v => IsInvalidValue(rt, v), ticket[i]);
    }
    if InvalidTicketValues(rt, ticket) != [] {
      var v := InvalidTicketValues(rt, ticket)[0];
      InFilter(ticket, v => IsInvalidValue(rt, v), v);
    }
  }

  /** `validTickets`: the nearby tickets that are not invalid, in order. */
  function ValidTickets(rt: RulesAndTickets): seq<Ticket>
  {
    Filter(rt.nearbyTickets, t => !IsInvalidTicket(rt, t))
  }

  /** The valid tickets are the nearby tickets every value of which some rule admits. */
  lemma ValidTicketsSpec(rt: RulesAndTickets)
    ensures |ValidTickets(rt)| <= |rt.nearbyTickets|
    ensures forall t :: t in ValidTickets(rt) <==>
      t in rt.nearbyTickets && forall k :: 0 <= k < |t| ==> exists i :: 0 <= i < |rt.rules| && rt.rules[i].Admits(t[k])
  {
    FilterLength(rt.nearbyTickets, t => !IsInvalidTicket(rt, t));
    forall t ensures t in ValidTickets(rt) <==>
      t in rt.nearbyTickets && forall k :: 0 <= k < |t| ==> exists i :: 0 <= i < |rt.rules| && rt.rules[i].Admits(t[k])
    {
      InFilter(rt.nearbyTickets, t => !IsInvalidTicket(rt, t), t);
      IsInvalidTicketSpec(rt, t);
      forall k | 0 <= k < |t| {
        IsInvalidValueSpec(rt, t[k]);
      }
    }
  }

  /** The names of the rules that admit `v`. */
  function NamesAdmitting(rules: seq<Rule>, v: int): set<string>
  {
    AsSet(Map(Filter(rules, (rule: Rule) => rule.Admits(v)), (rule: Rule) => rule.name))
  }

  lemma NamesAdmittingSpec(rules: seq<Rule>, v: int, name: string)
    ensures name in NamesAdmitting(rules, v) <==> exists i :: 0 <= i < |rules| && rules[i].name == name && rules[i].Admits(v)
  {
    var p := (rule: Rule) => rule.Admits(v);
    var admitting := Filter(rules, p);
    if name in NamesAdmitting(rules, v) {
      var rule := MapInv(admitting, (rule: Rule) => rule.name, name);
      InFilter(rules, p, rule);
    }
    if exists i :: 0 <= i < |rules| && rules[i].name == name && rules[i].Admits(v) {
      var i :| 0 <= i < |rules| && rules[i].name == name && rules[i].Admits(v);
      InFilter(rules, p, rules[i]);
      InMap(admitting, (rule: Rule) => rule.name, rules[i]);
    }
  }

  /** `validRulesForTicket`: for each value of the ticket, the names of the rules that admit it. */
  function ValidRulesForTicket(rt: RulesAndTickets, ticket: Ticket): (r: seq<set<string>>)
    ensures |r| == |ticket|
  {
    Map(ticket, v => NamesAdmitting(rt.rules, v))
  }

  /** A name is a candidate at position `k` of one ticket exactly when a rule of that name admits the value there. */
  lemma ValidRulesForTicketSpec(rt: RulesAndTickets, ticket: Ticket, k: nat, name: string)
    requires k < |ticket|
    ensures name in ValidRulesForTicket(rt, ticket)[k] <==>
      exists i :: 0 <= i < |rt.rules| && rt.rules[i].name == name && rt.rules[i].Admits(ticket[k])
  {
    NamesAdmittingSpec(rt.rules, ticket[k], name);
  }

  /** `zip(result, next).map { $0.intersection($1) }`: position-wise intersection, as long as the shorter list. */
  function ZipIntersect(l: seq<set<string>>, r: seq<set<string>>): (z: seq<set<string>>)
    ensures |z| == if |l| <= |r| then |l| else |r|
  {
    seq(if |l| <= |r| then |l| else |r|, i requires 0 <= i < |l| && 0 <= i < |r| => l[i] * r[i])
  }

  /** `validRulesForTickets`: the per-ticket candidates intersected position by position; it traps on no tickets. */
  function ValidRulesForTickets(rt: RulesAndTickets, tickets: seq<Ticket>): seq<set<string>>
    requires |tickets| > 0
  {
    ReduceFirst(Map(tickets, t => ValidRulesForTicket(rt, t)), ZipIntersect)
  }

  /**
   * Intersecting lists of candidate sets position by position gives a list as
   * long as the shortest of them, whose set at `k` holds what every list's set
   * at `k` holds.
   */
  lemma {:induction false} ZipIntersectAll(ls: seq<seq<set<string>>>)
    requires |ls| > 0
    ensures var z := ReduceFirst(ls, ZipIntersect);
      (forall j :: 0 <= j < |ls| ==> |z| <= |ls[j]|) &&
      (exists j :: 0 <= j < |ls| && |z| == |ls[j]|) &&
      forall k, name :: 0 <= k < |z| ==> (name in z[k] <==> forall j :: 0 <= j < |ls| ==> name in ls[j][k])
  {
    var n := |ls| - 1;
    if n == 0 {
      ReduceFirstSteps([], ls[0], ZipIntersect);
      assert ls == [ls[0]];
    } else {
      var init := ls[..n];
      assert ls == init + [ls[n]];
      ZipIntersectAll(init);
      ReduceFirstSteps(init, ls[n], ZipIntersect);
      var y := ReduceFirst(init, ZipIntersect);
      var z := ReduceFirst(ls, ZipIntersect);
      assert z == ZipIntersect(y, ls[n]);
      assert forall j :: 0 <= j < n ==> ls[j] == init[j];
      if |y| <= |ls[n]| {
        var j :| 0 <= j < n && |y| == |init[j]|;
        assert |z| == |ls[j]|;
      } else {
        assert |z| == |ls[n]|;
      }
    }
  }

  /** Some rule named `name` admits the value at position `k` of every ticket. */
  ghost predicate AdmittedAt(rules: seq<Rule>, tickets: seq<Ticket>, k: nat, name: string)
  {
    forall j :: 0 <= j < |tickets| && k < |tickets[j]| ==>
      exists i :: 0 <= i < |rules| && rules[i].name == name && rules[i].Admits(tickets[j][k])
  }

  /**
   * The combined candidates are no longer than any ticket and as long as one of
   * them, and a name is a candidate at position `k` exactly when, on every
   * ticket, a rule of that name admits the value at `k`.
   */
  lemma ValidRulesForTicketsSpec(rt: RulesAndTickets, tickets: seq<Ticket>)
    requires |tickets| > 0
    ensures var z := ValidRulesForTickets(rt, tickets);
      (forall j :: 0 <= j < |tickets| ==> |z| <= |tickets[j]|) &&
      (exists j :: 0 <= j < |tickets| && |z| == |tickets[j]|) &&
      forall k, name :: 0 <= k < |z| ==> (name in z[k] <==> AdmittedAt(rt.rules, tickets, k, name))
  {
    var ls := Map(tickets, t => ValidRulesForTicket(rt, t));
    ZipIntersectAll(ls);
    var z := ValidRulesForTickets(rt, tickets);
    assert forall j :: 0 <= j < |tickets| ==> ls[j] == ValidRulesForTicket(rt, tickets[j]);
    forall k, name | 0 <= k < |z|
      ensures name in z[k] <==> AdmittedAt(rt.rules, tickets, k, name)
    {
      forall j | 0 <= j < |tickets| {
        ValidRulesForTicketSpec(rt, tickets[j], k, name);
      }
    }
  }
}
