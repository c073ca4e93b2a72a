/** The two examples of day 16: the invalid values 4, 55 and 12 (71 in all), and the candidate fields of the second. */
module TicketsExample {
  import opened Seqs
  import opened Collections
  import opened Tickets

  const Example := RulesAndTickets(
    [Rule("class", IntRange(1, 3), IntRange(5, 7)),
     Rule("row", IntRange(6, 11), IntRange(33, 44)),
     Rule("seat", IntRange(13, 40), IntRange(45, 50))],
    [7, 1, 14],
    [[7, 3, 47], [40, 4, 50], [55, 2, 20], [38, 6, 12]])

  const ExampleTwo := RulesAndTickets(
    [Rule("class", IntRange(0, 1), IntRange(4, 19)),
     Rule("row", IntRange(0, 5), IntRange(8, 19)),
     Rule("seat", IntRange(0, 13), IntRange(16, 19))],
    [11, 12, 13],
    [[3, 9, 18], [15, 1, 5], [5, 14, 9]])

  /** The nearby tickets' invalid values are 4, 55 and 12, which sum to 71. */
  lemma ExampleInvalidValues()
    ensures FlatMap(Example.nearbyTickets, t => InvalidTicketValues(Example, t)) == [4, 55, 12]
    ensures Sum([4, 55, 12]) == 71
  {
    InvalidValuesOn(Example);
  }

  lemma InvalidValuesOn(rt: RulesAndTickets)
    requires rt == Example
    ensures FlatMap(rt.nearbyTickets, t => InvalidTicketValues(rt, t)) == [4, 55, 12]
  {
    Ticket0(rt);
    Ticket1(rt);
    Ticket2(rt);
    Ticket3(rt);
    InvalidValuesOfFour(rt);
  }

  lemma InvalidValuesOfFour(rt: RulesAndTickets)
    requires |rt.nearbyTickets| == 4
    requires var ts := rt.nearbyTickets;
      InvalidTicketValues(rt, ts[0]) == [] && InvalidTicketValues(rt, ts[1]) == [4] &&
      InvalidTicketValues(rt, ts[2]) == [55] && InvalidTicketValues(rt, ts[3]) == [12]
    ensures FlatMap(rt.nearbyTickets, t => InvalidTicketValues(rt, t)) == [4, 55, 12]
  {
    FlatMapFour(rt.nearbyTickets, t => InvalidTicketValues(rt, t));
    assert [] + [4] + [55] + [12] == [4, 55, 12];
  }

  /** Only the first nearby ticket is valid. */
  lemma ExampleValidTickets()
    ensures ValidTickets(Example) == [[7, 3, 47]]
  {
    ValidOn(Example);
  }

  lemma ValidOn(rt: RulesAndTickets)
    requires rt == Example
    ensures ValidTickets(rt) == [[7, 3, 47]]
  {
    Ticket0(rt);
    Ticket1(rt);
    Ticket2(rt);
    Ticket3(rt);
    FilterFirstOfFour(rt.nearbyTickets, t => !IsInvalidTicket(rt, t));
  }

  lemma FlatMapFour<A, B>(s: seq<A>, f: A -> seq<B>)
    requires |s| == 4
    ensures FlatMap(s, f) == f(s[0]) + f(s[1]) + f(s[2]) + f(s[3])
  {
    assert s[4..] == [];
    assert s[3..][1..] == s[4..] && s[2..][1..] == s[3..] && s[1..][1..] == s[2..];
    assert s[3..][0] == s[3] && s[2..][0] == s[2] && s[1..][0] == s[1];
    assert FlatMap(s[3..], f) == f(s[3]);
    assert FlatMap(s[2..], f) == f(s[2]) + f(s[3]);
  }

  lemma FilterFirstOfFour<A>(s: seq<A>, p: A -> bool)
    requires |s| == 4 && p(s[0]) && !p(s[1]) && !p(s[2]) && !p(s[3])
    ensures Filter(s, p) == [s[0]]
  {
    assert s[4..] == [];
    assert s[3..][1..] == s[4..] && s[2..][1..] == s[3..] && s[1..][1..] == s[2..];
    assert s[3..][0] == s[3] && s[2..][0] == s[2] && s[1..][0] == s[1];
    assert Filter(s[3..], p) == [];
    assert Filter(s[2..], p) == [];
  }

  lemma Ticket0(rt: RulesAndTickets)
    requires rt == Example
    ensures !IsInvalidTicket(rt, rt.nearbyTickets[0]) && InvalidTicketValues(rt, rt.nearbyTickets[0]) == []
  {
    var t := rt.nearbyTickets[0];
    assert rt.rules[0].Admits(t[0]) && rt.rules[0].Admits(t[1]) && rt.rules[2].Admits(t[2]);
    Valid(rt, t);
  }

  lemma Ticket1(rt: RulesAndTickets)
    requires rt == Example
    ensures IsInvalidTicket(rt, rt.nearbyTickets[1]) && InvalidTicketValues(rt, rt.nearbyTickets[1]) == [4]
  {
    var t := rt.nearbyTickets[1];
    assert rt.rules[1].Admits(t[0]) && rt.rules[2].Admits(t[2]);
    InvalidAt(rt, t, 1);
  }

  lemma Ticket2(rt: RulesAndTickets)
    requires rt == Example
    ensures IsInvalidTicket(rt, rt.nearbyTickets[2]) && InvalidTicketValues(rt, rt.nearbyTickets[2]) == [55]
  {
    var t := rt.nearbyTickets[2];
    assert rt.rules[0].Admits(t[1]) && rt.rules[2].Admits(t[2]);
    InvalidAt(rt, t, 0);
  }

  lemma Ticket3(rt: RulesAndTickets)
    requires rt == Example
    ensures IsInvalidTicket(rt, rt.nearbyTickets[3]) && InvalidTicketValues(rt, rt.nearbyTickets[3]) == [12]
  {
    var t := rt.nearbyTickets[3];
    assert rt.rules[1].Admits(t[0]) && rt.rules[0].Admits(t[1]);
    InvalidAt(rt, t, 2);
  }

  /** In the second example every nearby ticket is valid, and the candidates per position are row; class or row; any. */
  lemma ExampleTwoCandidates()
    ensures ValidTickets(ExampleTwo) == ExampleTwo.nearbyTickets
    ensures ValidRulesForTickets(ExampleTwo, ValidTickets(ExampleTwo)) == [{"row"}, {"class", "row"}, {"class", "row", "seat"}]
  {
    CandidatesOn(ExampleTwo);
  }

  lemma CandidatesOn(rt: RulesAndTickets)
    requires rt == ExampleTwo
    ensures ValidTickets(rt) == rt.nearbyTickets
    ensures ValidRulesForTickets(rt, rt.nearbyTickets) == [{"row"}, {"class", "row"}, {"class", "row", "seat"}]
  {
    AllValid(rt);
    ValidRulesForTicketsSpec(rt, rt.nearbyTickets);
    var z := ValidRulesForTickets(rt, rt.nearbyTickets);
    Candidates(rt.rules, rt.nearbyTickets, z);
  }

  lemma AllValid(rt: RulesAndTickets)
    requires rt == ExampleTwo
    ensures ValidTickets(rt) == rt.nearbyTickets
  {
    var ts := rt.nearbyTickets;
    forall t | t in ts ensures !IsInvalidTicket(rt, t) {
      assert forall k :: 0 <= k < |t| ==> rt.rules[1].Admits(t[k]);
      Valid(rt, t);
    }
    FilterAll(ts, t => !IsInvalidTicket(rt, t));
  }

  lemma Candidates(rules: seq<Rule>, ts: seq<Ticket>, z: seq<set<string>>)
    requires rules == ExampleTwo.rules && ts == ExampleTwo.nearbyTickets
    requires exists j :: 0 <= j < |ts| && |z| == |ts[j]|
    requires forall k, name :: 0 <= k < |z| ==> (name in z[k] <==> AdmittedAt(rules, ts, k, name))
    ensures z == [{"row"}, {"class", "row"}, {"class", "row", "seat"}]
  {
    assert |z| == 3;
    Candidates0(rules, ts, z[0]);
    Candidates1(rules, ts, z[1]);
    Candidates2(rules, ts, z[2]);
  }

  lemma Candidates0(rules: seq<Rule>, ts: seq<Ticket>, c: set<string>)
    requires rules == ExampleTwo.rules && ts == ExampleTwo.nearbyTickets
    requires forall name :: name in c <==> AdmittedAt(rules, ts, 0, name)
    ensures c == {"row"}
  {
    forall name ensures name in c <==> name == "row" {
      if name == "row" {
        assert forall j :: 0 <= j < 3 ==> rules[1].Admits(ts[j][0]);
      }
      if name in c {
        var i :| 0 <= i < 3 && rules[i].name == name && rules[i].Admits(ts[0][0]);
      }
    }
  }

  lemma Candidates1(rules: seq<Rule>, ts: seq<Ticket>, c: set<string>)
    requires rules == ExampleTwo.rules && ts == ExampleTwo.nearbyTickets
    requires forall name :: name in c <==> AdmittedAt(rules, ts, 1, name)
    ensures c == {"class", "row"}
  {
    forall name ensures name in c <==> name == "class" || name == "row" {
      if name == "class" {
        assert forall j :: 0 <= j < 3 ==> rules[0].Admits(ts[j][1]);
      }
      if name == "row" {
        assert forall j :: 0 <= j < 3 ==> rules[1].Admits(ts[j][1]);
      }
      if name in c {
        var i :| 0 <= i < 3 && rules[i].name == name && rules[i].Admits(ts[2][1]);
      }
    }
  }

  lemma Candidates2(rules: seq<Rule>, ts: seq<Ticket>, c: set<string>)
    requires rules == ExampleTwo.rules && ts == ExampleTwo.nearbyTickets
    requires forall name :: name in c <==> AdmittedAt(rules, ts, 2, name)
    ensures c == {"class", "row", "seat"}
  {
    forall name ensures name in c <==> name == "class" || name == "row" || name == "seat" {
      if name == "class" {
        assert forall j :: 0 <= j < 3 ==> rules[0].Admits(ts[j][2]);
      }
      if name == "row" {
        assert forall j :: 0 <= j < 3 ==> rules[1].Admits(ts[j][2]);
      }
      if name == "seat" {
        assert forall j :: 0 <= j < 3 ==> rules[2].Admits(ts[j][2]);
      }
      if name in c {
        var i :| 0 <= i < 3 && rules[i].name == name && rules[i].Admits(ts[0][2]);
      }
    }
  }

  /** A ticket whose values three rules admit has no invalid value. */
  lemma Valid(rt: RulesAndTickets, t: Ticket)
    requires forall k :: 0 <= k < |t| ==> exists i :: 0 <= i < |rt.rules| && rt.rules[i].Admits(t[k])
    ensures !IsInvalidTicket(rt, t) && InvalidTicketValues(rt, t) == []
  {
    forall k | 0 <= k < |t| ensures !IsInvalidValue(rt, t[k]) {
      IsInvalidValueSpec(rt, t[k]);
    }
    IsInvalidTicketSpec(rt, t);
  }

  /** A ticket with one value no rule admits, the others admitted, has that value alone as its invalid values. */
  lemma InvalidAt(rt: RulesAndTickets, t: Ticket, at: nat)
    requires at < |t| && forall i :: 0 <= i < |rt.rules| ==> !rt.rules[i].Admits(t[at])
    requires forall k :: 0 <= k < |t| && k != at ==> exists i :: 0 <= i < |rt.rules| && rt.rules[i].Admits(t[k])
    ensures IsInvalidTicket(rt, t) && InvalidTicketValues(rt, t) == [t[at]]
  {
    forall k | 0 <= k < |t| ensures IsInvalidValue(rt, t[k]) <==> k == at {
      IsInvalidValueSpec(rt, t[k]);
    }
    IsInvalidTicketSpec(rt, t);
    FilterOne(t, v => IsInvalidValue(rt, v), at);
  }

  lemma {:induction false} FilterOne(s: seq<int>, p: int -> bool, at: nat)
    requires at < |s| && forall k :: 0 <= k < |s| ==> (p(s[k]) <==> k == at)
    ensures Filter(s, p) == [s[at]]
  {
    if at == 0 {
      FilterNone(s[1..], p);
    } else {
      FilterOne(s[1..], p, at - 1);
    }
  }

  lemma {:induction false} FilterNone(s: seq<int>, p: int -> bool)
    requires forall k :: 0 <= k < |s| ==> !p(s[k])
    ensures Filter(s, p) == []
  {
    if s != [] {
      FilterNone(s[1..], p);
    }
  }
}
