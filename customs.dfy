/**
 * Customs declarations: each form lists the questions one person answered "yes";
 * a group counts the questions anyone answered (part 1) or everyone answered (part 2).
 */
module Customs {
  import opened Seqs

  type Form = string
  type Group = seq<Form>

  function FormSet(f: Form): set<char>
  {
    set i | 0 <= i < |f| :: f[i]
  }

  lemma InFormSet(f: Form, c: char)
    ensures c in FormSet(f) <==> c in f
  {
    if c in f {
      var i :| 0 <= i < |f| && f[i] == c;
    }
  }

  /** Part 1: `forms.reduce(into: Set<Character>()) { $0.formUnion($1) }`. */
  method AnyoneYes(forms: Group) returns (yes: set<char>)
    ensures forall c :: c in yes <==> exists i :: 0 <= i < |forms| && c in forms[i]
    ensures yes == Union(forms)
  {
    yes := {};
    for i := 0 to |forms|
      invariant forall c :: c in yes <==> exists j :: 0 <= j < i && c in forms[j]
      invariant yes == Union(forms[..i])
    {
      forall c ensures c in FormSet(forms[i]) <==> c in forms[i] {
        InFormSet(forms[i], c);
      }
      assert forms[..i + 1] == forms[..i] + [forms[i]];
      UnionSnoc(forms[..i], forms[i]);
      yes := yes + FormSet(forms[i]);
    }
    assert forms[..|forms|] == forms;
  }

  /** `forms.reduce(Set<Character>()) { $0.union($1) }`, folded from the left. */
  function Union(forms: Group): set<char>
  {
    if forms == [] then {} else Union(forms[..|forms| - 1]) + FormSet(forms[|forms| - 1])
  }

  lemma UnionSnoc(forms: Group, f: Form)
    ensures Union(forms + [f]) == Union(forms) + FormSet(f)
  {
    assert (forms + [f])[..|forms|] == forms;
  }

  /** `forms.reduce(start) { $0.intersection($1) }`, folded from the left. */
  function IntersectAll(start: set<char>, forms: Group): set<char>
  {
    if forms == [] then start else IntersectAll(start, forms[..|forms| - 1]) * FormSet(forms[|forms| - 1])
  }

  /** Part 2: the union of the forms, intersected with every form. */
  function EveryoneYes(forms: Group): set<char>
  {
    IntersectAll(Union(forms), forms)
  }

  lemma {:induction false} UnionSpec(forms: Group, c: char)
    ensures c in Union(forms) <==> exists i :: 0 <= i < |forms| && c in forms[i]
  {
    if forms != [] {
      var n := |forms| - 1;
      UnionSpec(forms[..n], c);
      InFormSet(forms[n], c);
      if c in Union(forms[..n]) {
        var i :| 0 <= i < n && c in forms[..n][i];
      }
      if exists i :: 0 <= i < |forms| && c in forms[i] {
        var i :| 0 <= i < |forms| && c in forms[i];
        if i < n {
          assert c in forms[..n][i];
        }
      }
    }
  }

  lemma {:induction false} IntersectAllSpec(start: set<char>, forms: Group, c: char)
    ensures c in IntersectAll(start, forms) <==> c in start && forall i :: 0 <= i < |forms| ==> c in forms[i]
  {
    if forms != [] {
      var n := |forms| - 1;
      IntersectAllSpec(start, forms[..n], c);
      InFormSet(forms[n], c);
      if c in IntersectAll(start, forms) {
        forall i | 0 <= i < |forms| ensures c in forms[i] {
          if i < n {
            assert c in forms[..n][i];
          }
        }
      }
    }
  }

  /**
   * Part 2's set holds exactly the questions every member answered, for a group with at
   * least one form; an empty group has none.
   */
  lemma EveryoneYesSpec(forms: Group, c: char)
    ensures c in EveryoneYes(forms) <==> |forms| > 0 && forall i :: 0 <= i < |forms| ==> c in forms[i]
  {
    UnionSpec(forms, c);
    IntersectAllSpec(Union(forms), forms, c);
    if |forms| > 0 && forall i :: 0 <= i < |forms| ==> c in forms[i] {
      assert c in forms[0];
    }
  }

  /** Everyone's answers are among anyone's, and a group of one person gives both the same set. */
  lemma EveryoneWithinAnyone(forms: Group)
    ensures EveryoneYes(forms) <= Union(forms)
    ensures |forms| == 1 ==> EveryoneYes(forms) == Union(forms)
  {
    forall c | c in EveryoneYes(forms) ensures c in Union(forms) {
      EveryoneYesSpec(forms, c);
      UnionSpec(forms, c);
    }
    if |forms| == 1 {
      forall c | c in Union(forms) ensures c in EveryoneYes(forms) {
        EveryoneYesSpec(forms, c);
        UnionSpec(forms, c);
      }
    }
  }

  /** `groupYesses.map(\.count).reduce(0, +)` for each part. */
  function AnyoneSum(groups: seq<Group>): nat
  {
    if groups == [] then 0 else |Union(groups[0])| + AnyoneSum(groups[1..])
  }

  function EveryoneSum(groups: seq<Group>): nat
  {
    if groups == [] then 0 else |EveryoneYes(groups[0])| + EveryoneSum(groups[1..])
  }
}
