/** The puzzle's five example groups: 11 questions anyone answered, 6 everyone answered. */
module CustomsExample {
  import opened Customs
  lemma FormSets()
    ensures FormSet("abc") == {'a', 'b', 'c'}
    ensures FormSet("ab") == {'a', 'b'}
    ensures FormSet("ac") == {'a', 'c'}
    ensures FormSet("a") == {'a'}
    ensures FormSet("b") == {'b'}
    ensures FormSet("c") == {'c'}
  {
    forall c ensures c in FormSet("abc") <==> c in "abc" { InFormSet("abc", c); }
    forall c ensures c in FormSet("ab") <==> c in "ab" { InFormSet("ab", c); }
    forall c ensures c in FormSet("ac") <==> c in "ac" { InFormSet("ac", c); }
    forall c ensures c in FormSet("a") <==> c in "a" { InFormSet("a", c); }
    forall c ensures c in FormSet("b") <==> c in "b" { InFormSet("b", c); }
    forall c ensures c in FormSet("c") <==> c in "c" { InFormSet("c", c); }
  }

  const Groups: seq<Group> := [["abc"], ["a", "b", "c"], ["ab", "ac"], ["a", "a", "a", "a"], ["b"]]

  lemma Group0()
    ensures |Union(["abc"])| == 3 && |EveryoneYes(["abc"])| == 3
  {
    FormSets();
    assert Union(["abc"]) == {'a', 'b', 'c'};
    assert EveryoneYes(["abc"]) == {'a', 'b', 'c'};
  }

  lemma Group1()
    ensures |Union(["a", "b", "c"])| == 3 && |EveryoneYes(["a", "b", "c"])| == 0
  {
    FormSets();
    assert ["a", "b", "c"][..2] == ["a", "b"];
    assert ["a", "b"][..1] == ["a"];
    assert Union(["a", "b", "c"]) == {'a', 'b', 'c'};
    assert EveryoneYes(["a", "b", "c"]) == {};
  }

  lemma Group2()
    ensures |Union(["ab", "ac"])| == 3 && |EveryoneYes(["ab", "ac"])| == 1
  {
    FormSets();
    assert ["ab", "ac"][..1] == ["ab"];
    assert Union(["ab", "ac"]) == {'a', 'b', 'c'};
    assert IntersectAll({'a', 'b', 'c'}, ["ab"]) == {'a', 'b'};
    assert IntersectAll({'a', 'b', 'c'}, ["ab", "ac"]) == {'a'};
  }

  lemma Group3()
    ensures |Union(["a", "a", "a", "a"])| == 1 && |EveryoneYes(["a", "a", "a", "a"])| == 1
  {
    FormSets();
    assert ["a", "a", "a", "a"][..3] == ["a", "a", "a"];
    assert ["a", "a", "a"][..2] == ["a", "a"];
    assert ["a", "a"][..1] == ["a"];
    assert Union(["a", "a", "a", "a"]) == {'a'};
    assert IntersectAll({'a'}, ["a", "a", "a", "a"]) == {'a'};
  }

  lemma Group4()
    ensures |Union(["b"])| == 1 && |EveryoneYes(["b"])| == 1
  {
    FormSets();
    assert Union(["b"]) == {'b'};
  }

  /** Anyone-sums 3 + 3 + 3 + 1 + 1 = 11; everyone-sums 3 + 0 + 1 + 1 + 1 = 6. */
  lemma Example()
    ensures AnyoneSum(Groups) == 11
    ensures EveryoneSum(Groups) == 6
  {
    ExampleGroups();
    ExampleOn(Groups);
  }

  /** The example group by group, so that lemmas about it need not unfold the literal. */
  predicate IsExample(groups: seq<Group>)
  {
    |groups| == 5 && groups[0] == ["abc"] && groups[1] == ["a", "b", "c"] && groups[2] == ["ab", "ac"] &&
    groups[3] == ["a", "a", "a", "a"] && groups[4] == ["b"]
  }

  lemma ExampleGroups()
    ensures IsExample(Groups)
  {
  }

  lemma ExampleOn(groups: seq<Group>)
    requires IsExample(groups)
    ensures AnyoneSum(groups) == 11
    ensures EveryoneSum(groups) == 6
  {
    SumsOfFive(groups);
    Group0();
    Group1();
    Group2();
    Group3();
    Group4();
  }

  /** Both sums over five groups, group by group. */
  lemma SumsOfFive(groups: seq<Group>)
    requires |groups| == 5
    ensures AnyoneSum(groups) ==
      |Union(groups[0])| + |Union(groups[1])| + |Union(groups[2])| + |Union(groups[3])| + |Union(groups[4])|
    ensures EveryoneSum(groups) ==
      |EveryoneYes(groups[0])| + |EveryoneYes(groups[1])| + |EveryoneYes(groups[2])| +
      |EveryoneYes(groups[3])| + |EveryoneYes(groups[4])|
  {
    SumsStep(groups, 0);
    SumsStep(groups, 1);
    SumsStep(groups, 2);
    SumsStep(groups, 3);
    SumsStep(groups, 4);
    assert groups[5..] == [];
  }

  /** Both sums from group `i` on: group `i`'s count plus the sums from `i + 1` on. */
  lemma SumsStep(groups: seq<Group>, i: nat)
    requires i < |groups|
    ensures AnyoneSum(groups[i..]) == |Union(groups[i])| + AnyoneSum(groups[i + 1..])
    ensures EveryoneSum(groups[i..]) == |EveryoneYes(groups[i])| + EveryoneSum(groups[i + 1..])
  {
    assert groups[i..][0] == groups[i] && groups[i..][1..] == groups[i + 1..];
  }
}
