/** The nine example rules of Day 7: shiny gold must hold 32 bags. */
module ColoredBagsExample {
  import opened Wrappers
  import opened ColoredBags

  const LightRed := Bag("light", "red")
  const DarkOrange := Bag("dark", "orange")
  const BrightWhite := Bag("bright", "white")
  const MutedYellow := Bag("muted", "yellow")
  const ShinyGold := Bag("shiny", "gold")
  const DarkOlive := Bag("dark", "olive")
  const VibrantPlum := Bag("vibrant", "plum")
  const FadedBlue := Bag("faded", "blue")
  const DottedBlack := Bag("dotted", "black")

  const Rules := [
    Constraint(LightRed, ContainsBagCounts([BagCount(1, BrightWhite), BagCount(2, MutedYellow)])),
    Constraint(DarkOrange, ContainsBagCounts([BagCount(3, BrightWhite), BagCount(4, MutedYellow)])),
    Constraint(BrightWhite, ContainsBagCounts([BagCount(1, ShinyGold)])),
    Constraint(MutedYellow, ContainsBagCounts([BagCount(2, ShinyGold), BagCount(9, FadedBlue)])),
    Constraint(ShinyGold, ContainsBagCounts([BagCount(1, DarkOlive), BagCount(2, VibrantPlum)])),
    Constraint(DarkOlive, ContainsBagCounts([BagCount(3, FadedBlue), BagCount(4, DottedBlack)])),
    Constraint(VibrantPlum, ContainsBagCounts([BagCount(5, FadedBlue), BagCount(6, DottedBlack)])),
    Constraint(FadedBlue, NoOtherBags),
    Constraint(DottedBlack, NoOtherBags)
  ]

  /** Depth of the example's containment: bags holding nothing rank 0. */
  function Rank(b: Bag): nat
  {
    if b.color == "blue" || b.color == "black" then 0
    else if b.color == "olive" || b.color == "plum" then 1
    else if b.color == "gold" then 2
    else if b.color == "white" || b.color == "yellow" then 3
    else 4
  }

  lemma LookupLightRed()
    ensures ConstraintFor(Rules, LightRed) == Some(Rules[0])
  {
    ConstraintForFirst(Rules, 0);
  }

  lemma LookupDarkOrange()
    ensures ConstraintFor(Rules, DarkOrange) == Some(Rules[1])
  {
    assert Rules[0].bag != DarkOrange;
    ConstraintForFirst(Rules, 1);
  }

  lemma LookupBrightWhite()
    ensures ConstraintFor(Rules, BrightWhite) == Some(Rules[2])
  {
    assert Rules[0].bag != BrightWhite && Rules[1].bag != BrightWhite;
    ConstraintForFirst(Rules, 2);
  }

  lemma LookupMutedYellow()
    ensures ConstraintFor(Rules, MutedYellow) == Some(Rules[3])
  {
    assert Rules[0].bag != MutedYellow && Rules[1].bag != MutedYellow && Rules[2].bag != MutedYellow;
    ConstraintForFirst(Rules, 3);
  }

  lemma LookupShinyGold()
    ensures ConstraintFor(Rules, ShinyGold) == Some(Rules[4])
    ensures Rules[4].contents == ContainsBagCounts([BagCount(1, DarkOlive), BagCount(2, VibrantPlum)])
  {
    assert Rules[0].bag != ShinyGold && Rules[1].bag != ShinyGold && Rules[2].bag != ShinyGold && Rules[3].bag != ShinyGold;
    ConstraintForFirst(Rules, 4);
  }

  lemma LookupDarkOlive()
    ensures ConstraintFor(Rules, DarkOlive) == Some(Rules[5])
    ensures Rules[5].contents == ContainsBagCounts([BagCount(3, FadedBlue), BagCount(4, DottedBlack)])
  {
    assert Rules[0].bag != DarkOlive && Rules[1].bag != DarkOlive && Rules[2].bag != DarkOlive && Rules[3].bag != DarkOlive && Rules[4].bag != DarkOlive;
    ConstraintForFirst(Rules, 5);
  }

  lemma LookupVibrantPlum()
    ensures ConstraintFor(Rules, VibrantPlum) == Some(Rules[6])
    ensures Rules[6].contents == ContainsBagCounts([BagCount(5, FadedBlue), BagCount(6, DottedBlack)])
  {
    assert Rules[0].bag != VibrantPlum && Rules[1].bag != VibrantPlum && Rules[2].bag != VibrantPlum && Rules[3].bag != VibrantPlum && Rules[4].bag != VibrantPlum && Rules[5].bag != VibrantPlum;
    ConstraintForFirst(Rules, 6);
  }

  lemma LookupFadedBlue()
    ensures ConstraintFor(Rules, FadedBlue) == Some(Rules[7])
  {
    assert Rules[0].bag != FadedBlue && Rules[1].bag != FadedBlue && Rules[2].bag != FadedBlue && Rules[3].bag != FadedBlue && Rules[4].bag != FadedBlue && Rules[5].bag != FadedBlue && Rules[6].bag != FadedBlue;
    ConstraintForFirst(Rules, 7);
  }

  lemma LookupDottedBlack()
    ensures ConstraintFor(Rules, DottedBlack) == Some(Rules[8])
  {
    assert Rules[0].bag != DottedBlack && Rules[1].bag != DottedBlack && Rules[2].bag != DottedBlack && Rules[3].bag != DottedBlack && Rules[4].bag != DottedBlack && Rules[5].bag != DottedBlack && Rules[6].bag != DottedBlack && Rules[7].bag != DottedBlack;
    ConstraintForFirst(Rules, 8);
  }

  lemma RankLightRed()
    ensures Rank(LightRed) == 4
  {
  }

  lemma RankDarkOrange()
    ensures Rank(DarkOrange) == 4
  {
  }

  lemma RankBrightWhite()
    ensures Rank(BrightWhite) == 3
  {
  }

  lemma RankMutedYellow()
    ensures Rank(MutedYellow) == 3
  {
  }

  lemma RankShinyGold()
    ensures Rank(ShinyGold) == 2
  {
  }

  lemma RankDarkOlive()
    ensures Rank(DarkOlive) == 1
  {
  }

  lemma RankVibrantPlum()
    ensures Rank(VibrantPlum) == 1
  {
  }

  lemma RankFadedBlue()
    ensures Rank(FadedBlue) == 0
  {
  }

  lemma RankDottedBlack()
    ensures Rank(DottedBlack) == 0
  {
  }

  lemma Rule0Countable()
    ensures CountableRule(Rules, Rank, Rules[0])
  {
    assert Rules[0].bag == LightRed && Rules[0].contents.counts == [BagCount(1, BrightWhite), BagCount(2, MutedYellow)];
    RankLightRed();
    LookupBrightWhite();
    RankBrightWhite();
    LookupMutedYellow();
    RankMutedYellow();
    CountableTwo(Rules, Rank, Rules[0], BagCount(1, BrightWhite), BagCount(2, MutedYellow));
  }

  lemma Rule1Countable()
    ensures CountableRule(Rules, Rank, Rules[1])
  {
    assert Rules[1].bag == DarkOrange && Rules[1].contents.counts == [BagCount(3, BrightWhite), BagCount(4, MutedYellow)];
    RankDarkOrange();
    LookupBrightWhite();
    RankBrightWhite();
    LookupMutedYellow();
    RankMutedYellow();
    CountableTwo(Rules, Rank, Rules[1], BagCount(3, BrightWhite), BagCount(4, MutedYellow));
  }

  lemma Rule2Countable()
    ensures CountableRule(Rules, Rank, Rules[2])
  {
    assert Rules[2].bag == BrightWhite && Rules[2].contents.counts == [BagCount(1, ShinyGold)];
    RankBrightWhite();
    LookupShinyGold();
    RankShinyGold();
    CountableOne(Rules, Rank, Rules[2], BagCount(1, ShinyGold));
  }

  lemma Rule3Countable()
    ensures CountableRule(Rules, Rank, Rules[3])
  {
    assert Rules[3].bag == MutedYellow && Rules[3].contents.counts == [BagCount(2, ShinyGold), BagCount(9, FadedBlue)];
    RankMutedYellow();
    LookupShinyGold();
    RankShinyGold();
    LookupFadedBlue();
    RankFadedBlue();
    CountableTwo(Rules, Rank, Rules[3], BagCount(2, ShinyGold), BagCount(9, FadedBlue));
  }

  lemma Rule4Countable()
    ensures CountableRule(Rules, Rank, Rules[4])
  {
    assert Rules[4].bag == ShinyGold && Rules[4].contents.counts == [BagCount(1, DarkOlive), BagCount(2, VibrantPlum)];
    RankShinyGold();
    LookupDarkOlive();
    RankDarkOlive();
    LookupVibrantPlum();
    RankVibrantPlum();
    CountableTwo(Rules, Rank, Rules[4], BagCount(1, DarkOlive), BagCount(2, VibrantPlum));
  }

  lemma Rule5Countable()
    ensures CountableRule(Rules, Rank, Rules[5])
  {
    assert Rules[5].bag == DarkOlive && Rules[5].contents.counts == [BagCount(3, FadedBlue), BagCount(4, DottedBlack)];
    RankDarkOlive();
    LookupFadedBlue();
    RankFadedBlue();
    LookupDottedBlack();
    RankDottedBlack();
    CountableTwo(Rules, Rank, Rules[5], BagCount(3, FadedBlue), BagCount(4, DottedBlack));
  }

  lemma Rule6Countable()
    ensures CountableRule(Rules, Rank, Rules[6])
  {
    assert Rules[6].bag == VibrantPlum && Rules[6].contents.counts == [BagCount(5, FadedBlue), BagCount(6, DottedBlack)];
    RankVibrantPlum();
    LookupFadedBlue();
    RankFadedBlue();
    LookupDottedBlack();
    RankDottedBlack();
    CountableTwo(Rules, Rank, Rules[6], BagCount(5, FadedBlue), BagCount(6, DottedBlack));
  }

  /** A rule holding two kinds of bag, each ranked lower and each with a rule of its own, is countable. */
  lemma CountableTwo(rules: seq<Constraint>, rank: Bag -> nat, c: Constraint, a: BagCount, b: BagCount)
    requires c.contents == ContainsBagCounts([a, b])
    requires rank(a.bag) < rank(c.bag) && ConstraintFor(rules, a.bag).Some?
    requires rank(b.bag) < rank(c.bag) && ConstraintFor(rules, b.bag).Some?
    ensures CountableRule(rules, rank, c)
  {
  }

  lemma CountableOne(rules: seq<Constraint>, rank: Bag -> nat, c: Constraint, a: BagCount)
    requires c.contents == ContainsBagCounts([a])
    requires rank(a.bag) < rank(c.bag) && ConstraintFor(rules, a.bag).Some?
    ensures CountableRule(rules, rank, c)
  {
  }

  lemma Rule7Countable()
    ensures CountableRule(Rules, Rank, Rules[7])
  {
  }

  lemma Rule8Countable()
    ensures CountableRule(Rules, Rank, Rules[8])
  {
  }

  lemma ExampleCountable()
    ensures Countable(Rules, Rank)
  {
    Rule0Countable();
    Rule1Countable();
    Rule2Countable();
    Rule3Countable();
    Rule4Countable();
    Rule5Countable();
    Rule6Countable();
    Rule7Countable();
    Rule8Countable();
    CountableNine(Rules, Rank);
  }

  /** Nine rules, each countable on its own, make a countable rule list. */
  lemma CountableNine(rules: seq<Constraint>, rank: Bag -> nat)
    requires |rules| == 9
    requires CountableRule(rules, rank, rules[0]) && CountableRule(rules, rank, rules[1]) && CountableRule(rules, rank, rules[2])
    requires CountableRule(rules, rank, rules[3]) && CountableRule(rules, rank, rules[4]) && CountableRule(rules, rank, rules[5])
    requires CountableRule(rules, rank, rules[6]) && CountableRule(rules, rank, rules[7]) && CountableRule(rules, rank, rules[8])
    ensures Countable(rules, rank)
  {
    forall c | c in rules ensures CountableRule(rules, rank, c) {
      var i :| 0 <= i < |rules| && rules[i] == c;
    }
  }

  lemma MustContainLeaves()
    ensures Countable(Rules, Rank) && ConstraintFor(Rules, FadedBlue).Some? && ConstraintFor(Rules, DottedBlack).Some?
    ensures MustContain(Rules, FadedBlue, Rank) == 0 && MustContain(Rules, DottedBlack, Rank) == 0
  {
    ExampleCountable();
    LookupFadedBlue();
    LookupDottedBlack();
    assert Rules[7].contents == NoOtherBags && Rules[8].contents == NoOtherBags;
  }

  lemma MustContainDarkOlive()
    ensures Countable(Rules, Rank) && ConstraintFor(Rules, DarkOlive).Some?
    ensures MustContain(Rules, DarkOlive, Rank) == 7
  {
    MustContainLeaves();
    LookupDarkOlive();
    RankDarkOlive();
    RankFadedBlue();
    RankDottedBlack();
    MustContainTwo(Rules, DarkOlive, Rank, BagCount(3, FadedBlue), BagCount(4, DottedBlack), 0, 0);
  }

  lemma MustContainVibrantPlum()
    ensures Countable(Rules, Rank) && ConstraintFor(Rules, VibrantPlum).Some?
    ensures MustContain(Rules, VibrantPlum, Rank) == 11
  {
    MustContainLeaves();
    LookupVibrantPlum();
    RankVibrantPlum();
    RankFadedBlue();
    RankDottedBlack();
    MustContainTwo(Rules, VibrantPlum, Rank, BagCount(5, FadedBlue), BagCount(6, DottedBlack), 0, 0);
  }

  /** Shiny gold holds 1 dark olive (7 inside) and 2 vibrant plum (11 inside): 32 bags. */
  lemma ShinyGoldMustContain32()
    ensures Countable(Rules, Rank) && ConstraintFor(Rules, ShinyGold).Some?
    ensures MustContain(Rules, ShinyGold, Rank) == 32
  {
    MustContainDarkOlive();
    MustContainVibrantPlum();
    LookupShinyGold();
    RankShinyGold();
    RankDarkOlive();
    RankVibrantPlum();
    MustContainTwo(Rules, ShinyGold, Rank, BagCount(1, DarkOlive), BagCount(2, VibrantPlum), 7, 11);
  }

  /** `mustContain` of a bag whose rule names two kinds of bag. */
  lemma MustContainTwo(rules: seq<Constraint>, bag: Bag, rank: Bag -> nat, a: BagCount, b: BagCount, ma: nat, mb: nat)
    requires Countable(rules, rank) && ConstraintFor(rules, bag).Some?
    requires ConstraintFor(rules, bag).value.contents == ContainsBagCounts([a, b])
    requires ConstraintFor(rules, a.bag).Some? && ConstraintFor(rules, b.bag).Some?
    requires rank(a.bag) < rank(bag) && rank(b.bag) < rank(bag)
    requires MustContain(rules, a.bag, rank) == ma && MustContain(rules, b.bag, rank) == mb
    ensures MustContain(rules, bag, rank) == a.count * (1 + ma) + b.count * (1 + mb)
  {
    MustContainUnfold(rules, bag, rank, [a, b]);
    CountsTotalPair(rules, a, b, rank, rank(bag));
  }
}
