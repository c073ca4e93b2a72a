/** The example of day 21: three ingredients are settled, five occurrences are allergen free. */
module AllergensExample {
  import opened Collections
  import opened Allergens

  const Example: seq<Food> := [
    Food({"mxmxvkd", "kfcds", "sqjhc", "nhms"}, {"dairy", "fish"}),
    Food({"trh", "fvjkl", "sbzzf", "mxmxvkd"}, {"dairy"}),
    Food({"sqjhc", "fvjkl"}, {"soy"}),
    Food({"sqjhc", "mxmxvkd", "sbzzf"}, {"fish"})
  ]

  const Possibilities: AllergenPossibilities :=
    map["dairy" := {"mxmxvkd"}, "fish" := {"mxmxvkd", "sqjhc"}, "soy" := {"sqjhc", "fvjkl"}]

  const Settlement: map<Ingredient, Allergen> := map["fvjkl" := "soy", "sqjhc" := "fish", "mxmxvkd" := "dairy"]

  /** Each round of the example settles one ingredient: fvjkl with soy, then sqjhc with fish, then mxmxvkd with dairy. */
  lemma ExampleSettles()
    ensures ReduceFrom(Possibilities, map[]) == Settlement
  {
    Distinct();
    SettlesOn(Possibilities, "dairy", "fish", "soy", "mxmxvkd", "sqjhc", "fvjkl");
  }

  lemma Distinct()
    ensures "dairy" != "fish" && "dairy" != "soy" && "fish" != "soy"
    ensures "mxmxvkd" != "sqjhc" && "mxmxvkd" != "fvjkl" && "sqjhc" != "fvjkl"
  {
    assert "dairy"[0] == 'd' && "fish"[0] == 'f' && "soy"[0] == 's';
    assert "mxmxvkd"[0] == 'm' && "sqjhc"[0] == 's' && "fvjkl"[0] == 'f';
  }

  lemma SettlesOn(ap: AllergenPossibilities, dairy: Allergen, fish: Allergen, soy: Allergen, mx: Ingredient, sq: Ingredient, fv: Ingredient)
    requires dairy != fish && dairy != soy && fish != soy && mx != sq && mx != fv && sq != fv
    requires ap == map[dairy := {mx}, fish := {mx, sq}, soy := {sq, fv}]
    ensures ReduceFrom(ap, map[]) == map[fv := soy][sq := fish][mx := dairy]
  {
    var ap1 := map[dairy := {mx}, fish := {mx, sq}];
    var ap2 := map[dairy := {mx}];
    var ap3: AllergenPossibilities := map[];
    RoundsOn(ap, ap1, ap2, ap3, dairy, fish, soy, mx, sq, fv);
    Chain(ap, ap1, ap2, ap3, dairy, fish, soy, mx, sq, fv);
  }

  lemma Chain(ap: AllergenPossibilities, ap1: AllergenPossibilities, ap2: AllergenPossibilities, ap3: AllergenPossibilities,
              dairy: Allergen, fish: Allergen, soy: Allergen, mx: Ingredient, sq: Ingredient, fv: Ingredient)
    requires Identified(IngredientPossibilitiesFrom(ap)) == map[fv := soy] && ap1 == Without(ap, map[fv := soy].Values)
    requires Identified(IngredientPossibilitiesFrom(ap1)) == map[sq := fish] && ap2 == Without(ap1, map[sq := fish].Values)
    requires Identified(IngredientPossibilitiesFrom(ap2)) == map[mx := dairy] && ap3 == Without(ap2, map[mx := dairy].Values)
    requires ap3.Keys == {}
    ensures ReduceFrom(ap, map[]) == map[fv := soy][sq := fish][mx := dairy]
  {
    assert fv in map[fv := soy] && sq in map[sq := fish] && mx in map[mx := dairy];
    Rounds(ap, ap1, ap2, ap3, map[], map[fv := soy], map[sq := fish], map[mx := dairy]);
    Added(map[], fv, soy);
    Added(map[fv := soy], sq, fish);
    Added(map[fv := soy][sq := fish], mx, dairy);
  }

  lemma Added(m: map<Ingredient, Allergen>, i: Ingredient, a: Allergen)
    ensures m + map[i := a] == m[i := a]
  {
  }

  /** What each round of the example identifies and which allergens it leaves. */
  lemma RoundsOn(ap: AllergenPossibilities, ap1: AllergenPossibilities, ap2: AllergenPossibilities, ap3: AllergenPossibilities,
                 dairy: Allergen, fish: Allergen, soy: Allergen, mx: Ingredient, sq: Ingredient, fv: Ingredient)
    requires dairy != fish && dairy != soy && fish != soy && mx != sq && mx != fv && sq != fv
    requires ap == map[dairy := {mx}, fish := {mx, sq}, soy := {sq, fv}]
    requires ap1 == map[dairy := {mx}, fish := {mx, sq}] && ap2 == map[dairy := {mx}] && ap3 == map[]
    ensures Identified(IngredientPossibilitiesFrom(ap)) == map[fv := soy] && ap1 == Without(ap, map[fv := soy].Values)
    ensures Identified(IngredientPossibilitiesFrom(ap1)) == map[sq := fish] && ap2 == Without(ap1, map[sq := fish].Values)
    ensures Identified(IngredientPossibilitiesFrom(ap2)) == map[mx := dairy] && ap3 == Without(ap2, map[mx := dairy].Values)
  {
    Round1(ap, dairy, fish, soy, mx, sq, fv);
    Drop(ap, ap1, soy, fv);
    Round2(ap1, dairy, fish, mx, sq);
    Drop(ap1, ap2, fish, sq);
    Round3(ap2, dairy, mx);
    Drop(ap2, ap3, dairy, mx);
  }

  /** With no allergens left, no ingredient is settled. */
  lemma NothingLeft(ap: AllergenPossibilities)
    requires ap.Keys == {}
    ensures Identified(IngredientPossibilitiesFrom(ap)) == map[]
  {
    assert IngredientPossibilitiesFrom(ap).Keys == {};
  }

  /** Three rounds that settle `id1`, `id2` and `id3` in turn, after which no allergen is left. */
  lemma Rounds(ap: AllergenPossibilities, ap1: AllergenPossibilities, ap2: AllergenPossibilities, ap3: AllergenPossibilities,
               acc: map<Ingredient, Allergen>, id1: map<Ingredient, Allergen>, id2: map<Ingredient, Allergen>, id3: map<Ingredient, Allergen>)
    requires Settled(ap, acc)
    requires id1 == Identified(IngredientPossibilitiesFrom(ap)) && id1 != map[] && ap1 == Without(ap, id1.Values)
    requires id2 == Identified(IngredientPossibilitiesFrom(ap1)) && id2 != map[] && ap2 == Without(ap1, id2.Values)
    requires id3 == Identified(IngredientPossibilitiesFrom(ap2)) && id3 != map[] && ap3 == Without(ap2, id3.Values)
    requires ap3.Keys == {}
    ensures ReduceFrom(ap, acc) == acc + id1 + id2 + id3
  {
    Step(ap, acc, id1, ap1, acc + id1);
    TwoRounds(ap1, ap2, ap3, acc + id1, id2, id3);
  }

  lemma TwoRounds(ap1: AllergenPossibilities, ap2: AllergenPossibilities, ap3: AllergenPossibilities,
                  acc: map<Ingredient, Allergen>, id2: map<Ingredient, Allergen>, id3: map<Ingredient, Allergen>)
    requires Settled(ap1, acc)
    requires id2 == Identified(IngredientPossibilitiesFrom(ap1)) && id2 != map[] && ap2 == Without(ap1, id2.Values)
    requires id3 == Identified(IngredientPossibilitiesFrom(ap2)) && id3 != map[] && ap3 == Without(ap2, id3.Values)
    requires ap3.Keys == {}
    ensures ReduceFrom(ap1, acc) == acc + id2 + id3
  {
    Step(ap1, acc, id2, ap2, acc + id2);
    LastRound(ap2, ap3, acc + id2, id3);
  }

  lemma LastRound(ap2: AllergenPossibilities, ap3: AllergenPossibilities, acc: map<Ingredient, Allergen>, id3: map<Ingredient, Allergen>)
    requires Settled(ap2, acc)
    requires id3 == Identified(IngredientPossibilitiesFrom(ap2)) && id3 != map[] && ap3 == Without(ap2, id3.Values)
    requires ap3.Keys == {}
    ensures ReduceFrom(ap2, acc) == acc + id3
  {
    Step(ap2, acc, id3, ap3, acc + id3);
    NothingLeft(ap3);
  }

  /** A round that settles the ingredients `id`. */
  lemma Step(ap: AllergenPossibilities, acc: map<Ingredient, Allergen>, id: map<Ingredient, Allergen>,
             ap': AllergenPossibilities, acc': map<Ingredient, Allergen>)
    requires Settled(ap, acc) && id == Identified(IngredientPossibilitiesFrom(ap)) && id != map[]
    requires ap' == Without(ap, id.Values) && acc' == acc + id
    ensures Settled(ap', acc') && ReduceFrom(ap, acc) == ReduceFrom(ap', acc')
  {
    RoundShrinks(ap, acc, id);
  }

  /** Settling `i` with `a` drops `a`, the only allergen left with `i` as a candidate. */
  lemma Drop(ap: AllergenPossibilities, ap': AllergenPossibilities, a: Allergen, i: Ingredient)
    requires a in ap && ap'.Keys == ap.Keys - {a} && forall k :: k in ap' ==> ap'[k] == ap[k]
    ensures Without(ap, map[i := a].Values) == ap'
  {
    assert map[i := a][i] == a;
    assert map[i := a].Values == {a};
  }

  /** The candidates of ingredient `i` are exactly `c`. */
  lemma CandidatesOf(ap: AllergenPossibilities, i: Ingredient, c: set<Allergen>)
    requires c != {} && forall a :: a in ap && i in ap[a] <==> a in c
    ensures i in IngredientPossibilitiesFrom(ap) && IngredientPossibilitiesFrom(ap)[i] == c
  {
    var a :| a in c;
    var ip := IngredientPossibilitiesFrom(ap);
    assert i in ip;
    assert forall b :: b in ip[i] <==> b in c;
  }

  /** No ingredient outside `s` is a candidate. */
  lemma CandidatesWithin(ap: AllergenPossibilities, s: set<Ingredient>)
    requires forall a :: a in ap ==> ap[a] <= s
    ensures IngredientPossibilitiesFrom(ap).Keys <= s
  {
  }

  /** Only `i` has a single candidate, `a`. */
  lemma IdentifiedOnly(ip: IngredientPossibilities, i: Ingredient, a: Allergen)
    requires i in ip && ip[i] == {a}
    requires forall j :: j in ip && j != i ==> |ip[j]| != 1
    ensures Identified(ip) == map[i := a]
  {
    var id := Identified(ip);
    assert id.Keys == {i};
  }

  lemma Pair(a: Allergen, b: Allergen)
    requires a != b
    ensures |{a, b}| == 2
  {
  }

  lemma Round1(ap: AllergenPossibilities, dairy: Allergen, fish: Allergen, soy: Allergen, mx: Ingredient, sq: Ingredient, fv: Ingredient)
    requires dairy != fish && dairy != soy && fish != soy && mx != sq && mx != fv && sq != fv
    requires ap == map[dairy := {mx}, fish := {mx, sq}, soy := {sq, fv}]
    ensures Identified(IngredientPossibilitiesFrom(ap)) == map[fv := soy]
  {
    var ip := IngredientPossibilitiesFrom(ap);
    CandidatesOf(ap, mx, {dairy, fish});
    CandidatesOf(ap, sq, {fish, soy});
    CandidatesOf(ap, fv, {soy});
    CandidatesWithin(ap, {mx, sq, fv});
    Pair(dairy, fish);
    Pair(fish, soy);
    IdentifiedOnly(ip, fv, soy);
  }

  lemma Round2(ap: AllergenPossibilities, dairy: Allergen, fish: Allergen, mx: Ingredient, sq: Ingredient)
    requires dairy != fish && mx != sq
    requires ap == map[dairy := {mx}, fish := {mx, sq}]
    ensures Identified(IngredientPossibilitiesFrom(ap)) == map[sq := fish]
  {
    var ip := IngredientPossibilitiesFrom(ap);
    CandidatesOf(ap, mx, {dairy, fish});
    CandidatesOf(ap, sq, {fish});
    CandidatesWithin(ap, {mx, sq});
    Pair(dairy, fish);
    IdentifiedOnly(ip, sq, fish);
  }

  lemma Round3(ap: AllergenPossibilities, dairy: Allergen, mx: Ingredient)
    requires ap == map[dairy := {mx}]
    ensures Identified(IngredientPossibilitiesFrom(ap)) == map[mx := dairy]
  {
    var ip := IngredientPossibilitiesFrom(ap);
    CandidatesOf(ap, mx, {dairy});
    CandidatesWithin(ap, {mx});
    IdentifiedOnly(ip, mx, dairy);
  }

  /** Folding the four foods of the example gives `Possibilities`. */
  lemma ExamplePossibilities()
    ensures AllergenPossibilitiesFrom(Example) == Possibilities
  {
    Distinct();
    Distinct2();
    PossibilitiesOn(Example, "dairy", "fish", "soy", "mxmxvkd", "kfcds", "sqjhc", "nhms", "trh", "fvjkl", "sbzzf");
  }

  lemma Distinct2()
    ensures "kfcds" != "mxmxvkd" && "kfcds" != "sqjhc" && "kfcds" != "nhms" && "kfcds" != "trh" && "kfcds" != "fvjkl" && "kfcds" != "sbzzf"
    ensures "nhms" != "mxmxvkd" && "nhms" != "sqjhc" && "nhms" != "trh" && "nhms" != "fvjkl" && "nhms" != "sbzzf"
    ensures "trh" != "mxmxvkd" && "trh" != "sqjhc" && "trh" != "fvjkl" && "trh" != "sbzzf"
    ensures "sbzzf" != "mxmxvkd" && "sbzzf" != "sqjhc" && "sbzzf" != "fvjkl"
  {
    assert "kfcds"[0] == 'k' && "nhms"[0] == 'n' && "trh"[0] == 't' && "sbzzf"[0] == 's' && "sbzzf"[1] == 'b';
    assert "mxmxvkd"[0] == 'm' && "sqjhc"[0] == 's' && "sqjhc"[1] == 'q' && "fvjkl"[0] == 'f';
  }

  lemma FoldFour<A, R>(init: R, s: seq<A>, f: (R, A) -> R)
    requires |s| == 4
    ensures FoldLeft(init, s, f) == f(f(f(f(init, s[0]), s[1]), s[2]), s[3])
  {
    var a := f(init, s[0]);
    var b := f(a, s[1]);
    var c := f(b, s[2]);
    assert s[3..][1..] == [] && s[2..][1..] == s[3..] && s[1..][1..] == s[2..];
    assert FoldLeft(c, s[3..], f) == f(c, s[3]);
    assert FoldLeft(b, s[2..], f) == FoldLeft(c, s[3..], f);
    assert FoldLeft(a, s[1..], f) == FoldLeft(b, s[2..], f);
  }

  lemma PossibilitiesOn(foods: seq<Food>, d: Allergen, f: Allergen, s: Allergen,
                        mx: Ingredient, kf: Ingredient, sq: Ingredient, nh: Ingredient, tr: Ingredient, fv: Ingredient, sb: Ingredient)
    requires d != f && d != s && f != s
    requires kf != mx && kf != sq && kf != nh && kf != tr && kf != fv && kf != sb
    requires nh != mx && nh != sq && nh != tr && nh != fv && nh != sb
    requires tr != mx && tr != sq && tr != fv && tr != sb
    requires sb != mx && sb != sq && sb != fv
    requires mx != sq && mx != fv && sq != fv
    requires foods == [Food({mx, kf, sq, nh}, {d, f}), Food({tr, fv, sb, mx}, {d}), Food({sq, fv}, {s}), Food({sq, mx, sb}, {f})]
    ensures AllergenPossibilitiesFrom(foods) == map[d := {mx}, f := {mx, sq}, s := {sq, fv}]
  {
    FoldFour(map[], foods, AddFood);
    var i1 := {mx, kf, sq, nh};
    Common(i1, {tr, fv, sb, mx}, {mx});
    Common(i1, {sq, mx, sb}, {mx, sq});
    FoldedOn(foods[0], foods[1], foods[2], foods[3], d, f, s, i1, {mx}, {mx, sq}, {sq, fv});
  }

  /** The four folding steps, with the intersections they take given. */
  lemma FoldedOn(f1: Food, f2: Food, f3: Food, f4: Food, d: Allergen, f: Allergen, s: Allergen,
                 i1: set<Ingredient>, di: set<Ingredient>, fi: set<Ingredient>, si: set<Ingredient>)
    requires d != f && d != s && f != s
    requires f1 == Food(i1, {d, f}) && f2.allergens == {d} && f3 == Food(si, {s}) && f4.allergens == {f}
    requires i1 * f2.ingredients == di && i1 * f4.ingredients == fi
    ensures AddFood(AddFood(AddFood(AddFood(map[], f1), f2), f3), f4) == map[d := di, f := fi, s := si]
  {
    var r1 := map[d := i1, f := i1];
    AddFirst(f1, d, f);
    AddKnown(r1, f2, d);
    var r2 := r1[d := di];
    AddNew(r2, f3, s);
    var r3 := r2[s := si];
    AddKnown(r3, f4, f);
    assert r3[f := fi] == map[d := di, f := fi, s := si];
  }

  lemma Common(a: set<Ingredient>, b: set<Ingredient>, c: set<Ingredient>)
    requires c <= a && c <= b && forall x :: x in a && x !in c ==> x !in b
    ensures a * b == c
  {
  }

  /** The first food, with two allergens, on empty possibilities. */
  lemma AddFirst(food: Food, d: Allergen, f: Allergen)
    requires food.allergens == {d, f}
    ensures AddFood(map[], food) == map[d := food.ingredients, f := food.ingredients]
  {
  }

  /** A food with one allergen not seen before. */
  lemma AddNew(result: AllergenPossibilities, food: Food, a: Allergen)
    requires food.allergens == {a} && a !in result
    ensures AddFood(result, food) == result[a := food.ingredients]
  {
  }

  /** A food with one allergen seen before. */
  lemma AddKnown(result: AllergenPossibilities, food: Food, a: Allergen)
    requires food.allergens == {a} && a in result
    ensures AddFood(result, food) == result[a := result[a] * food.ingredients]
  {
  }

  /** kfcds, nhms, trh and sbzzf (twice) are the five occurrences of ingredients without an allergen. */
  lemma ExampleAllergenFree()
    ensures AllergenFreeOccurrences(Example, Settlement.Keys) == 5
  {
    Distinct();
    Distinct2();
    FreeOn(Example, Settlement.Keys, "mxmxvkd", "kfcds", "sqjhc", "nhms", "trh", "fvjkl", "sbzzf");
  }

  lemma FreeOn(foods: seq<Food>, settled: set<Ingredient>,
               mx: Ingredient, kf: Ingredient, sq: Ingredient, nh: Ingredient, tr: Ingredient, fv: Ingredient, sb: Ingredient)
    requires kf != mx && kf != sq && kf != nh && kf != tr && kf != fv && kf != sb
    requires nh != mx && nh != sq && nh != tr && nh != fv && nh != sb
    requires tr != mx && tr != sq && tr != fv && tr != sb
    requires sb != mx && sb != sq && sb != fv
    requires |foods| == 4 && settled == {fv, sq, mx}
    requires foods[0].ingredients == {mx, kf, sq, nh} && foods[1].ingredients == {tr, fv, sb, mx}
    requires foods[2].ingredients == {sq, fv} && foods[3].ingredients == {sq, mx, sb}
    ensures AllergenFreeOccurrences(foods, settled) == 5
  {
    FreeFour(foods, settled);
    assert foods[0].ingredients - settled == {kf, nh};
    assert foods[1].ingredients - settled == {tr, sb};
    assert foods[2].ingredients - settled == {};
    assert foods[3].ingredients - settled == {sb};
    Pair(kf, nh);
    Pair(tr, sb);
  }

  lemma FreeFour(foods: seq<Food>, settled: set<Ingredient>)
    requires |foods| == 4
    ensures AllergenFreeOccurrences(foods, settled) ==
      |foods[0].ingredients - settled| + |foods[1].ingredients - settled| +
      |foods[2].ingredients - settled| + |foods[3].ingredients - settled|
  {
    assert foods[3..][1..] == [] && foods[2..][1..] == foods[3..] && foods[1..][1..] == foods[2..];
    assert foods[3..][0] == foods[3] && foods[2..][0] == foods[2] && foods[1..][0] == foods[1];
    assert AllergenFreeOccurrences(foods[3..], settled) == |foods[3].ingredients - settled|;
    assert AllergenFreeOccurrences(foods[2..], settled) == |foods[2].ingredients - settled| + AllergenFreeOccurrences(foods[3..], settled);
    assert AllergenFreeOccurrences(foods[1..], settled) == |foods[1].ingredients - settled| + AllergenFreeOccurrences(foods[2..], settled);
  }

  /** The settled ingredients listed by allergen, dairy before fish before soy, and joined with commas. */
  lemma ExampleDangerous()
    ensures ByAllergen(Settlement, ["mxmxvkd", "sqjhc", "fvjkl"])
    ensures Joined(["mxmxvkd", "sqjhc", "fvjkl"], ",") == "mxmxvkd,sqjhc,fvjkl"
  {
    assert StringLess("dairy", "fish") && StringLess("fish", "soy") && StringLess("dairy", "soy");
    Distinct();
    SettlementSize();
  }

  lemma SettlementSize()
    ensures |Settlement| == 3
  {
    Distinct();
    assert Settlement.Keys == {"fvjkl", "sqjhc", "mxmxvkd"};
  }

  /** The whole example: the possibilities of the foods reduce to `Settlement`. */
  lemma ExampleSolution()
    ensures ReduceFrom(AllergenPossibilitiesFrom(Example), map[]) == Settlement
  {
    ExamplePossibilities();
    ExampleSettles();
  }
}
