/**
 * Allergen assessment (day 21): each food lists its ingredients and some of the
 * allergens it contains. An allergen can only be in the ingredients common to
 * every food listing it; rounds then settle every ingredient left with a single
 * candidate allergen and drop those allergens, until a round settles nothing.
 */
module Allergens {
  import opened Collections
  import opened SetSimplifier

  type Allergen = string
  type Ingredient = string

  datatype Food = Food(ingredients: set<Ingredient>, allergens: set<Allergen>)

  /** For each allergen, the ingredients that may contain it. */
  type AllergenPossibilities = map<Allergen, set<Ingredient>>

  /** For each ingredient, the allergens it may contain. */
  type IngredientPossibilities = map<Ingredient, set<Allergen>>

  /**
   * One food folded into the possibilities: a new allergen starts from the food's
   * ingredients, a known one keeps only those among them. The source visits the
   * food's allergens in set order; each is visited once, so the order does not matter.
   */
  function AddFood(result: AllergenPossibilities, food: Food): (r: AllergenPossibilities)
    ensures r.Keys == result.Keys + food.allergens
  {
    map a | a in result.Keys + food.allergens ::
      if a !in food.allergens then result[a]
      else if a in result then result[a] * food.ingredients
      else food.ingredients
  }

  /** `allergenPossibilitesFrom`: the foods folded in order into an empty dictionary. */
  function AllergenPossibilitiesFrom(foods: seq<Food>): AllergenPossibilities
  {
    FoldLeft(map[], foods, AddFood)
  }

  /**
   * An allergen has possibilities exactly when some food lists it, and its
   * possible ingredients are those in every food that lists it.
   */
  lemma {:induction false} AllergenPossibilitiesSpec(foods: seq<Food>, a: Allergen, i: Ingredient)
    ensures a in AllergenPossibilitiesFrom(foods) <==> exists k :: 0 <= k < |foods| && a in foods[k].allergens
    ensures a in AllergenPossibilitiesFrom(foods) ==>
      (i in AllergenPossibilitiesFrom(foods)[a] <==>
       forall k :: 0 <= k < |foods| && a in foods[k].allergens ==> i in foods[k].ingredients)
  {
    if foods != [] {
      var n := |foods| - 1;
      var init := foods[..n];
      assert foods == init + [foods[n]];
      FoldLeftSnoc(map[], init, foods[n], AddFood);
      AllergenPossibilitiesSpec(init, a, i);
      assert forall k :: 0 <= k < n ==> init[k] == foods[k];
    }
  }

  /** Every ingredient that some allergen may be in. */
  function Candidates(ap: AllergenPossibilities): set<Ingredient>
  {
    set a, i | a in ap && i in ap[a] :: i
  }

  /**
   * `ingredientPossibilitiesFrom`: the inverse relation. The source inserts
   * allergen by allergen in dictionary order; the resulting dictionary does not
   * depend on that order.
   */
  function IngredientPossibilitiesFrom(ap: AllergenPossibilities): (ip: IngredientPossibilities)
    ensures forall i :: i in ip <==> exists a :: a in ap && i in ap[a]
    ensures forall i, a :: i in ip ==> (a in ip[i] <==> a in ap && i in ap[a])
  {
    map i | i in Candidates(ap) :: set a | a in ap && i in ap[a]
  }

  /** The element of a one-element set, as `only()` gives it. */
  function OnlyOf<T>(s: set<T>): (x: T)
    requires |s| == 1
    ensures s == {x}
  {
    var x :| x in s;
    assert s == {x} by {
      assert |s - {x}| == 0;
    }
    x
  }

  /** The ingredients with exactly one candidate allergen, mapped to it. */
  function Identified(ip: IngredientPossibilities): (id: map<Ingredient, Allergen>)
    ensures forall i :: i in id <==> i in ip && |ip[i]| == 1
    ensures forall i :: i in id ==> ip[i] == {id[i]}
  {
    map i | i in ip && |ip[i]| == 1 :: OnlyOf(ip[i])
  }

  /** The possibilities without the given allergens (`allergenPossibilities[allergen] = nil` for each). */
  function Without(ap: AllergenPossibilities, gone: set<Allergen>): (r: AllergenPossibilities)
    ensures r.Keys == ap.Keys - gone
    ensures forall a :: a in r ==> r[a] == ap[a]
  {
    ap - gone
  }

  /** No ingredient already settled is still a candidate for a remaining allergen. */
  ghost predicate Settled(ap: AllergenPossibilities, acc: map<Ingredient, Allergen>)
  {
    forall a, i :: a in ap && i in ap[a] ==> i !in acc
  }

  /** `merge` with `fatalError` on a clash: the caller guarantees that the keys are disjoint. */
  function Merge(acc: map<Ingredient, Allergen>, id: map<Ingredient, Allergen>): (r: map<Ingredient, Allergen>)
    requires acc.Keys !! id.Keys
    ensures r.Keys == acc.Keys + id.Keys
    ensures forall i :: i in acc ==> r[i] == acc[i]
    ensures forall i :: i in id ==> r[i] == id[i]
  {
    acc + id
  }

  /** The rounds of `reduceAllergenPossibilites`, from possibilities `ap` and ingredients settled so far `acc`. */
  function ReduceFrom(ap: AllergenPossibilities, acc: map<Ingredient, Allergen>): map<Ingredient, Allergen>
    requires Settled(ap, acc)
    decreases |ap.Keys|
  {
    var id := Identified(IngredientPossibilitiesFrom(ap));
    if id == map[] then acc
    else
      RoundShrinks(ap, acc, id);
      ReduceFrom(Without(ap, id.Values), Merge(acc, id))
  }

  /**
   * A round that settles something leaves fewer allergens, settles no ingredient
   * twice, and keeps every settled ingredient out of the remaining possibilities.
   */
  lemma RoundShrinks(ap: AllergenPossibilities, acc: map<Ingredient, Allergen>, id: map<Ingredient, Allergen>)
    requires Settled(ap, acc) && id == Identified(IngredientPossibilitiesFrom(ap)) && id != map[]
    ensures |Without(ap, id.Values).Keys| < |ap.Keys|
    ensures acc.Keys !! id.Keys
    ensures Settled(Without(ap, id.Values), Merge(acc, id))
  {
    RoundDrops(ap, id);
    OnlyCandidate(ap, id);
    var ap' := Without(ap, id.Values);
    forall j | j in id ensures j !in acc {
      assert id[j] in ap && j in ap[id[j]];
    }
    var acc' := Merge(acc, id);
    forall a, j | a in ap' && j in ap'[a] ensures j !in acc' {
      assert a in ap && j in ap[a];
      assert j !in acc && j !in id;
    }
  }

  /** An ingredient a round settles was a candidate for its allergen only. */
  lemma OnlyCandidate(ap: AllergenPossibilities, id: map<Ingredient, Allergen>)
    requires id == Identified(IngredientPossibilitiesFrom(ap))
    ensures forall j :: j in id ==> id[j] in ap && j in ap[id[j]]
    ensures forall j, a :: j in id && a in ap && j in ap[a] ==> a == id[j] && a in id.Values
  {
    var ip := IngredientPossibilitiesFrom(ap);
    forall j | j in id ensures id[j] in ap && j in ap[id[j]] {
      assert id[j] in ip[j];
    }
    forall j, a | j in id && a in ap && j in ap[a] ensures a == id[j] && a in id.Values {
      assert a in ip[j];
    }
  }

  /** A round that settles something drops at least one allergen. */
  lemma RoundDrops(ap: AllergenPossibilities, id: map<Ingredient, Allergen>)
    requires id == Identified(IngredientPossibilitiesFrom(ap)) && id != map[]
    ensures |Without(ap, id.Values).Keys| < |ap.Keys|
  {
    var ip := IngredientPossibilitiesFrom(ap);
    var i :| i in id;
    assert id[i] in ip[i];
    var kept := Without(ap, id.Values).Keys;
    assert id[i] in ap.Keys && id[i] !in kept;
    SubsetSize(kept, ap.Keys);
  }

  /** `reduceAllergenPossibilites`: rounds of settling, until a round settles no ingredient. */
  method ReduceAllergenPossibilities(allergenPossibilities: AllergenPossibilities)
    returns (ingredientAllergens: map<Ingredient, Allergen>)
    ensures ingredientAllergens == ReduceFrom(allergenPossibilities, map[])
  {
    ingredientAllergens := map[];
    var possibilities := allergenPossibilities;
    while true
      invariant Settled(possibilities, ingredientAllergens)
      invariant ReduceFrom(possibilities, ingredientAllergens) == ReduceFrom(allergenPossibilities, map[])
      decreases |possibilities.Keys|
    {
      var ingredientPossibilities := IngredientPossibilitiesFrom(possibilities);
      var identified := Identified(ingredientPossibilities);
      if identified == map[] {
        break;
      }
      RoundShrinks(possibilities, ingredientAllergens, identified);
      ingredientAllergens := Merge(ingredientAllergens, identified);
      possibilities := Without(possibilities, identified.Values);
    }
  }

  /** The possibilities that remain are a part of the original ones. */
  ghost predicate Restricts(ap: AllergenPossibilities, ap0: AllergenPossibilities)
  {
    forall a :: a in ap ==> a in ap0 && ap[a] == ap0[a]
  }

  /** Every settled ingredient was a possibility for the allergen it was given. */
  ghost predicate Sound(acc: map<Ingredient, Allergen>, ap0: AllergenPossibilities)
  {
    forall i :: i in acc ==> acc[i] in ap0 && i in ap0[acc[i]]
  }

  /**
   * The rounds keep what is settled, settle each ingredient only with an
   * allergen it may contain, and stop at remaining possibilities in which no
   * ingredient has exactly one candidate and no settled ingredient appears; every
   * allergen dropped on the way was given to some ingredient.
   */
  lemma {:induction false} ReduceFromSpec(ap: AllergenPossibilities, acc: map<Ingredient, Allergen>, ap0: AllergenPossibilities)
    requires Settled(ap, acc) && Restricts(ap, ap0) && Sound(acc, ap0)
    ensures var r := ReduceFrom(ap, acc);
      Sound(r, ap0) && (forall i :: i in acc ==> i in r && r[i] == acc[i]) &&
      exists rest :: Restricts(rest, ap) && Settled(rest, r) && Identified(IngredientPossibilitiesFrom(rest)) == map[] &&
        ap.Keys <= rest.Keys + r.Values
    decreases |ap.Keys|
  {
    var id := Identified(IngredientPossibilitiesFrom(ap));
    if id == map[] {
      assert Restricts(ap, ap);
    } else {
      RoundShrinks(ap, acc, id);
      var ap' := Without(ap, id.Values);
      var acc' := Merge(acc, id);
      RoundSound(ap, acc, id, ap0);
      ReduceFromSpec(ap', acc', ap0);
      var r := ReduceFrom(ap', acc');
      var rest :| Restricts(rest, ap') && Settled(rest, r) && Identified(IngredientPossibilitiesFrom(rest)) == map[] &&
        ap'.Keys <= rest.Keys + r.Values;
      RoundCovers(ap, id, acc', r, rest);
    }
  }

  /** A round gives each ingredient it settles the one allergen it may contain. */
  lemma RoundSound(ap: AllergenPossibilities, acc: map<Ingredient, Allergen>, id: map<Ingredient, Allergen>, ap0: AllergenPossibilities)
    requires Restricts(ap, ap0) && Sound(acc, ap0) && acc.Keys !! id.Keys
    requires id == Identified(IngredientPossibilitiesFrom(ap))
    ensures Restricts(Without(ap, id.Values), ap0) && Sound(Merge(acc, id), ap0)
  {
    OnlyCandidate(ap, id);
    var acc' := Merge(acc, id);
    forall i | i in acc' ensures acc'[i] in ap0 && i in ap0[acc'[i]] {
      if i in id {
        assert acc'[i] == id[i];
      } else {
        assert acc'[i] == acc[i];
      }
    }
  }

  /** The allergens a round drops went to the ingredients it settled, which the later rounds keep. */
  lemma RoundCovers(ap: AllergenPossibilities, id: map<Ingredient, Allergen>, acc': map<Ingredient, Allergen>,
                    r: map<Ingredient, Allergen>, rest: AllergenPossibilities)
    requires forall i :: i in id ==> i in acc' && acc'[i] == id[i]
    requires forall i :: i in acc' ==> i in r && r[i] == acc'[i]
    requires Restricts(rest, Without(ap, id.Values)) && Without(ap, id.Values).Keys <= rest.Keys + r.Values
    ensures Restricts(rest, ap) && ap.Keys <= rest.Keys + r.Values
  {
    forall a | a in ap ensures a in rest.Keys + r.Values {
      if a in id.Values {
        var j :| j in id && id[j] == a;
        assert r[j] == a;
      }
    }
  }

  /** What `reduceAllergenPossibilites` returns is sound for its input and leaves nothing to settle. */
  lemma ReduceAllergenPossibilitiesSpec(ap: AllergenPossibilities)
    ensures var r := ReduceFrom(ap, map[]);
      (forall i :: i in r ==> r[i] in ap && i in ap[r[i]]) &&
      exists rest :: Restricts(rest, ap) && Settled(rest, r) && Identified(IngredientPossibilitiesFrom(rest)) == map[] &&
        ap.Keys <= rest.Keys + r.Values
  {
    ReduceFromSpec(ap, map[], ap);
  }

  /**
   * How often the ingredients that were not settled occur in the foods (the
   * source flattens each food's ingredient set, in set order, and counts).
   */
  function AllergenFreeOccurrences(foods: seq<Food>, settled: set<Ingredient>): nat
  {
    if foods == [] then 0 else |foods[0].ingredients - settled| + AllergenFreeOccurrences(foods[1..], settled)
  }

  /** Swift's `<` on strings of plain letters: lexicographic by character, a proper prefix first. */
  predicate StringLess(a: string, b: string)
  {
    if a == [] then b != []
    else b != [] && (a[0] < b[0] || (a[0] == b[0] && StringLess(a[1..], b[1..])))
  }

  /** `keys` lists the settled ingredients once each, sorted by their allergens. */
  ghost predicate ByAllergen(r: map<Ingredient, Allergen>, keys: seq<Ingredient>)
  {
    |keys| == |r| && (forall k :: 0 <= k < |keys| ==> keys[k] in r) &&
    (forall j, k :: 0 <= j < k < |keys| ==> StringLess(r[keys[j]], r[keys[k]]))
  }

  /** `joined(separator:)`. */
  function Joined(words: seq<string>, sep: string): string
  {
    if words == [] then [] else if |words| == 1 then words[0] else words[0] + sep + Joined(words[1..], sep)
  }
}
