/**
  Demand follows the servings: a meal needs of every line what its recipe needs, times the meal's servings, over
  the recipe's servings.
 */
module Servings {
  import opened Wrappers
  import opened Contracts
  import opened Matching
  import opened Demand
  import opened Units

  // ----- Conversions scale ----------------------------------------------------------------------

  /** So many times a converted unit. */
  function Scaled(q: real, unit: Converted): Converted {
    if unit.Defined? then Defined(q * unit.value) else Undefined
  }

  lemma {:induction false} PlainScales(q: real, f: string, t: string)
    ensures ConvertPlain(q, f, t) == Scaled(q, Rate(f, t))
  {
    ConvertsByRate(q, f, t);
  }

  /** A converted quantity, crossed by a factor and converted again at a rate. */
  function Onward(first: Converted, factor: real, rate: Converted): Converted {
    if first.Undefined? then Undefined else Scaled(first.value * factor, rate)
  }

  lemma {:induction false} Regroup(q: real, a: real, b: real, c: real)
    ensures q * a * b * c == q * (1.0 * a * b * c)
  {
    assert q * a * b * c == q * a * (b * c) == q * (a * (b * c));
  }

  lemma {:induction false} OnwardScales(q: real, first: Converted, factor: real, rate: Converted)
    ensures Onward(Scaled(q, first), factor, rate) == Scaled(q, Onward(Scaled(1.0, first), factor, rate))
  {
    if first.Defined? && rate.Defined? {
      Regroup(q, first.value, factor, rate.value);
    }
  }

  lemma {:induction false} OnwardIs(first: Converted, factor: real, rate: Converted, x: real)
    requires first.Defined? && x == first.value * factor
    ensures Onward(first, factor, rate) == Scaled(x, rate)
  {
  }

  lemma {:induction false} CrossIsOnward(e: Conversion, q: real, f: string, t: string)
    ensures Cross(e, q, f, t) == Onward(ConvertPlain(q, f, e.fromUnit), e.factor, Rate(e.toUnit, t))
  {
    var first, rate := ConvertPlain(q, f, e.fromUnit), Rate(e.toUnit, t);
    if first.Defined? {
      var x := first.value * e.factor;
      assert Cross(e, q, f, t) == ConvertPlain(x, e.toUnit, t) by { CrossVia(e, q, f, t, first.value, x); }
      assert ConvertPlain(x, e.toUnit, t) == Scaled(x, rate) by { PlainScales(x, e.toUnit, t); }
      assert Onward(first, e.factor, rate) == Scaled(x, rate) by { OnwardIs(first, e.factor, rate, x); }
    }
  }

  lemma {:induction false} CrossScales(e: Conversion, q: real, f: string, t: string)
    ensures Cross(e, q, f, t) == Scaled(q, Cross(e, 1.0, f, t))
  {
    CrossIsOnward(e, q, f, t);
    CrossIsOnward(e, 1.0, f, t);
    PlainScales(q, f, e.fromUnit);
    PlainScales(1.0, f, e.fromUnit);
    OnwardScales(q, Rate(f, e.fromUnit), e.factor, Rate(e.toUnit, t));
  }

  lemma {:induction false} BridgedScales(factors: seq<Conversion>, q: real, name: string, f: string, t: string)
    ensures Bridged(factors, q, name, f, t) == Scaled(q, Bridged(factors, 1.0, name, f, t))
  {
    BridgedFirst(factors, q, name, f, t);
    BridgedFirst(factors, 1.0, name, f, t);
    var k := FirstBridge(factors, name, f, t);
    if k < |factors| {
      CrossScales(factors[k], q, f, t);
    }
  }

  /** Whether a quantity converts does not depend on how much it is, and twice as much converts to twice as much. */
  lemma {:induction false} ConvertScales(factors: seq<Conversion>, q: real, f: string, t: string, name: Option<string>)
    ensures ConvertFor(factors, q, f, t, name) == Scaled(q, ConvertFor(factors, 1.0, f, t, name))
  {
    if SameDimension(f, t) || name.None? {
      PlainScales(q, f, t);
    } else if Lookup(factors, name.value, f, t).Undefined? {
      BridgedScales(factors, q, name.value, f, t);
    }
  }

  // ----- The part that is served ----------------------------------------------------------------

  /** What a meal takes of a quantity that is meant for the servings of its recipe. */
  function Part(quantity: real, meal: Meal): real {
    quantity * meal.servings as real / meal.recipe.servings as real
  }

  lemma {:induction false} PartIsProportional(quantity: real, meal: Meal)
    ensures Part(quantity, meal) * meal.recipe.servings as real == quantity * meal.servings as real
  {
  }

  lemma {:induction false} PartAdds(a: real, b: real, meal: Meal)
    ensures Part(a + b, meal) == Part(a, meal) + Part(b, meal) && Part(0.0, meal) == 0.0
  {
    assert (a + b) * meal.servings as real == a * meal.servings as real + b * meal.servings as real;
  }

  lemma {:induction false} PartGrows(a: real, b: real, more: bool, meal: Meal)
    ensures Part(a + if more then b else 0.0, meal) == Part(a, meal) + if more then Part(b, meal) else 0.0
  {
    if more {
      PartAdds(a, b, meal);
    }
  }

  lemma {:induction false} PartOfAll(quantity: real, meal: Meal)
    requires meal.servings == meal.recipe.servings
    ensures Part(quantity, meal) == quantity
  {
  }

  lemma {:induction false} PartOfMore(quantity: real, meal: Meal, a: nat, b: nat)
    ensures Part(quantity, meal.(servings := a + b)) == Part(quantity, meal.(servings := a)) + Part(quantity, meal.(servings := b))
  {
    assert quantity * (a + b) as real == quantity * a as real + quantity * b as real;
  }

  lemma {:induction false} RawIsPart(meal: Meal, ingredient: RecipeIngredient)
    ensures RawQuantity(meal, ingredient) == Part(ingredient.quantity, meal)
  {
  }

  lemma {:induction false} PartOfScaled(quantity: real, rate: real, meal: Meal)
    ensures Part(quantity, meal) * rate == Part(quantity * rate, meal)
  {
    var s, p := meal.servings as real, meal.recipe.servings as real;
    assert quantity * rate * s == (quantity * s) * rate;
    assert (quantity * s) * rate / p == (quantity * s / p) * rate;
  }

  /** A part of a quantity converts to that part of what it converts to. */
  function PartOf(all: Converted, meal: Meal): Converted {
    if all.Defined? then Defined(Part(all.value, meal)) else Undefined
  }

  lemma {:induction false} ScaledPart(quantity: real, rate: Converted, meal: Meal)
    ensures Scaled(Part(quantity, meal), rate) == PartOf(Scaled(quantity, rate), meal)
  {
    if rate.Defined? {
      PartOfScaled(quantity, rate.value, meal);
    }
  }

  lemma {:induction false} ConvertPart(factors: seq<Conversion>, quantity: real, meal: Meal, f: string, t: string, name: Option<string>)
    ensures ConvertFor(factors, Part(quantity, meal), f, t, name) == PartOf(ConvertFor(factors, quantity, f, t, name), meal)
  {
    ConvertScales(factors, Part(quantity, meal), f, t, name);
    ConvertScales(factors, quantity, f, t, name);
    ScaledPart(quantity, ConvertFor(factors, 1.0, f, t, name), meal);
  }

  // ----- What a recipe needs by itself ----------------------------------------------------------

  /** The line of an ingredient and how much of it the recipe calls for, in the unit of the line. */
  function OwnNeed(market: Market, ingredient: RecipeIngredient): (LineKey, real) {
    var product := Match(market.byName, market.groups, ingredient.name, ingredient.substitutionGroup);
    if product.None? then (IngredientLine(ingredient.name), ingredient.quantity)
    else
      var unit := TargetUnit(product.value, ingredient.unit);
      var converted := ConvertFor(market.factors, ingredient.quantity, ingredient.unit, unit, Some(ingredient.name));
      if converted.Undefined? then (IngredientLine(ingredient.name), ingredient.quantity)
      else (ProductLine(product.value.productId), converted.value)
  }

  /** A meal contributes to the line of the ingredient its part of what the recipe needs. */
  lemma {:induction false} ContributesPart(market: Market, meal: Meal, ingredient: RecipeIngredient)
    ensures var c, own := Contribute(market, meal, ingredient), OwnNeed(market, ingredient);
      c.key == own.0 && c.quantity == Part(own.1, meal)
  {
    RawIsPart(meal, ingredient);
    var product := Match(market.byName, market.groups, ingredient.name, ingredient.substitutionGroup);
    if product.Some? {
      ConvertPart(market.factors, ingredient.quantity, meal, ingredient.unit, TargetUnit(product.value, ingredient.unit),
                  Some(ingredient.name));
    }
  }

  /** How much of a line the ingredients need by themselves. */
  function OwnTotal(market: Market, ingredients: seq<RecipeIngredient>, key: LineKey): real {
    if ingredients == [] then 0.0
    else
      var own := OwnNeed(market, ingredients[|ingredients| - 1]);
      OwnTotal(market, ingredients[..|ingredients| - 1], key) + if own.0 == key then own.1 else 0.0
  }

  lemma {:induction false} OwnStep(market: Market, ingredients: seq<RecipeIngredient>, key: LineKey, k: nat)
    requires k < |ingredients|
    ensures var own := OwnNeed(market, ingredients[k]);
      OwnTotal(market, ingredients[..k + 1], key) == OwnTotal(market, ingredients[..k], key) + if own.0 == key then own.1 else 0.0
  {
    assert ingredients[..k + 1][..k] == ingredients[..k];
  }

  lemma {:induction false} TotalStep(cs: seq<Contribution>, key: LineKey, k: nat)
    requires k < |cs|
    ensures Total(cs[..k + 1], key) == Total(cs[..k], key) + if cs[k].key == key then cs[k].quantity else 0.0
  {
    assert cs[..k + 1][..k] == cs[..k];
  }

  /** `cs` holds, for each ingredient in turn, the meal's part of what the recipe needs. */
  ghost predicate ArePartsOf(market: Market, meal: Meal, ingredients: seq<RecipeIngredient>, cs: seq<Contribution>) {
    && |cs| == |ingredients|
    && forall k | 0 <= k < |cs| :: IsPartOf(cs[k], OwnNeed(market, ingredients[k]), meal)
  }

  predicate IsPartOf(c: Contribution, own: (LineKey, real), meal: Meal) {
    c.key == own.0 && c.quantity == Part(own.1, meal)
  }

  lemma {:induction false} FirstNeedParts(market: Market, meal: Meal, ingredients: seq<RecipeIngredient>, cs: seq<Contribution>,
                                          key: LineKey, n: nat)
    requires ArePartsOf(market, meal, ingredients, cs) && n <= |cs|
    ensures Total(cs[..n], key) == Part(OwnTotal(market, ingredients[..n], key), meal)
  {
    if n > 0 {
      FirstNeedParts(market, meal, ingredients, cs, key, n - 1);
      TotalStep(cs, key, n - 1);
      OwnStep(market, ingredients, key, n - 1);
      var own := OwnNeed(market, ingredients[n - 1]);
      assert IsPartOf(cs[n - 1], own, meal);
      PartGrows(OwnTotal(market, ingredients[..n - 1], key), own.1, own.0 == key, meal);
    } else {
      PartAdds(0.0, 0.0, meal);
    }
  }

  /** What one meal needs of a line: its part of what the recipe needs. */
  lemma {:induction false} MealNeedsPart(market: Market, meal: Meal, key: LineKey)
    ensures Total(MealContributions(market, meal), key) == Part(OwnTotal(market, meal.recipe.ingredients, key), meal)
  {
    var ingredients, cs := meal.recipe.ingredients, MealContributions(market, meal);
    forall k | 0 <= k < |cs| ensures IsPartOf(cs[k], OwnNeed(market, ingredients[k]), meal) {
      ContributesPart(market, meal, ingredients[k]);
    }
    FirstNeedParts(market, meal, ingredients, cs, key, |cs|);
    assert cs[..|cs|] == cs && ingredients[..|cs|] == ingredients;
  }

  // ----- What the meals of a plan need ----------------------------------------------------------

  /** What all meals need of a line. */
  function Served(market: Market, meals: seq<Meal>, key: LineKey): real {
    if meals == [] then 0.0
    else
      var last := meals[|meals| - 1];
      Served(market, meals[..|meals| - 1], key) + Part(OwnTotal(market, last.recipe.ingredients, key), last)
  }

  lemma {:induction false} TotalAppends(cs: seq<Contribution>, more: seq<Contribution>, key: LineKey)
    ensures Total(cs + more, key) == Total(cs, key) + Total(more, key)
  {
    if more == [] {
      assert cs + more == cs;
    } else {
      var rest, last := more[..|more| - 1], more[|more| - 1];
      TotalAppends(cs, rest, key);
      assert cs + more == cs + rest + [last];
      AppendTotals(cs + rest, last, key, 0);
    }
  }

  lemma {:induction false} DemandIsServed(market: Market, meals: seq<Meal>, key: LineKey)
    ensures Total(Contributions(market, meals), key) == Served(market, meals, key)
  {
    if meals != [] {
      var rest, last := meals[..|meals| - 1], meals[|meals| - 1];
      DemandIsServed(market, rest, key);
      TotalAppends(Contributions(market, rest), MealContributions(market, last), key);
      MealNeedsPart(market, last, key);
    }
  }

  lemma {:induction false} ServedStep(market: Market, meals: seq<Meal>, meal: Meal, key: LineKey)
    ensures Served(market, meals + [meal], key) == Served(market, meals, key) + Part(OwnTotal(market, meal.recipe.ingredients, key), meal)
  {
    assert (meals + [meal])[..|meals|] == meals;
  }

  /** Cooked for its own servings, a recipe needs its own quantities. */
  lemma {:induction false} OwnServings(market: Market, meals: seq<Meal>, meal: Meal, key: LineKey)
    requires meal.servings == meal.recipe.servings
    ensures Served(market, meals + [meal], key) == Served(market, meals, key) + OwnTotal(market, meal.recipe.ingredients, key)
  {
    ServedStep(market, meals, meal, key);
    PartOfAll(OwnTotal(market, meal.recipe.ingredients, key), meal);
  }

  /** One meal for some servings needs what two meals of the recipe need that share them. */
  lemma {:induction false} ServingsAdd(market: Market, meals: seq<Meal>, meal: Meal, a: nat, b: nat, key: LineKey)
    ensures Served(market, meals + [meal.(servings := a + b)], key) ==
      Served(market, meals + [meal.(servings := a)] + [meal.(servings := b)], key)
  {
    ServedStep(market, meals, meal.(servings := a + b), key);
    ServedStep(market, meals, meal.(servings := a), key);
    ServedStep(market, meals + [meal.(servings := a)], meal.(servings := b), key);
    PartOfMore(OwnTotal(market, meal.recipe.ingredients, key), meal, a, b);
  }
}
