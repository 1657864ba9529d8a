/**
  The demand side of provisioning: what every ingredient of every meal contributes to which purchase
  line, and the totals per line and per (line, meal).
 */
module Demand {
  import opened Wrappers
  import opened Contracts
  import opened Matching
  import opened Units

  datatype Meal = Meal(slot: nat, date: nat, mealType: string, recipe: Recipe, servings: nat)

  /** The key of a purchase line: a product, or an ingredient that no product covers. */
  datatype LineKey = ProductLine(productId: nat) | IngredientLine(name: string)

  /** What the first contribution to a line fixes about it. */
  datatype Meta = Meta(name: string, product: Option<Product>, unit: string)

  datatype Contribution = Contribution(key: LineKey, slot: nat, quantity: real, meta: Meta)

  /** The market a plan is provisioned from. */
  datatype Market = Market(byName: ByName, groups: Groups, factors: seq<Conversion>)

  function TargetUnit(product: Product, fallback: string): string {
    if product.packages != [] then product.packages[0].unit else fallback
  }

  /** The quantity the meal needs, scaled from the recipe's servings to the meal's. */
  function RawQuantity(meal: Meal, ingredient: RecipeIngredient): real {
    ingredient.quantity * (meal.servings as real / meal.recipe.servings as real)
  }

  lemma {:induction false} RawIsProportional(meal: Meal, ingredient: RecipeIngredient)
    ensures RawQuantity(meal, ingredient) * meal.recipe.servings as real == ingredient.quantity * meal.servings as real
  {
    var scale := meal.servings as real / meal.recipe.servings as real;
    assert scale * meal.recipe.servings as real == meal.servings as real;
    assert ingredient.quantity * scale * meal.recipe.servings as real == ingredient.quantity * (scale * meal.recipe.servings as real);
  }

  /** The contribution of one ingredient; an impossible conversion leaves a line without a product. */
  function Contribute(market: Market, meal: Meal, ingredient: RecipeIngredient): Contribution {
    var product := Match(market.byName, market.groups, ingredient.name, ingredient.substitutionGroup);
    var raw := RawQuantity(meal, ingredient);
    var unmatched := Contribution(IngredientLine(ingredient.name), meal.slot, raw, Meta(ingredient.name, None, ingredient.unit));
    if product.None? then
      unmatched
    else
      var unit := TargetUnit(product.value, ingredient.unit);
      var converted := ConvertFor(market.factors, raw, ingredient.unit, unit, Some(ingredient.name));
      if converted.Undefined? then unmatched
      else Contribution(ProductLine(product.value.productId), meal.slot, converted.value, Meta(ingredient.name, product, unit))
  }

  function MealContributions(market: Market, meal: Meal): seq<Contribution> {
    seq(|meal.recipe.ingredients|, j requires 0 <= j < |meal.recipe.ingredients| =>
      Contribute(market, meal, meal.recipe.ingredients[j]))
  }

  /** All contributions, in the order in which the ingredients are visited. */
  function Contributions(market: Market, meals: seq<Meal>): seq<Contribution> {
    if meals == [] then []
    else Contributions(market, meals[..|meals| - 1]) + MealContributions(market, meals[|meals| - 1])
  }

  // ----- Totals ---------------------------------------------------------------------------------

  ghost function KeysOf(cs: seq<Contribution>): set<LineKey> {
    set c | c in cs :: c.key
  }

  /** The demand of a line. */
  function Total(cs: seq<Contribution>, key: LineKey): real {
    if cs == [] then 0.0
    else
      var c := cs[|cs| - 1];
      Total(cs[..|cs| - 1], key) + if c.key == key then c.quantity else 0.0
  }

  /** The demand of a line that comes from one slot. */
  function SlotTotal(cs: seq<Contribution>, key: LineKey, slot: nat): real {
    if cs == [] then 0.0
    else
      var c := cs[|cs| - 1];
      SlotTotal(cs[..|cs| - 1], key, slot) + if c.key == key && c.slot == slot then c.quantity else 0.0
  }

  /** The first contribution to a line fixes its product and unit. */
  function FirstMeta(cs: seq<Contribution>, key: LineKey): Option<Meta> {
    if cs == [] then None
    else
      var first := FirstMeta(cs[..|cs| - 1], key);
      if first.Some? then first else if cs[|cs| - 1].key == key then Some(cs[|cs| - 1].meta) else None
  }

  /** What the three dictionaries hold after the contributions `cs`. */
  ghost predicate Accumulated(cs: seq<Contribution>, demand: map<LineKey, real>, byMeal: map<(LineKey, nat), real>,
                              meta: map<LineKey, Meta>) {
    && demand.Keys == KeysOf(cs)
    && (forall k :: k in demand ==> demand[k] == Total(cs, k))
    && (forall k: LineKey, s: nat :: (if (k, s) in byMeal then byMeal[(k, s)] else 0.0) == SlotTotal(cs, k, s))
    && (forall k: LineKey :: FirstMeta(cs, k) == if k in meta then Some(meta[k]) else None)
  }

  lemma {:induction false} NotYetDemanded(cs: seq<Contribution>, key: LineKey)
    ensures key !in KeysOf(cs) ==> Total(cs, key) == 0.0 && FirstMeta(cs, key) == None
    ensures key in KeysOf(cs) ==> FirstMeta(cs, key).Some?
  {
    if cs != [] {
      NotYetDemanded(cs[..|cs| - 1], key);
      assert cs == cs[..|cs| - 1] + [cs[|cs| - 1]];
    }
  }

  lemma {:induction false} KeysAppend(cs: seq<Contribution>, c: Contribution)
    ensures KeysOf(cs + [c]) == KeysOf(cs) + {c.key}
  {
  }

  lemma {:induction false} AppendTotals(cs: seq<Contribution>, c: Contribution, key: LineKey, slot: nat)
    ensures Total(cs + [c], key) == Total(cs, key) + if c.key == key then c.quantity else 0.0
    ensures SlotTotal(cs + [c], key, slot) == SlotTotal(cs, key, slot) + if c.key == key && c.slot == slot then c.quantity else 0.0
    ensures FirstMeta(cs + [c], key) ==
      if FirstMeta(cs, key).Some? then FirstMeta(cs, key) else if c.key == key then Some(c.meta) else None
  {
    assert (cs + [c])[..|cs|] == cs;
  }

  lemma {:induction false} AccumulateStep(cs: seq<Contribution>, c: Contribution, demand: map<LineKey, real>,
                       byMeal: map<(LineKey, nat), real>, meta: map<LineKey, Meta>)
    requires Accumulated(cs, demand, byMeal, meta)
    ensures Accumulated(cs + [c],
                        demand[c.key := (if c.key in demand then demand[c.key] else 0.0) + c.quantity],
                        byMeal[(c.key, c.slot) := (if (c.key, c.slot) in byMeal then byMeal[(c.key, c.slot)] else 0.0) + c.quantity],
                        if c.key in meta then meta else meta[c.key := c.meta])
  {
    KeysAppend(cs, c);
    NotYetDemanded(cs, c.key);
    forall k: LineKey, s: nat
      ensures Total(cs + [c], k) == Total(cs, k) + if c.key == k then c.quantity else 0.0
      ensures SlotTotal(cs + [c], k, s) == SlotTotal(cs, k, s) + if c.key == k && c.slot == s then c.quantity else 0.0
      ensures FirstMeta(cs + [c], k) ==
        if FirstMeta(cs, k).Some? then FirstMeta(cs, k) else if c.key == k then Some(c.meta) else None
    {
      AppendTotals(cs, c, k, s);
    }
  }

  /** The body of the ingredient loop: match, convert, and fall back to a line without a product. */
  method ContributeIngredient(market: Market, meal: Meal, ingredient: RecipeIngredient) returns (c: Contribution)
    ensures c == Contribute(market, meal, ingredient)
    ensures c.key.IngredientLine? ==> c.quantity * meal.recipe.servings as real == ingredient.quantity * meal.servings as real
  {
    RawIsProportional(meal, ingredient);
    var product := MatchIngredient(market.byName, market.groups, ingredient);
    var key, unit := IngredientLine(ingredient.name), ingredient.unit;
    if product.Some? {
      key, unit := ProductLine(product.value.productId), TargetUnit(product.value, ingredient.unit);
    }
    var raw := RawQuantity(meal, ingredient);
    var converted := ConvertFor(market.factors, raw, ingredient.unit, unit, Some(ingredient.name));
    if converted.Defined? {
      assert product.None? ==> converted == Defined(raw);
      c := Contribution(key, meal.slot, converted.value, Meta(ingredient.name, product, unit));
    } else {
      c := Contribution(IngredientLine(ingredient.name), meal.slot, raw, Meta(ingredient.name, None, ingredient.unit));
    }
  }

  /** The ingredients of one meal. */
  method AggregateMeal(market: Market, meal: Meal, ghost before: seq<Contribution>,
                       demand0: map<LineKey, real>, byMeal0: map<(LineKey, nat), real>, meta0: map<LineKey, Meta>)
    returns (demand: map<LineKey, real>, byMeal: map<(LineKey, nat), real>, meta: map<LineKey, Meta>)
    requires Accumulated(before, demand0, byMeal0, meta0)
    ensures Accumulated(before + MealContributions(market, meal), demand, byMeal, meta)
  {
    demand, byMeal, meta := demand0, byMeal0, meta0;
    var ingredients := meal.recipe.ingredients;
    ghost var mine := MealContributions(market, meal);
    assert before + mine[..0] == before;
    for j := 0 to |ingredients|
      invariant Accumulated(before + mine[..j], demand, byMeal, meta)
    {
      var c := ContributeIngredient(market, meal, ingredients[j]);
      assert before + mine[..j + 1] == before + mine[..j] + [c];
      AccumulateStep(before + mine[..j], c, demand, byMeal, meta);
      if c.key !in meta {
        meta := meta[c.key := c.meta];
      }
      demand := demand[c.key := (if c.key in demand then demand[c.key] else 0.0) + c.quantity];
      byMeal := byMeal[(c.key, c.slot) := (if (c.key, c.slot) in byMeal then byMeal[(c.key, c.slot)] else 0.0) + c.quantity];
    }
    assert mine[..|ingredients|] == mine;
  }

  /** The demand loops of `provision`. */
  method Aggregate(market: Market, meals: seq<Meal>)
    returns (demand: map<LineKey, real>, byMeal: map<(LineKey, nat), real>, meta: map<LineKey, Meta>)
    ensures Accumulated(Contributions(market, meals), demand, byMeal, meta)
  {
    demand, byMeal, meta := map[], map[], map[];
    for i := 0 to |meals|
      invariant Accumulated(Contributions(market, meals[..i]), demand, byMeal, meta)
    {
      assert meals[..i + 1][..i] == meals[..i];
      demand, byMeal, meta := AggregateMeal(market, meals[i], Contributions(market, meals[..i]), demand, byMeal, meta);
    }
    assert meals[..|meals|] == meals;
  }
}
