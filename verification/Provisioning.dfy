/**
  Provisioning: from the demand of a set of meals to purchase lines of whole packages, their cost,
  and the share of the cost imputed to every meal.  The lines are made in an arbitrary order.
 */
module Provisioning {
  import opened Collections
  import opened Wrappers
  import opened Contracts
  import opened Demand
  import opened Matching
  import opened Packaging
  import opened Pantry
  import opened Servings
  import opened Units

  datatype Setting = Setting(market: Market, stock: Stock, terms: Terms)

  datatype GroceryLine = GroceryLine(
    key: LineKey, name: string, product: Option<Product>, unit: string,
    needed: real, pantry: real, pending: real, choice: Option<PackageChoice>,
    packages: nat, purchased: real, leftover: real, subtotal: real, subtotalKnown: bool)

  datatype Provision = Provision(lines: seq<GroceryLine>, costKnown: real, costEstimated: real, imputable: map<nat, real>) {
    function CostTotal(): real {
      costKnown + costEstimated
    }
  }

  /** The purchase line for a demand: without packages or a usable format it has no price. */
  function LineOf(setting: Setting, key: LineKey, meta: Meta, needed: real): GroceryLine {
    if meta.product.None? || meta.product.value.packages == [] then
      GroceryLine(key, meta.name, meta.product, meta.unit, needed, 0.0, needed, None, 0, 0.0, 0.0, 0.0, false)
    else
      var available := AvailableOf(setting.stock, setting.market.factors, meta.name, meta.unit);
      var (used, pending) := Pending(available, needed);
      var best := Best(pending, meta.product.value.packages, setting.terms);
      if best.None? then
        GroceryLine(key, meta.name, meta.product, meta.unit, needed, used, pending, None, 0, 0.0, 0.0, 0.0, false)
      else
        var choice := ChoiceOf(pending, best.value, setting.terms);
        GroceryLine(key, meta.name, meta.product, meta.unit, needed, used, pending, Some(choice),
                    choice.result.packages, choice.result.purchased, choice.result.leftover,
                    choice.result.totalCost, choice.priceKnown)
  }

  method MakeLine(setting: Setting, key: LineKey, meta: Meta, needed: real) returns (line: GroceryLine)
    ensures line == LineOf(setting, key, meta, needed)
  {
    if meta.product.None? || meta.product.value.packages == [] {
      return GroceryLine(key, meta.name, meta.product, meta.unit, needed, 0.0, needed, None, 0, 0.0, 0.0, 0.0, false);
    }
    var available := Available(setting.stock, setting.market.factors, meta.name, meta.unit);
    var (used, pending) := Pending(available, needed);
    var choice := Choose(pending, meta.product.value.packages, setting.terms);
    BestIsLeast(pending, meta.product.value.packages, setting.terms);
    if choice.None? {
      return GroceryLine(key, meta.name, meta.product, meta.unit, needed, used, pending, None, 0, 0.0, 0.0, 0.0, false);
    }
    var result := choice.value.result;
    line := GroceryLine(key, meta.name, meta.product, meta.unit, needed, used, pending, choice,
                        result.packages, result.purchased, result.leftover, result.totalCost, choice.value.priceKnown);
  }

  /** The part of a line's subtotal that a meal with the given demand bears. */
  function Share(line: GroceryLine, demanded: real): real {
    if line.needed > 0.0 && line.subtotal > 0.0 then line.subtotal * demanded / line.needed else 0.0
  }

  // ----- What a provision is --------------------------------------------------------------------

  ghost predicate LinesFor(setting: Setting, cs: seq<Contribution>, lines: seq<GroceryLine>) {
    && (forall i, j | 0 <= i < j < |lines| :: lines[i].key != lines[j].key)
    && (forall k :: k in KeysOf(cs) ==> exists i | 0 <= i < |lines| :: lines[i].key == k)
    && (forall i | 0 <= i < |lines| :: IsLineFor(setting, cs, lines[i]))
  }

  ghost predicate IsLineFor(setting: Setting, cs: seq<Contribution>, line: GroceryLine) {
    && line.key in KeysOf(cs)
    && FirstMeta(cs, line.key).Some?
    && line == LineOf(setting, line.key, FirstMeta(cs, line.key).value, Total(cs, line.key))
  }

  /** The subtotals of the lines whose price is known, or of the others. */
  function Subtotals(lines: seq<GroceryLine>, known: bool): real {
    if lines == [] then 0.0
    else
      var line := lines[|lines| - 1];
      Subtotals(lines[..|lines| - 1], known) + if line.subtotalKnown == known then line.subtotal else 0.0
  }

  /** What the lines charge to one slot. */
  function SlotCost(lines: seq<GroceryLine>, cs: seq<Contribution>, slot: nat): real {
    if lines == [] then 0.0
    else
      var line := lines[|lines| - 1];
      SlotCost(lines[..|lines| - 1], cs, slot) + Share(line, SlotTotal(cs, line.key, slot))
  }

  /** `cost` once for every meal of the slot. */
  function PerMeal(meals: seq<Meal>, slot: nat, cost: real): real {
    if meals == [] then 0.0
    else PerMeal(meals[..|meals| - 1], slot, cost) + if meals[|meals| - 1].slot == slot then cost else 0.0
  }

  lemma {:induction false} PerMealAdds(meals: seq<Meal>, slot: nat, a: real, b: real)
    ensures PerMeal(meals, slot, a + b) == PerMeal(meals, slot, a) + PerMeal(meals, slot, b)
    ensures PerMeal(meals, slot, 0.0) == 0.0
  {
    if meals != [] {
      PerMealAdds(meals[..|meals| - 1], slot, a, b);
    }
  }

  function ImputableTo(imputable: map<nat, real>, slot: nat): real {
    if slot in imputable then imputable[slot] else 0.0
  }

  /** Every slot is charged what the lines charge to it, once per meal of the slot. */
  ghost predicate Imputes(meals: seq<Meal>, cs: seq<Contribution>, lines: seq<GroceryLine>, imputable: map<nat, real>) {
    forall s: nat :: ImputableTo(imputable, s) == PerMeal(meals, s, SlotCost(lines, cs, s))
  }

  ghost predicate Provisions(setting: Setting, meals: seq<Meal>, prov: Provision) {
    var cs := Contributions(setting.market, meals);
    && LinesFor(setting, cs, prov.lines)
    && prov.costKnown == Subtotals(prov.lines, true)
    && prov.costEstimated == Subtotals(prov.lines, false)
    && Imputes(meals, cs, prov.lines, prov.imputable)
  }

  // ----- The method -----------------------------------------------------------------------------

  /** `after` charges `line` on top of what `before` charges. */
  ghost predicate Adds(line: GroceryLine, meals: seq<Meal>, cs: seq<Contribution>, before: map<nat, real>, after: map<nat, real>) {
    forall s: nat ::
      ImputableTo(after, s) == ImputableTo(before, s) + PerMeal(meals, s, Share(line, SlotTotal(cs, line.key, s)))
  }

  lemma {:induction false} AddsNothing(line: GroceryLine, meals: seq<Meal>, cs: seq<Contribution>, before: map<nat, real>)
    requires line.needed <= 0.0 || line.subtotal <= 0.0
    ensures Adds(line, meals, cs, before, before)
  {
    forall s: nat ensures PerMeal(meals, s, Share(line, SlotTotal(cs, line.key, s))) == 0.0 {
      PerMealAdds(meals, s, 0.0, 0.0);
    }
  }

  lemma {:induction false} ShareOfNothing(line: GroceryLine)
    ensures Share(line, 0.0) == 0.0
  {
  }

  /** Charges one line to the meals by their share of its demand. */
  method Allocate(line: GroceryLine, meals: seq<Meal>, ghost cs: seq<Contribution>, byMeal: map<(LineKey, nat), real>,
                  imputable0: map<nat, real>) returns (imputable: map<nat, real>)
    requires forall s: nat :: (if (line.key, s) in byMeal then byMeal[(line.key, s)] else 0.0) == SlotTotal(cs, line.key, s)
    ensures Adds(line, meals, cs, imputable0, imputable)
  {
    imputable := imputable0;
    if line.needed <= 0.0 || line.subtotal <= 0.0 {
      AddsNothing(line, meals, cs, imputable);
      return;
    }
    for i := 0 to |meals|
      invariant Adds(line, meals[..i], cs, imputable0, imputable)
    {
      var slot := meals[i].slot;
      assert meals[..i + 1][..i] == meals[..i];
      ShareOfNothing(line);
      if (line.key, slot) in byMeal && byMeal[(line.key, slot)] != 0.0 {
        imputable := imputable[slot := ImputableTo(imputable, slot) + Share(line, byMeal[(line.key, slot)])];
      }
    }
    assert meals[..|meals|] == meals;
  }

  /** The state of the line loop: the lines of the keys not in `todo` are made and charged. */
  ghost predicate Charged(setting: Setting, meals: seq<Meal>, cs: seq<Contribution>, todo: set<LineKey>, prov: Provision) {
    && (forall i, j | 0 <= i < j < |prov.lines| :: prov.lines[i].key != prov.lines[j].key)
    && (forall k :: k in KeysOf(cs) && k !in todo ==> exists i | 0 <= i < |prov.lines| :: prov.lines[i].key == k)
    && (forall i | 0 <= i < |prov.lines| :: IsLineFor(setting, cs, prov.lines[i]) && prov.lines[i].key !in todo)
    && prov.costKnown == Subtotals(prov.lines, true)
    && prov.costEstimated == Subtotals(prov.lines, false)
    && Imputes(meals, cs, prov.lines, prov.imputable)
  }

  lemma {:induction false} ImputesStep(meals: seq<Meal>, cs: seq<Contribution>, lines: seq<GroceryLine>, line: GroceryLine,
                    before: map<nat, real>, after: map<nat, real>)
    requires Imputes(meals, cs, lines, before) && Adds(line, meals, cs, before, after)
    ensures Imputes(meals, cs, lines + [line], after)
  {
    assert (lines + [line])[..|lines|] == lines;
    forall s: nat ensures ImputableTo(after, s) == PerMeal(meals, s, SlotCost(lines + [line], cs, s)) {
      PerMealAdds(meals, s, SlotCost(lines, cs, s), Share(line, SlotTotal(cs, line.key, s)));
    }
  }

  lemma {:induction false} ChargeStep(setting: Setting, meals: seq<Meal>, cs: seq<Contribution>, todo: set<LineKey>, prov: Provision,
                   line: GroceryLine, prov': Provision)
    requires Charged(setting, meals, cs, todo, prov)
    requires line.key in todo && IsLineFor(setting, cs, line)
    requires prov'.lines == prov.lines + [line]
    requires prov'.costKnown == prov.costKnown + if line.subtotalKnown then line.subtotal else 0.0
    requires prov'.costEstimated == prov.costEstimated + if line.subtotalKnown then 0.0 else line.subtotal
    requires Imputes(meals, cs, prov'.lines, prov'.imputable)
    ensures Charged(setting, meals, cs, todo - {line.key}, prov')
  {
    assert prov'.lines[..|prov.lines|] == prov.lines;
    forall k | k in KeysOf(cs) && k !in todo - {line.key}
      ensures exists i | 0 <= i < |prov'.lines| :: prov'.lines[i].key == k
    {
      if k == line.key {
        assert prov'.lines[|prov.lines|].key == k;
      } else {
        var i :| 0 <= i < |prov.lines| && prov.lines[i].key == k;
        assert prov'.lines[i].key == k;
      }
    }
  }

  lemma {:induction false} NothingCharged(setting: Setting, meals: seq<Meal>, cs: seq<Contribution>)
    ensures Charged(setting, meals, cs, KeysOf(cs), Provision([], 0.0, 0.0, map[]))
  {
    forall s: nat ensures PerMeal(meals, s, SlotCost([], cs, s)) == 0.0 {
      PerMealAdds(meals, s, 0.0, 0.0);
    }
  }

  method Provide(setting: Setting, meals: seq<Meal>) returns (prov: Provision)
    ensures Provisions(setting, meals, prov)
    ensures forall i | 0 <= i < |prov.lines| :: prov.lines[i].needed == Served(setting.market, meals, prov.lines[i].key)
  {
    prov := Purchase(setting, meals);
    LinesAreServed(setting, meals, prov);
  }

  /** Every line needs what the meals need of it, in the proportion of their servings. */
  lemma {:induction false} LinesAreServed(setting: Setting, meals: seq<Meal>, prov: Provision)
    requires Provisions(setting, meals, prov)
    ensures forall i | 0 <= i < |prov.lines| :: prov.lines[i].needed == Served(setting.market, meals, prov.lines[i].key)
  {
    forall i | 0 <= i < |prov.lines| ensures prov.lines[i].needed == Served(setting.market, meals, prov.lines[i].key) {
      assert IsLineFor(setting, Contributions(setting.market, meals), prov.lines[i]);
      DemandIsServed(setting.market, meals, prov.lines[i].key);
    }
  }

  /** A meal of one ingredient that no product covers: the line needs the recipe's quantity, scaled to the servings. */
  lemma {:induction false} OneIngredientLine(setting: Setting, meal: Meal, ingredient: RecipeIngredient, prov: Provision) returns (i: nat)
    requires Provisions(setting, [meal], prov) && meal.recipe.ingredients == [ingredient]
    requires Match(setting.market.byName, setting.market.groups, ingredient.name, ingredient.substitutionGroup).None?
    ensures i < |prov.lines| && prov.lines[i].key == IngredientLine(ingredient.name)
    ensures prov.lines[i].needed * meal.recipe.servings as real == ingredient.quantity * meal.servings as real
  {
    i := OneIngredientPart(setting, meal, ingredient, prov);
    IsProportional(prov.lines[i].needed, ingredient.quantity, meal);
  }

  lemma {:induction false} OneIngredientPart(setting: Setting, meal: Meal, ingredient: RecipeIngredient, prov: Provision) returns (i: nat)
    requires Provisions(setting, [meal], prov) && meal.recipe.ingredients == [ingredient]
    requires Match(setting.market.byName, setting.market.groups, ingredient.name, ingredient.substitutionGroup).None?
    ensures i < |prov.lines| && prov.lines[i].key == IngredientLine(ingredient.name)
    ensures prov.lines[i].needed == Part(ingredient.quantity, meal)
  {
    OneIngredientKey(setting.market, meal, ingredient);
    i :| 0 <= i < |prov.lines| && prov.lines[i].key == IngredientLine(ingredient.name);
    LinesAreServed(setting, [meal], prov);
    OneIngredientNeeds(setting.market, meal, ingredient);
  }

  lemma {:induction false} IsProportional(needed: real, quantity: real, meal: Meal)
    requires needed == Part(quantity, meal)
    ensures needed * meal.recipe.servings as real == quantity * meal.servings as real
  {
    PartIsProportional(quantity, meal);
  }

  lemma {:induction false} OneIngredientKey(market: Market, meal: Meal, ingredient: RecipeIngredient)
    requires meal.recipe.ingredients == [ingredient]
    requires Match(market.byName, market.groups, ingredient.name, ingredient.substitutionGroup).None?
    ensures IngredientLine(ingredient.name) in KeysOf(Contributions(market, [meal]))
  {
    var cs, c := Contributions(market, [meal]), Contribute(market, meal, ingredient);
    assert MealContributions(market, meal) == [c];
    assert Contributions(market, []) == [] && [meal][..0] == [];
    assert cs == Contributions(market, [meal][..0]) + MealContributions(market, [meal][0]);
    assert c in cs && c.key == IngredientLine(ingredient.name);
  }

  lemma {:induction false} OneIngredientNeeds(market: Market, meal: Meal, ingredient: RecipeIngredient)
    requires meal.recipe.ingredients == [ingredient]
    requires Match(market.byName, market.groups, ingredient.name, ingredient.substitutionGroup).None?
    ensures Served(market, [meal], IngredientLine(ingredient.name)) == Part(ingredient.quantity, meal)
  {
    ServedStep(market, [], meal, IngredientLine(ingredient.name));
    assert [] + [meal] == [meal];
    OwnStep(market, [ingredient], IngredientLine(ingredient.name), 0);
    assert [ingredient][..1] == [ingredient] && [ingredient][..0] == [];
  }

  /** Makes one line and charges it. */
  method PurchaseLine(setting: Setting, meals: seq<Meal>, key: LineKey, meta: Meta, needed: real, byMeal: map<(LineKey, nat), real>,
                      ghost cs: seq<Contribution>, ghost todo: set<LineKey>, prov0: Provision) returns (prov: Provision)
    requires Charged(setting, meals, cs, todo, prov0) && key in todo && key in KeysOf(cs)
    requires FirstMeta(cs, key) == Some(meta) && needed == Total(cs, key)
    requires forall s: nat :: (if (key, s) in byMeal then byMeal[(key, s)] else 0.0) == SlotTotal(cs, key, s)
    ensures Charged(setting, meals, cs, todo - {key}, prov)
  {
    var line := MakeLine(setting, key, meta, needed);
    var imputable := Allocate(line, meals, cs, byMeal, prov0.imputable);
    prov := prov0.(lines := prov0.lines + [line], imputable := imputable);
    if line.subtotalKnown {
      prov := prov.(costKnown := prov0.costKnown + line.subtotal);
    } else {
      prov := prov.(costEstimated := prov0.costEstimated + line.subtotal);
    }
    ImputesStep(meals, cs, prov0.lines, line, prov0.imputable, imputable);
    ChargeStep(setting, meals, cs, todo, prov0, line, prov);
  }

  /** The demand loops and the line loop of `provision`. */
  method Purchase(setting: Setting, meals: seq<Meal>) returns (prov: Provision)
    ensures Provisions(setting, meals, prov)
  {
    ghost var cs := Contributions(setting.market, meals);
    var demand, byMeal, meta := Aggregate(setting.market, meals);
    prov := Provision([], 0.0, 0.0, map[]);
    var todo := demand.Keys;
    NothingCharged(setting, meals, cs);
    while todo != {}
      invariant todo <= demand.Keys
      invariant Charged(setting, meals, cs, todo, prov)
    {
      var key :| key in todo;
      NotYetDemanded(cs, key);
      prov := PurchaseLine(setting, meals, key, meta[key], demand[key], byMeal, cs, todo, prov);
      todo := todo - {key};
    }
  }
}
