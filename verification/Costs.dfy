/**
  Conservation of cost.  What the meals are charged, what the days add up to and what the lines cost is
  one amount, and that amount does not depend on the order in which the lines were made.
 */
module Costs {
  import opened Collections
  import opened Wrappers
  import opened Contracts
  import opened Demand
  import opened Packaging
  import opened Pantry
  import opened Provisioning
  import opened Sums
  import opened Units

  // ----- The cost of a set of meals is one amount -----------------------------------------------

  ghost function LineCost(setting: Setting, cs: seq<Contribution>, key: LineKey): real {
    var meta := FirstMeta(cs, key);
    if meta.None? then 0.0 else LineOf(setting, key, meta.value, Total(cs, key)).subtotal
  }

  ghost function CostOver(setting: Setting, cs: seq<Contribution>, keys: set<LineKey>): real {
    Sum(keys, k => LineCost(setting, cs, k))
  }

  ghost function CostOf(setting: Setting, meals: seq<Meal>): real {
    var cs := Contributions(setting.market, meals);
    CostOver(setting, cs, KeysOf(cs))
  }

  ghost function KeysOfLines(lines: seq<GroceryLine>): set<LineKey> {
    set line | line in lines :: line.key
  }

  /** A value of every line, added up. */
  function SumLines(lines: seq<GroceryLine>, f: GroceryLine -> real): real {
    if lines == [] then 0.0 else SumLines(lines[..|lines| - 1], f) + f(lines[|lines| - 1])
  }

  ghost function LineValue(setting: Setting, cs: seq<Contribution>, f: GroceryLine -> real, key: LineKey): real {
    var meta := FirstMeta(cs, key);
    if meta.None? then 0.0 else f(LineOf(setting, key, meta.value, Total(cs, key)))
  }

  /** The same sum, over the keys that are demanded. */
  ghost function SumOver(setting: Setting, cs: seq<Contribution>, f: GroceryLine -> real, keys: set<LineKey>): real {
    Sum(keys, k => LineValue(setting, cs, f, k))
  }

  lemma {:induction false} SumLinesIsSumOver(setting: Setting, cs: seq<Contribution>, lines: seq<GroceryLine>, f: GroceryLine -> real)
    requires forall i, j | 0 <= i < j < |lines| :: lines[i].key != lines[j].key
    requires forall i | 0 <= i < |lines| :: IsLineFor(setting, cs, lines[i])
    ensures SumLines(lines, f) == SumOver(setting, cs, f, KeysOfLines(lines))
  {
    if lines != [] {
      var rest, last := lines[..|lines| - 1], lines[|lines| - 1];
      SumLinesIsSumOver(setting, cs, rest, f);
      SplitLast(lines);
      assert KeysOfLines(lines) == KeysOfLines(rest) + {last.key};
      SumRemove(KeysOfLines(lines), k => LineValue(setting, cs, f, k), last.key);
      assert KeysOfLines(lines) - {last.key} == KeysOfLines(rest);
      assert LineValue(setting, cs, f, last.key) == f(last);
    }
  }

  /** A sum over the lines does not depend on their order. */
  lemma {:induction false} SumLinesUnique(setting: Setting, cs: seq<Contribution>, lines: seq<GroceryLine>, f: GroceryLine -> real)
    requires LinesFor(setting, cs, lines)
    ensures SumLines(lines, f) == SumOver(setting, cs, f, KeysOf(cs))
  {
    SumLinesIsSumOver(setting, cs, lines, f);
    forall k ensures k in KeysOf(cs) <==> k in KeysOfLines(lines) {
      if k in KeysOf(cs) {
        var i :| 0 <= i < |lines| && lines[i].key == k;
        assert lines[i] in lines;
      }
    }
    assert KeysOf(cs) == KeysOfLines(lines);
  }

  lemma {:induction false} SubtotalsAdd(lines: seq<GroceryLine>, f: GroceryLine -> real)
    requires forall line :: f(line) == line.subtotal
    ensures Subtotals(lines, true) + Subtotals(lines, false) == SumLines(lines, f)
  {
    if lines != [] {
      SubtotalsAdd(lines[..|lines| - 1], f);
    }
  }

  /** Every provision of the same meals costs the same, whatever the order of its lines. */
  lemma {:induction false} CostIsUnique(setting: Setting, meals: seq<Meal>, prov: Provision)
    requires Provisions(setting, meals, prov)
    ensures prov.CostTotal() == CostOf(setting, meals)
  {
    var cs := Contributions(setting.market, meals);
    var f := (line: GroceryLine) => line.subtotal;
    SubtotalsAdd(prov.lines, f);
    SumLinesUnique(setting, cs, prov.lines, f);
    SumSame(KeysOf(cs), k => LineValue(setting, cs, f, k), k => LineCost(setting, cs, k));
  }

  // ----- The demand of a line is the demand of its meals ----------------------------------------

  ghost predicate DistinctSlots(meals: seq<Meal>) {
    forall i, j | 0 <= i < j < |meals| :: meals[i].slot != meals[j].slot
  }

  ghost predicate HasSlot(meals: seq<Meal>, slot: nat) {
    exists i | 0 <= i < |meals| :: meals[i].slot == slot
  }

  lemma {:induction false} HasSlotAppend(meals: seq<Meal>, slot: nat)
    requires meals != []
    ensures HasSlot(meals, slot) <==> HasSlot(meals[..|meals| - 1], slot) || meals[|meals| - 1].slot == slot
  {
    var rest := meals[..|meals| - 1];
    if HasSlot(meals, slot) {
      var i :| 0 <= i < |meals| && meals[i].slot == slot;
      assert i < |rest| ==> rest[i].slot == slot;
    }
    if HasSlot(rest, slot) {
      var i :| 0 <= i < |rest| && rest[i].slot == slot;
      assert meals[i].slot == slot;
    }
  }

  /** A slot that occurs once is charged once. */
  lemma {:induction false} PerMealOnce(meals: seq<Meal>, slot: nat, cost: real)
    requires DistinctSlots(meals)
    ensures PerMeal(meals, slot, cost) == if HasSlot(meals, slot) then cost else 0.0
  {
    if meals != [] {
      PerMealOnce(meals[..|meals| - 1], slot, cost);
      HasSlotAppend(meals, slot);
    }
  }

  /** Quantities of one line that the meals' slots demand, added up. */
  function Demanded(meals: seq<Meal>, cs: seq<Contribution>, key: LineKey): real {
    if meals == [] then 0.0
    else Demanded(meals[..|meals| - 1], cs, key) + SlotTotal(cs, key, meals[|meals| - 1].slot)
  }

  lemma {:induction false} DemandedNothing(meals: seq<Meal>, key: LineKey)
    ensures Demanded(meals, [], key) == 0.0
  {
    if meals != [] {
      DemandedNothing(meals[..|meals| - 1], key);
    }
  }

  lemma {:induction false} DemandedStep(meals: seq<Meal>, cs: seq<Contribution>, c: Contribution, key: LineKey)
    requires DistinctSlots(meals)
    ensures Demanded(meals, cs + [c], key) ==
      Demanded(meals, cs, key) + if c.key == key && HasSlot(meals, c.slot) then c.quantity else 0.0
  {
    if meals != [] {
      DemandedStep(meals[..|meals| - 1], cs, c, key);
      HasSlotAppend(meals, c.slot);
      AppendTotals(cs, c, key, meals[|meals| - 1].slot);
    }
  }

  /** `demand_by_meal`, added over the meals, is `demand`. */
  lemma {:induction false} MealsDemandTotal(meals: seq<Meal>, cs: seq<Contribution>, key: LineKey)
    requires DistinctSlots(meals)
    requires forall c | c in cs :: HasSlot(meals, c.slot)
    ensures Demanded(meals, cs, key) == Total(cs, key)
  {
    if cs == [] {
      DemandedNothing(meals, key);
    } else {
      var rest, last := cs[..|cs| - 1], cs[|cs| - 1];
      assert cs == rest + [last];
      MealsDemandTotal(meals, rest, key);
      DemandedStep(meals, rest, last, key);
    }
  }

  lemma {:induction false} ContributionsHaveSlots(market: Market, meals: seq<Meal>)
    ensures forall c | c in Contributions(market, meals) :: HasSlot(meals, c.slot)
  {
    if meals != [] {
      ContributionsHaveSlots(market, meals[..|meals| - 1]);
      forall c | c in Contributions(market, meals) ensures HasSlot(meals, c.slot) {
        HasSlotAppend(meals, c.slot);
      }
    }
  }

  // ----- Conservation ---------------------------------------------------------------------------

  lemma {:induction false} ShareAdds(line: GroceryLine, a: real, b: real)
    ensures Share(line, a + b) == Share(line, a) + Share(line, b)
  {
    if line.needed > 0.0 && line.subtotal > 0.0 {
      var p := line.subtotal;
      assert p * (a + b) == p * a + p * b;
    }
  }

  lemma {:induction false} ShareOfAll(line: GroceryLine)
    ensures Share(line, line.needed) == Billed(line)
  {
  }

  /** The subtotal of a line that is divided among the meals. */
  function Billed(line: GroceryLine): real {
    if line.needed > 0.0 && line.subtotal > 0.0 then line.subtotal else 0.0
  }

  function BilledAll(lines: seq<GroceryLine>): real {
    if lines == [] then 0.0 else BilledAll(lines[..|lines| - 1]) + Billed(lines[|lines| - 1])
  }

  function Shares(meals: seq<Meal>, cs: seq<Contribution>, line: GroceryLine): real {
    if meals == [] then 0.0
    else Shares(meals[..|meals| - 1], cs, line) + Share(line, SlotTotal(cs, line.key, meals[|meals| - 1].slot))
  }

  lemma {:induction false} SharesAreShareOfDemand(meals: seq<Meal>, cs: seq<Contribution>, line: GroceryLine)
    ensures Shares(meals, cs, line) == Share(line, Demanded(meals, cs, line.key))
  {
    if meals == [] {
      ShareOfNothing(line);
    } else {
      SharesAreShareOfDemand(meals[..|meals| - 1], cs, line);
      ShareAdds(line, Demanded(meals[..|meals| - 1], cs, line.key), SlotTotal(cs, line.key, meals[|meals| - 1].slot));
    }
  }

  /** What the lines charge to the slots of the meals. */
  function Charges(meals: seq<Meal>, cs: seq<Contribution>, lines: seq<GroceryLine>): real {
    if meals == [] then 0.0
    else Charges(meals[..|meals| - 1], cs, lines) + SlotCost(lines, cs, meals[|meals| - 1].slot)
  }

  lemma {:induction false} ChargesStep(meals: seq<Meal>, cs: seq<Contribution>, lines: seq<GroceryLine>)
    requires lines != []
    ensures Charges(meals, cs, lines) == Charges(meals, cs, lines[..|lines| - 1]) + Shares(meals, cs, lines[|lines| - 1])
  {
    if meals != [] {
      ChargesStep(meals[..|meals| - 1], cs, lines);
    }
  }

  lemma {:induction false} ChargesNothing(meals: seq<Meal>, cs: seq<Contribution>)
    ensures Charges(meals, cs, []) == 0.0
  {
    if meals != [] {
      ChargesNothing(meals[..|meals| - 1], cs);
    }
  }

  lemma {:induction false} ChargesAreBilled(meals: seq<Meal>, cs: seq<Contribution>, lines: seq<GroceryLine>)
    requires forall i | 0 <= i < |lines| :: lines[i].needed == Demanded(meals, cs, lines[i].key)
    ensures Charges(meals, cs, lines) == BilledAll(lines)
  {
    if lines == [] {
      ChargesNothing(meals, cs);
    } else {
      var last := lines[|lines| - 1];
      ChargesAreBilled(meals, cs, lines[..|lines| - 1]);
      ChargesStep(meals, cs, lines);
      SharesAreShareOfDemand(meals, cs, last);
      ShareOfAll(last);
    }
  }

  /** The imputable costs of the meals, added up. */
  function Imputed(meals: seq<Meal>, imputable: map<nat, real>): real {
    if meals == [] then 0.0
    else Imputed(meals[..|meals| - 1], imputable) + ImputableTo(imputable, meals[|meals| - 1].slot)
  }

  lemma {:induction false} ImputedIsCharged(meals: seq<Meal>, n: nat, cs: seq<Contribution>, prov: Provision)
    requires n <= |meals| && DistinctSlots(meals) && Imputes(meals, cs, prov.lines, prov.imputable)
    ensures Imputed(meals[..n], prov.imputable) == Charges(meals[..n], cs, prov.lines)
  {
    if n > 0 {
      assert meals[..n][..n - 1] == meals[..n - 1];
      ImputedIsCharged(meals, n - 1, cs, prov);
      var slot := meals[n - 1].slot;
      PerMealOnce(meals, slot, SlotCost(prov.lines, cs, slot));
      assert HasSlot(meals, slot);
    }
  }

  /** With distinct slots, the meals bear exactly the lines that are needed and cost something. */
  lemma {:induction false} ImputedIsBilled(setting: Setting, meals: seq<Meal>, prov: Provision)
    requires Provisions(setting, meals, prov) && DistinctSlots(meals)
    ensures Imputed(meals, prov.imputable) == BilledAll(prov.lines)
  {
    var cs := Contributions(setting.market, meals);
    ImputedIsCharged(meals, |meals|, cs, prov);
    assert meals[..|meals|] == meals;
    ContributionsHaveSlots(setting.market, meals);
    forall i | 0 <= i < |prov.lines| ensures prov.lines[i].needed == Demanded(meals, cs, prov.lines[i].key) {
      assert IsLineFor(setting, cs, prov.lines[i]);
      MealsDemandTotal(meals, cs, prov.lines[i].key);
    }
    ChargesAreBilled(meals, cs, prov.lines);
  }

  // ----- When every line is billed --------------------------------------------------------------

  ghost predicate NonNegativePrices(product: Product) {
    forall o | o in product.packages :: o.amount >= 0.0
  }

  /** No product of the market has a negative price, and neither pantry nor factors are negative. */
  ghost predicate NonNegative(setting: Setting) {
    && (forall name | name in setting.market.byName :: NonNegativePrices(setting.market.byName[name]))
    && NonNegativeStock(setting.stock)
    && (forall i | 0 <= i < |setting.market.factors| :: setting.market.factors[i].factor >= 0.0)
  }

  lemma {:induction false} FirstAvailableInMarket(market: Market, names: seq<string>)
    ensures var r := Matching.FirstAvailable(market.byName, names);
      r.Some? ==> exists name | name in market.byName :: market.byName[name] == r.value
  {
    if names != [] && names[0] !in market.byName {
      FirstAvailableInMarket(market, names[1..]);
    }
  }

  lemma {:induction false} ContributeFromMarket(market: Market, meal: Meal, ingredient: RecipeIngredient)
    ensures var c := Contribute(market, meal, ingredient);
      c.meta.product.Some? ==> exists name | name in market.byName :: market.byName[name] == c.meta.product.value
  {
    if ingredient.substitutionGroup.Some? && ingredient.substitutionGroup.value in market.groups {
      FirstAvailableInMarket(market, market.groups[ingredient.substitutionGroup.value]);
    }
  }

  /** Every product bought comes from the market. */
  lemma {:induction false} ProductsFromMarket(market: Market, meals: seq<Meal>)
    ensures forall c | c in Contributions(market, meals) :: c.meta.product.Some? ==>
      exists name | name in market.byName :: market.byName[name] == c.meta.product.value
  {
    if meals != [] {
      var rest, last := meals[..|meals| - 1], meals[|meals| - 1];
      ProductsFromMarket(market, rest);
      forall i | 0 <= i < |last.recipe.ingredients|
        ensures MealContributions(market, last)[i].meta.product.Some? ==>
          exists name | name in market.byName :: market.byName[name] == MealContributions(market, last)[i].meta.product.value
      {
        ContributeFromMarket(market, last, last.recipe.ingredients[i]);
      }
    }
  }

  lemma {:induction false} FirstMetaIn(cs: seq<Contribution>, key: LineKey)
    ensures FirstMeta(cs, key).Some? ==> exists c | c in cs :: c.key == key && c.meta == FirstMeta(cs, key).value
  {
    if cs != [] {
      FirstMetaIn(cs[..|cs| - 1], key);
      assert cs[|cs| - 1] in cs;
      assert forall c | c in cs[..|cs| - 1] :: c in cs;
    }
  }

  lemma {:induction false} SubtotalNonNegative(packages: nat, price: real)
    requires price >= 0.0
    ensures packages as real * price >= 0.0
    ensures packages == 0 ==> packages as real * price == 0.0
  {
  }

  /** A line never has a negative subtotal, and one that costs something is needed. */
  lemma {:induction false} LineIsBilled(setting: Setting, key: LineKey, meta: Meta, needed: real)
    requires NonNegativeStock(setting.stock)
    requires forall i | 0 <= i < |setting.market.factors| :: setting.market.factors[i].factor >= 0.0
    requires meta.product.Some? ==> NonNegativePrices(meta.product.value)
    ensures var line := LineOf(setting, key, meta, needed); line.subtotal >= 0.0 && Billed(line) == line.subtotal
  {
    if meta.product.Some? && meta.product.value.packages != [] {
      AvailableNonNegative(ItemsOf(setting.stock, meta.name), setting.market.factors, meta.name, meta.unit);
      var available := AvailableOf(setting.stock, setting.market.factors, meta.name, meta.unit);
      var (used, pending) := Pending(available, needed);
      BestIsLeast(pending, meta.product.value.packages, setting.terms);
      var best := Best(pending, meta.product.value.packages, setting.terms);
      if best.Some? {
        SubtotalNonNegative(CeilDiv(pending, best.value.quantity), best.value.amount);
      }
    }
  }

  lemma {:induction false} AllBilled(lines: seq<GroceryLine>)
    requires forall i | 0 <= i < |lines| :: Billed(lines[i]) == lines[i].subtotal
    ensures BilledAll(lines) == Subtotals(lines, true) + Subtotals(lines, false)
  {
    if lines != [] {
      AllBilled(lines[..|lines| - 1]);
    }
  }

  lemma {:induction false} MarketMeta(setting: Setting, cs: seq<Contribution>, meals: seq<Meal>, key: LineKey)
    requires NonNegative(setting) && cs == Contributions(setting.market, meals)
    requires FirstMeta(cs, key).Some?
    ensures FirstMeta(cs, key).value.product.Some? ==> NonNegativePrices(FirstMeta(cs, key).value.product.value)
  {
    ProductsFromMarket(setting.market, meals);
    FirstMetaIn(cs, key);
  }

  /** The whole cost is imputed to the meals. */
  lemma {:induction false} CostConserved(setting: Setting, meals: seq<Meal>, prov: Provision)
    requires Provisions(setting, meals, prov) && DistinctSlots(meals) && NonNegative(setting)
    ensures Imputed(meals, prov.imputable) == prov.CostTotal() == CostOf(setting, meals)
    ensures forall i | 0 <= i < |prov.lines| :: prov.lines[i].subtotal >= 0.0
  {
    var cs := Contributions(setting.market, meals);
    ImputedIsBilled(setting, meals, prov);
    CostIsUnique(setting, meals, prov);
    forall i | 0 <= i < |prov.lines|
      ensures Billed(prov.lines[i]) == prov.lines[i].subtotal && prov.lines[i].subtotal >= 0.0
    {
      var key := prov.lines[i].key;
      assert IsLineFor(setting, cs, prov.lines[i]);
      MarketMeta(setting, cs, meals, key);
      LineIsBilled(setting, key, FirstMeta(cs, key).value, Total(cs, key));
    }
    AllBilled(prov.lines);
  }
}
