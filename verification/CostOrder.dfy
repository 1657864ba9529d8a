/**
  How the cost reacts to the meals: their order does not matter, and with one format per product
  another meal never lowers it.  With two formats it can.
 */
module CostOrder {
  import opened Collections
  import opened Wrappers
  import opened Contracts
  import opened Costs
  import opened Demand
  import opened Matching
  import opened Packaging
  import opened Pantry
  import opened Provisioning
  import opened Servings
  import opened Sums
  import opened Units

  // ----- Adding a meal --------------------------------------------------------------------------

  /** Each product comes in at most one format. */
  ghost predicate OneFormat(market: Market) {
    forall name | name in market.byName :: |market.byName[name].packages| <= 1
  }

  /** The meals need no negative quantity. */
  ghost predicate NonNegativeMeals(meals: seq<Meal>) {
    forall meal, ingredient | meal in meals && ingredient in meal.recipe.ingredients :: ingredient.quantity >= 0.0
  }

  lemma {:induction false} ScaleNonNegative(quantity: real, servings: nat, per: Positive)
    requires quantity >= 0.0
    ensures quantity * (servings as real / per as real) >= 0.0
  {
    var scale := servings as real / per as real;
    assert scale >= 0.0;
  }

  lemma {:induction false} ContributesNonNegative(market: Market, meal: Meal, ingredient: RecipeIngredient)
    requires ingredient.quantity >= 0.0
    requires forall i | 0 <= i < |market.factors| :: market.factors[i].factor >= 0.0
    ensures Contribute(market, meal, ingredient).quantity >= 0.0
  {
    ScaleNonNegative(ingredient.quantity, meal.servings, meal.recipe.servings);
    var raw := RawQuantity(meal, ingredient);
    var product := Match(market.byName, market.groups, ingredient.name, ingredient.substitutionGroup);
    if product.Some? {
      ConvertNonNegative(market.factors, raw, ingredient.unit, TargetUnit(product.value, ingredient.unit), Some(ingredient.name));
    }
  }

  lemma {:induction false} TotalsGrow(cs: seq<Contribution>, more: seq<Contribution>, key: LineKey)
    requires forall c | c in more :: c.quantity >= 0.0
    ensures Total(cs + more, key) >= Total(cs, key)
    ensures FirstMeta(cs, key).Some? ==> FirstMeta(cs + more, key) == FirstMeta(cs, key)
    ensures KeysOf(cs) <= KeysOf(cs + more)
  {
    if more == [] {
      assert cs + more == cs;
    } else {
      var rest, last := more[..|more| - 1], more[|more| - 1];
      TotalsGrow(cs, rest, key);
      assert cs + more == cs + rest + [last];
      AppendTotals(cs + rest, last, key, 0);
    }
  }

  lemma {:induction false} ScalePackages(m: nat, n: nat, price: real)
    requires m <= n && price >= 0.0
    ensures m as real * price <= n as real * price
  {
  }

  /** What is left to buy of a line. */
  function ToBuy(setting: Setting, meta: Meta, needed: real): real {
    Pending(AvailableOf(setting.stock, setting.market.factors, meta.name, meta.unit), needed).1
  }

  function PriceOf(pending: real, option: PackageOption): real {
    if Usable(option) then CeilDiv(pending, option.quantity) as real * option.amount else 0.0
  }

  lemma {:induction false} BestOfOne(pending: real, option: PackageOption, terms: Terms)
    ensures Best(pending, [option], terms) == if Usable(option) then Some(option) else None
  {
    assert [option][..0] == [];
    assert Best(pending, [], terms) == None;
  }

  /** What a line costs, given the format that is chosen. */
  lemma {:induction false} LineCosts(setting: Setting, key: LineKey, meta: Meta, needed: real, option: PackageOption)
    requires meta.product.Some? && option in meta.product.value.packages
    requires var best := Best(ToBuy(setting, meta, needed), meta.product.value.packages, setting.terms);
      best == Some(option) || (best == None && !Usable(option))
    ensures LineOf(setting, key, meta, needed).subtotal == PriceOf(ToBuy(setting, meta, needed), option)
  {
  }

  lemma {:induction false} PriceMonotone(a: real, b: real, option: PackageOption)
    requires a <= b && option.amount >= 0.0
    ensures PriceOf(a, option) <= PriceOf(b, option)
  {
    if Usable(option) {
      CeilDivMonotone(a, b, option.quantity);
      ScalePackages(CeilDiv(a, option.quantity), CeilDiv(b, option.quantity), option.amount);
    }
  }

  lemma {:induction false} OneFormatCost(setting: Setting, key: LineKey, meta: Meta, needed: real, product: Product, option: PackageOption)
    requires meta.product == Some(product) && product.packages == [option]
    ensures LineOf(setting, key, meta, needed).subtotal == PriceOf(ToBuy(setting, meta, needed), option)
  {
    BestOfOne(ToBuy(setting, meta, needed), option, setting.terms);
    LineCosts(setting, key, meta, needed, option);
  }

  lemma {:induction false} ToBuyMonotone(setting: Setting, meta: Meta, needed: real, more: real)
    requires needed <= more
    ensures ToBuy(setting, meta, needed) <= ToBuy(setting, meta, more)
  {
  }

  /** Needing more of a product with one format never costs less. */
  lemma {:induction false} LineMonotone(setting: Setting, key: LineKey, meta: Meta, needed: real, more: real)
    requires needed <= more
    requires meta.product.Some? ==> |meta.product.value.packages| <= 1 && NonNegativePrices(meta.product.value)
    ensures LineOf(setting, key, meta, needed).subtotal <= LineOf(setting, key, meta, more).subtotal
  {
    if meta.product.Some? && meta.product.value.packages != [] {
      var product := meta.product.value;
      var option := product.packages[0];
      var cost, cost' := LineOf(setting, key, meta, needed).subtotal, LineOf(setting, key, meta, more).subtotal;
      assert cost <= cost' by {
        OneFormatCost(setting, key, meta, needed, product, option);
        OneFormatCost(setting, key, meta, more, product, option);
        ToBuyMonotone(setting, meta, needed, more);
        PriceMonotone(ToBuy(setting, meta, needed), ToBuy(setting, meta, more), option);
      }
    }
  }

  lemma {:induction false} MetaFromMarket(market: Market, meals: seq<Meal>, key: LineKey)
    ensures var meta := FirstMeta(Contributions(market, meals), key);
      meta.Some? && meta.value.product.Some? ==>
        exists name | name in market.byName :: market.byName[name] == meta.value.product.value
  {
    ProductsFromMarket(market, meals);
    FirstMetaIn(Contributions(market, meals), key);
  }

  // ----- Choosing by cost alone -----------------------------------------------------------------

  /** What the chosen format costs for the pending quantity, nothing if there is none. */
  function BestCost(pending: real, options: seq<PackageOption>, terms: Terms): real {
    var best := Best(pending, options, terms);
    if best.Some? then PriceOf(pending, best.value) else 0.0
  }

  /** All usable formats are alike in stock and have known prices, or all have not, and no price is negative. */
  ghost predicate Alike(options: seq<PackageOption>, terms: Terms) {
    && (forall o | o in options && Usable(o) :: o.amount >= 0.0)
    && (forall o, p | o in options && Usable(o) && p in options && Usable(p) ::
          && (o.availability == OutOfStock <==> p.availability == OutOfStock)
          && (o.hasPrice && !IsExpired(o, terms.asOf) <==> p.hasPrice && !IsExpired(p, terms.asOf)))
  }

  /** Needing more never costs less, whatever formats a product has, as long as they are alike. */
  ghost predicate NeverCheaper(terms: Terms) {
    forall options, a: real, b: real :: Alike(options, terms) && 0.0 <= a <= b ==> BestCost(a, options, terms) <= BestCost(b, options, terms)
  }

  /** Where cost has a positive weight, that is so exactly when waste has none. */
  lemma {:induction false} NeverCheaperExactly(terms: Terms)
    requires terms.wCost > 0.0
    ensures NeverCheaper(terms) <==> terms.wWaste == 0.0
  {
    if terms.wWaste == 0.0 {
      forall options, a: real, b: real | Alike(options, terms) && 0.0 <= a <= b
        ensures BestCost(a, options, terms) <= BestCost(b, options, terms)
      {
        CheapestGrows(options, terms, a, b);
      }
    } else {
      WasteCheapens(terms);
    }
  }

  /** Without a waste weight, no usable format is cheaper than the chosen one. */
  lemma {:induction false} ChosenIsCheapest(options: seq<PackageOption>, terms: Terms, pending: real, other: PackageOption)
    requires terms.wCost > 0.0 && terms.wWaste == 0.0 && Alike(options, terms) && pending >= 0.0
    requires other in options && Usable(other)
    ensures BestCost(pending, options, terms) <= PriceOf(pending, other)
  {
    BestIsLeast(pending, options, terms);
    var best := Best(pending, options, terms).value;
    AlikeByScore(options, terms, pending, best, other);
    CheaperByScore(terms, pending, best, other);
  }

  /** Formats that are alike are compared by their scores first. */
  lemma {:induction false} AlikeByScore(options: seq<PackageOption>, terms: Terms, pending: real, best: PackageOption, other: PackageOption)
    requires Alike(options, terms) && IsBest(pending, options, terms, best) && other in options && Usable(other)
    ensures KeyOf(pending, best, terms).score <= KeyOf(pending, other, terms).score
  {
    assert !KeyLess(KeyOf(pending, other, terms), KeyOf(pending, best, terms));
  }

  lemma {:induction false} CheaperByScore(terms: Terms, pending: real, a: PackageOption, b: PackageOption)
    requires terms.wCost > 0.0 && terms.wWaste == 0.0 && pending >= 0.0 && Usable(a) && Usable(b)
    requires KeyOf(pending, a, terms).score <= KeyOf(pending, b, terms).score
    ensures PriceOf(pending, a) <= PriceOf(pending, b)
  {
    ScoreIsCost(pending, a, terms);
    ScoreIsCost(pending, b, terms);
    CancelCost(terms.wCost, PriceOf(pending, a), PriceOf(pending, b));
  }

  lemma {:induction false} ScoreIsCost(pending: real, option: PackageOption, terms: Terms)
    requires Usable(option) && terms.wWaste == 0.0 && pending >= 0.0
    ensures KeyOf(pending, option, terms).score == terms.wCost * PriceOf(pending, option)
  {
    var c := ChoiceOf(pending, option, terms);
    NoWeight(terms.wWaste, c.result.leftover);
    assert c.result.totalCost == PriceOf(pending, option);
  }

  lemma {:induction false} NoWeight(weight: real, x: real)
    requires weight == 0.0
    ensures weight * x == 0.0
  {
  }

  lemma {:induction false} CancelCost(weight: real, x: real, y: real)
    requires weight > 0.0 && weight * x <= weight * y
    ensures x <= y
  {
    if y < x {
      ScaleLess(y, x, weight);
    }
  }

  lemma {:induction false} CheapestGrows(options: seq<PackageOption>, terms: Terms, a: real, b: real)
    requires terms.wCost > 0.0 && terms.wWaste == 0.0 && Alike(options, terms) && 0.0 <= a <= b
    ensures BestCost(a, options, terms) <= BestCost(b, options, terms)
  {
    BestIsLeast(a, options, terms);
    BestIsLeast(b, options, terms);
    var best := Best(b, options, terms);
    if best.Some? {
      ChosenIsCheapest(options, terms, a, best.value);
      PriceMonotone(a, b, best.value);
    }
  }

  /** A format of one gram and one of ten. */
  function TwoSizes(small: real, large: real): seq<PackageOption> {
    [PackageOption(0, 1.0, "g", small, InStock, None, true), PackageOption(0, 10.0, "g", large, InStock, None, true)]
  }

  /**
    With a waste weight, one gram is bought in the format that suits the waste, ten grams in the one that costs
    nothing.
   */
  lemma {:induction false} WasteCheapens(terms: Terms)
    requires terms.wCost > 0.0 && terms.wWaste != 0.0
    ensures !NeverCheaper(terms)
  {
    var weight := if terms.wWaste > 0.0 then terms.wWaste else -terms.wWaste;
    var d := weight / terms.wCost;
    DivideCancel(weight, terms.wCost);
    if terms.wWaste > 0.0 {
      TwoSizesAlike(d, 0.0, terms);
      SmallThenFree(terms, d);
    } else {
      TwoSizesAlike(0.0, d, terms);
      LargeThenFree(terms, d);
    }
  }

  lemma {:induction false} SmallThenFree(terms: Terms, d: real)
    requires terms.wCost > 0.0 && terms.wWaste > 0.0 && d * terms.wCost == terms.wWaste
    ensures d > 0.0 && BestCost(1.0, TwoSizes(d, 0.0), terms) == d && BestCost(10.0, TwoSizes(d, 0.0), terms) == 0.0
  {
    ScoresOfTwo(d, 0.0, terms, terms.wWaste, 0.0);
    CostOfTwo(1.0, d, 0.0, terms);
    CostOfTwo(10.0, d, 0.0, terms);
    PricesOfTwo(d, 0.0);
  }

  lemma {:induction false} LargeThenFree(terms: Terms, d: real)
    requires terms.wCost > 0.0 && terms.wWaste < 0.0 && d * terms.wCost == -terms.wWaste
    ensures d > 0.0 && BestCost(1.0, TwoSizes(0.0, d), terms) == d && BestCost(10.0, TwoSizes(0.0, d), terms) == 0.0
  {
    ScoresOfTwo(0.0, d, terms, 0.0, -terms.wWaste);
    CostOfTwo(1.0, 0.0, d, terms);
    CostOfTwo(10.0, 0.0, d, terms);
    PricesOfTwo(0.0, d);
  }

  lemma {:induction false} TwoSizesAlike(small: real, large: real, terms: Terms)
    requires small >= 0.0 && large >= 0.0
    ensures Alike(TwoSizes(small, large), terms)
  {
  }

  lemma {:induction false} PricesOfTwo(small: real, large: real)
    ensures var s, l := TwoSizes(small, large)[0], TwoSizes(small, large)[1];
      PriceOf(1.0, s) == small && PriceOf(1.0, l) == large && PriceOf(10.0, s) == 10.0 * small && PriceOf(10.0, l) == large
  {
    CountsOfTwo();
  }

  /** The larger size is bought when its score is smaller. */
  lemma {:induction false} CostOfTwo(pending: real, small: real, large: real, terms: Terms)
    ensures var s, l := TwoSizes(small, large)[0], TwoSizes(small, large)[1];
      BestCost(pending, TwoSizes(small, large), terms) ==
        if KeyOf(pending, l, terms).score < KeyOf(pending, s, terms).score then PriceOf(pending, l) else PriceOf(pending, s)
  {
    BestOfTwo(pending, TwoSizes(small, large)[0], TwoSizes(small, large)[1], terms);
  }

  lemma {:induction false} BestOfTwo(pending: real, s: PackageOption, l: PackageOption, terms: Terms)
    requires Usable(s) && Usable(l)
    ensures Best(pending, [s, l], terms) == Some(if KeyLess(KeyOf(pending, l, terms), KeyOf(pending, s, terms)) then l else s)
  {
    BestOfOne(pending, s, terms);
    assert [s, l][..1] == [s];
  }

  /** The scores of the two sizes for one gram and for ten, from their weighted prices. */
  lemma {:induction false} ScoresOfTwo(small: real, large: real, terms: Terms, weighted: real, weighted': real)
    requires terms.wCost * small == weighted && terms.wCost * large == weighted'
    ensures var s, l := TwoSizes(small, large)[0], TwoSizes(small, large)[1];
      && KeyOf(1.0, s, terms).score == weighted
      && KeyOf(1.0, l, terms).score == 9.0 * terms.wWaste + weighted'
      && KeyOf(10.0, s, terms).score == 10.0 * weighted
      && KeyOf(10.0, l, terms).score == weighted'
  {
    CountsOfTwo();
    assert terms.wCost * (10.0 * small) == 10.0 * weighted;
  }

  lemma {:induction false} CountsOfTwo()
    ensures CeilDiv(1.0, 1.0) == 1 && CeilDiv(1.0, 10.0) == 1 && CeilDiv(10.0, 1.0) == 10 && CeilDiv(10.0, 10.0) == 1
  {
    CeilDivLeast(1.0, 1.0);
    CeilDivLeast(1.0, 10.0);
    CeilDivLeast(10.0, 1.0);
    CeilDivLeast(10.0, 10.0);
    assert Covers(1, 1.0, 1.0) && Covers(1, 10.0, 1.0) && Covers(10, 1.0, 10.0) && Covers(1, 10.0, 10.0);
  }

  /** Each product comes in at most one format, or its formats are alike and only their cost counts. */
  ghost predicate Steady(setting: Setting) {
    forall name | name in setting.market.byName :: SteadyProduct(setting.market.byName[name], setting.terms)
  }

  ghost predicate SteadyProduct(product: Product, terms: Terms) {
    |product.packages| <= 1 || (terms.wCost > 0.0 && terms.wWaste == 0.0 && Alike(product.packages, terms))
  }

  lemma {:induction false} LineIsBestCost(setting: Setting, key: LineKey, meta: Meta, needed: real)
    requires meta.product.Some? && meta.product.value.packages != []
    ensures LineOf(setting, key, meta, needed).subtotal ==
      BestCost(ToBuy(setting, meta, needed), meta.product.value.packages, setting.terms)
  {
    BestIsLeast(ToBuy(setting, meta, needed), meta.product.value.packages, setting.terms);
  }

  lemma {:induction false} SteadyLine(setting: Setting, key: LineKey, meta: Meta, needed: real, more: real)
    requires needed <= more
    requires meta.product.Some? ==> SteadyProduct(meta.product.value, setting.terms) && NonNegativePrices(meta.product.value)
    ensures LineOf(setting, key, meta, needed).subtotal <= LineOf(setting, key, meta, more).subtotal
  {
    if meta.product.Some? && |meta.product.value.packages| > 1 {
      LineIsBestCost(setting, key, meta, needed);
      LineIsBestCost(setting, key, meta, more);
      ToBuyMonotone(setting, meta, needed, more);
      CheapestGrows(meta.product.value.packages, setting.terms, ToBuy(setting, meta, needed), ToBuy(setting, meta, more));
    } else {
      LineMonotone(setting, key, meta, needed, more);
    }
  }

  /** With one format per product, another meal never lowers the cost. */
  lemma {:induction false} AddingNeverCheapens(setting: Setting, meals: seq<Meal>, meal: Meal)
    requires NonNegative(setting) && OneFormat(setting.market) && NonNegativeMeals([meal])
    ensures CostOf(setting, meals) <= CostOf(setting, meals + [meal])
  {
    SteadyNeverCheapens(setting, meals, meal);
  }

  /** Nor with any number of alike formats when they are chosen by their cost alone. */
  lemma {:induction false} SteadyNeverCheapens(setting: Setting, meals: seq<Meal>, meal: Meal)
    requires NonNegative(setting) && Steady(setting) && NonNegativeMeals([meal])
    ensures CostOf(setting, meals) <= CostOf(setting, meals + [meal])
  {
    var cs, more := Contributions(setting.market, meals), MealContributions(setting.market, meal);
    var cs' := Contributions(setting.market, meals + [meal]);
    assert (meals + [meal])[..|meals|] == meals;
    assert cs' == cs + more;
    forall i | 0 <= i < |more| ensures more[i].quantity >= 0.0 {
      assert meal in [meal] && meal.recipe.ingredients[i] in meal.recipe.ingredients;
      ContributesNonNegative(setting.market, meal, meal.recipe.ingredients[i]);
    }
    forall key
      ensures key in KeysOf(cs) ==> key in KeysOf(cs') && LineCost(setting, cs, key) <= LineCost(setting, cs', key)
      ensures key in KeysOf(cs') ==> 0.0 <= LineCost(setting, cs', key)
    {
      TotalsGrow(cs, more, key);
      NotYetDemanded(cs, key);
      NotYetDemanded(cs', key);
      MetaFromMarket(setting.market, meals + [meal], key);
      var meta := FirstMeta(cs', key);
      if meta.Some? {
        LineIsBilled(setting, key, meta.value, Total(cs', key));
      }
      if key in KeysOf(cs) {
        SteadyLine(setting, key, meta.value, Total(cs, key), Total(cs', key));
      }
    }
    SumAtMost(KeysOf(cs), KeysOf(cs'), k => LineCost(setting, cs, k), k => LineCost(setting, cs', k));
  }

  // ----- The order of the meals -----------------------------------------------------------------

  /** What one meal adds to a line. */
  function MealTotal(market: Market, meal: Meal, key: LineKey): real {
    Total(MealContributions(market, meal), key)
  }

  lemma {:induction false} ContributionsAppend(market: Market, meals: seq<Meal>, meal: Meal)
    ensures Contributions(market, meals + [meal]) == Contributions(market, meals) + MealContributions(market, meal)
  {
    assert (meals + [meal])[..|meals|] == meals;
  }

  lemma {:induction false} ConcatOne(market: Market, meals: seq<Meal>, rest: seq<Meal>, last: Meal)
    requires Contributions(market, meals + rest) == Contributions(market, meals) + Contributions(market, rest)
    ensures Contributions(market, meals + (rest + [last])) == Contributions(market, meals) + Contributions(market, rest + [last])
  {
    ContributionsAppend(market, meals + rest, last);
    ContributionsAppend(market, rest, last);
    ConcatAssociates(meals, rest, [last]);
    ConcatAssociates(Contributions(market, meals), Contributions(market, rest), MealContributions(market, last));
  }

  lemma {:induction false} ContributionsConcat(market: Market, meals: seq<Meal>, more: seq<Meal>)
    ensures Contributions(market, meals + more) == Contributions(market, meals) + Contributions(market, more)
  {
    if more == [] {
      ConcatNothing(meals);
      ConcatNothing(Contributions(market, meals));
    } else {
      ContributionsConcat(market, meals, more[..|more| - 1]);
      ConcatOne(market, meals, more[..|more| - 1], more[|more| - 1]);
      SplitLast(more);
    }
  }

  lemma {:induction false} ContributionsOfOne(market: Market, meal: Meal)
    ensures Contributions(market, [meal]) == MealContributions(market, meal)
  {
    assert [meal][..0] == [];
  }

  /** A meal can be taken out of anywhere. */
  lemma {:induction false} TotalWithout(market: Market, meals: seq<Meal>, i: nat, key: LineKey)
    requires i < |meals|
    ensures Total(Contributions(market, meals), key) ==
      Total(Contributions(market, RemoveAt(meals, i)), key) + MealTotal(market, meals[i], key)
  {
    var before, after := meals[..i], meals[i + 1..];
    assert meals == before + [meals[i]] + after;
    ContributionsConcat(market, before + [meals[i]], after);
    ContributionsConcat(market, before, [meals[i]]);
    ContributionsConcat(market, before, after);
    ContributionsOfOne(market, meals[i]);
    var a, m, b := Contributions(market, before), MealContributions(market, meals[i]), Contributions(market, after);
    TotalAppends(a + m, b, key);
    TotalAppends(a, m, key);
    TotalAppends(a, b, key);
  }

  lemma {:induction false} TotalOrderFree(market: Market, meals: seq<Meal>, meals': seq<Meal>, key: LineKey)
    requires multiset(meals) == multiset(meals')
    ensures Total(Contributions(market, meals), key) == Total(Contributions(market, meals'), key)
    decreases |meals|
  {
    if meals == [] {
      SamePermutationMembers(meals, meals');
    } else {
      var i := TakeOutFirst(meals, meals');
      TotalOrderFree(market, RemoveAt(meals, 0), RemoveAt(meals', i), key);
      TotalWithout(market, meals, 0, key);
      TotalWithout(market, meals', i, key);
    }
  }

  /** The contributions are those of the meals. */
  lemma {:induction false} ContributionsFrom(market: Market, meals: seq<Meal>, c: Contribution)
    ensures c in Contributions(market, meals) <==> exists meal | meal in meals :: c in MealContributions(market, meal)
  {
    if meals != [] {
      var rest, last := meals[..|meals| - 1], meals[|meals| - 1];
      ContributionsFrom(market, rest, c);
      assert meals == rest + [last];
    }
  }

  /** A catalogue without repeated identifiers, indexed, and no ingredient with a substitution group. */
  ghost predicate Unambiguous(market: Market, catalog: seq<Product>, meals: seq<Meal>) {
    && Indexes(market.byName, catalog)
    && (forall i, j | 0 <= i < j < |catalog| :: catalog[i].productId != catalog[j].productId)
    && (forall meal, ingredient | meal in meals && ingredient in meal.recipe.ingredients :: ingredient.substitutionGroup == None)
  }

  /** What a contribution says about a line with a price is what the catalogue says. */
  lemma {:induction false} MetaOfProduct(market: Market, catalog: seq<Product>, meals: seq<Meal>, c: Contribution)
    requires Unambiguous(market, catalog, meals) && c in Contributions(market, meals)
    ensures c.key.ProductLine? <==> c.meta.product.Some?
    ensures c.key.ProductLine? ==>
      var p := c.meta.product.value;
      p in catalog && p.productId == c.key.productId && c.meta.name == p.name
      && (p.packages != [] ==> c.meta.unit == p.packages[0].unit)
  {
    ContributionsFrom(market, meals, c);
    var meal :| meal in meals && c in MealContributions(market, meal);
    var j :| 0 <= j < |meal.recipe.ingredients| && c == MealContributions(market, meal)[j];
    var ingredient := meal.recipe.ingredients[j];
    assert ingredient in meal.recipe.ingredients;
    FirstNamedIn(catalog, ingredient.name);
  }

  /** Two contributions to one line agree on everything its cost depends on. */
  lemma {:induction false} MetasAgree(setting: Setting, catalog: seq<Product>, meals: seq<Meal>, c: Contribution, d: Contribution, needed: real)
    requires Unambiguous(setting.market, catalog, meals) && c.key == d.key
    requires c in Contributions(setting.market, meals) && d in Contributions(setting.market, meals)
    ensures LineOf(setting, c.key, c.meta, needed).subtotal == LineOf(setting, c.key, d.meta, needed).subtotal
  {
    MetaOfProduct(setting.market, catalog, meals, c);
    MetaOfProduct(setting.market, catalog, meals, d);
    if c.key.ProductLine? {
      var i :| 0 <= i < |catalog| && catalog[i] == c.meta.product.value;
      var j :| 0 <= j < |catalog| && catalog[j] == d.meta.product.value;
      assert i == j;
    }
  }

  lemma {:induction false} LineOrderFree(setting: Setting, catalog: seq<Product>, meals: seq<Meal>, meals': seq<Meal>, key: LineKey)
    requires Unambiguous(setting.market, catalog, meals) && multiset(meals) == multiset(meals')
    ensures var cs, cs' := Contributions(setting.market, meals), Contributions(setting.market, meals');
      (key in KeysOf(cs) <==> key in KeysOf(cs')) && LineCost(setting, cs, key) == LineCost(setting, cs', key)
  {
    var cs, cs' := Contributions(setting.market, meals), Contributions(setting.market, meals');
    SamePermutationMembers(meals, meals');
    forall c ensures c in cs <==> c in cs' {
      ContributionsFrom(setting.market, meals, c);
      ContributionsFrom(setting.market, meals', c);
    }
    TotalOrderFree(setting.market, meals, meals', key);
    NotYetDemanded(cs, key);
    NotYetDemanded(cs', key);
    FirstMetaIn(cs, key);
    FirstMetaIn(cs', key);
    if key in KeysOf(cs) {
      var c :| c in cs && c.key == key && c.meta == FirstMeta(cs, key).value;
      var d :| d in cs' && d.key == key && d.meta == FirstMeta(cs', key).value;
      MetasAgree(setting, catalog, meals, c, d, Total(cs, key));
    }
  }

  /** The cost does not depend on the order of the meals. */
  lemma {:induction false} CostOrderFree(setting: Setting, catalog: seq<Product>, meals: seq<Meal>, meals': seq<Meal>)
    requires Unambiguous(setting.market, catalog, meals) && multiset(meals) == multiset(meals')
    ensures CostOf(setting, meals) == CostOf(setting, meals')
  {
    var cs, cs' := Contributions(setting.market, meals), Contributions(setting.market, meals');
    forall key
      ensures key in KeysOf(cs) <==> key in KeysOf(cs')
      ensures LineCost(setting, cs, key) == LineCost(setting, cs', key)
    {
      LineOrderFree(setting, catalog, meals, meals', key);
    }
    assert KeysOf(cs) == KeysOf(cs');
    SumSame(KeysOf(cs), k => LineCost(setting, cs, k), k => LineCost(setting, cs', k));
  }

  // ----- Two formats ----------------------------------------------------------------------------

  /** One gram for 3.00, ten grams for 1.00. */
  const SMALL_BAG := PackageOption(0, 1.0, "g", 3.0, InStock, None, true)
  const LARGE_BAG := PackageOption(0, 10.0, "g", 1.0, InStock, None, true)
  const TWO_FORMATS := Product(0, "rice", "Rice", "dry", [SMALL_BAG, LARGE_BAG], {})

  /** The default weights of the score for waste and cost. */
  const DEFAULT_SETTING := Setting(Market(map["rice" := TWO_FORMATS], map[], []), map[], Terms(None, 1.0, 1.5))

  function RiceMeal(slot: nat, grams: real): Meal {
    Meal(slot, 0, "lunch",
         Recipe(0, "Rice", 1, {"lunch"}, [], [RecipeIngredient("rice", "Rice", grams, "g", None, None, true)], 0, 0, {}, {}), 1)
  }

  lemma {:induction false} CeilIs(pending: real, quantity: real, n: nat)
    requires quantity > 0.0 && Covers(n, quantity, pending) && (n > 0 ==> !Covers(n - 1, quantity, pending))
    ensures CeilDiv(pending, quantity) == n
  {
    CeilDivLeast(pending, quantity);
    if CeilDiv(pending, quantity) < n {
      ScaleAtMost(CeilDiv(pending, quantity) as real, (n - 1) as real, quantity);
    }
  }

  lemma {:induction false} RiceLine(grams: real, key: LineKey, best: PackageOption)
    requires Best(grams, [SMALL_BAG, LARGE_BAG], DEFAULT_SETTING.terms) == Some(best) && best in [SMALL_BAG, LARGE_BAG] && grams >= 0.0
    ensures LineOf(DEFAULT_SETTING, key, Meta("rice", Some(TWO_FORMATS), "g"), grams).subtotal == PriceOf(grams, best)
  {
    var meta := Meta("rice", Some(TWO_FORMATS), "g");
    assert ToBuy(DEFAULT_SETTING, meta, grams) == grams;
    LineCosts(DEFAULT_SETTING, key, meta, grams, best);
  }

  /** One gram is bought for 3.00, nine grams for 1.00. */
  lemma {:induction false} RiceChoices()
    ensures Best(1.0, [SMALL_BAG, LARGE_BAG], DEFAULT_SETTING.terms) == Some(SMALL_BAG) && CeilDiv(1.0, 1.0) == 1
    ensures Best(9.0, [SMALL_BAG, LARGE_BAG], DEFAULT_SETTING.terms) == Some(LARGE_BAG) && CeilDiv(9.0, 10.0) == 1
  {
    CeilIs(1.0, 1.0, 1);
    CeilIs(1.0, 10.0, 1);
    CeilIs(9.0, 1.0, 9);
    CeilIs(9.0, 10.0, 1);
    assert [SMALL_BAG, LARGE_BAG][..1] == [SMALL_BAG] && [SMALL_BAG][..0] == [];
    assert Best(1.0, [], DEFAULT_SETTING.terms) == None && Best(9.0, [], DEFAULT_SETTING.terms) == None;
    assert Best(1.0, [SMALL_BAG], DEFAULT_SETTING.terms) == Some(SMALL_BAG) && Best(9.0, [SMALL_BAG], DEFAULT_SETTING.terms) == Some(SMALL_BAG);
    assert KeyOf(1.0, SMALL_BAG, DEFAULT_SETTING.terms).score == 4.5 && KeyOf(1.0, LARGE_BAG, DEFAULT_SETTING.terms).score == 10.5;
    assert KeyOf(9.0, SMALL_BAG, DEFAULT_SETTING.terms).score == 40.5 && KeyOf(9.0, LARGE_BAG, DEFAULT_SETTING.terms).score == 2.5;
  }

  lemma {:induction false} RiceContribution(slot: nat, grams: real)
    ensures MealContributions(DEFAULT_SETTING.market, RiceMeal(slot, grams)) ==
      [Contribution(ProductLine(0), slot, grams, Meta("rice", Some(TWO_FORMATS), "g"))]
  {
    var meal := RiceMeal(slot, grams);
    var ingredient := meal.recipe.ingredients[0];
    assert RawQuantity(meal, ingredient) == grams;
    assert Match(DEFAULT_SETTING.market.byName, DEFAULT_SETTING.market.groups, "rice", None) == Some(TWO_FORMATS);
  }

  lemma {:induction false} OneLineCost(meals: seq<Meal>, grams: real)
    requires var cs := Contributions(DEFAULT_SETTING.market, meals);
      KeysOf(cs) == {ProductLine(0)} && Total(cs, ProductLine(0)) == grams
      && FirstMeta(cs, ProductLine(0)) == Some(Meta("rice", Some(TWO_FORMATS), "g"))
    ensures CostOf(DEFAULT_SETTING, meals) == LineOf(DEFAULT_SETTING, ProductLine(0), Meta("rice", Some(TWO_FORMATS), "g"), grams).subtotal
  {
    var cs := Contributions(DEFAULT_SETTING.market, meals);
    SumRemove({ProductLine(0)}, k => LineCost(DEFAULT_SETTING, cs, k), ProductLine(0));
    assert {ProductLine(0)} - {ProductLine(0)} == {};
  }

  function Rice(slot: nat, grams: real): Contribution {
    Contribution(ProductLine(0), slot, grams, Meta("rice", Some(TWO_FORMATS), "g"))
  }

  lemma {:induction false} FirstOrder()
    ensures CostOf(DEFAULT_SETTING, [RiceMeal(0, 1.0)]) == 3.0
  {
    var cs := Contributions(DEFAULT_SETTING.market, [RiceMeal(0, 1.0)]);
    ContributionsOfOne(DEFAULT_SETTING.market, RiceMeal(0, 1.0));
    RiceContribution(0, 1.0);
    assert cs == [] + [Rice(0, 1.0)];
    AppendTotals([], Rice(0, 1.0), ProductLine(0), 0);
    OneLineCost([RiceMeal(0, 1.0)], 1.0);
    RiceChoices();
    RiceLine(1.0, ProductLine(0), SMALL_BAG);
  }

  lemma {:induction false} BothContributions()
    ensures Contributions(DEFAULT_SETTING.market, [RiceMeal(0, 1.0)] + [RiceMeal(1, 8.0)]) == [Rice(0, 1.0)] + [Rice(1, 8.0)]
  {
    ContributionsConcat(DEFAULT_SETTING.market, [RiceMeal(0, 1.0)], [RiceMeal(1, 8.0)]);
    ContributionsOfOne(DEFAULT_SETTING.market, RiceMeal(0, 1.0));
    ContributionsOfOne(DEFAULT_SETTING.market, RiceMeal(1, 8.0));
    RiceContribution(0, 1.0);
    RiceContribution(1, 8.0);
  }

  lemma {:induction false} BothTotals(cs: seq<Contribution>)
    requires cs == [Rice(0, 1.0)] + [Rice(1, 8.0)]
    ensures KeysOf(cs) == {ProductLine(0)} && Total(cs, ProductLine(0)) == 9.0
    ensures FirstMeta(cs, ProductLine(0)) == Some(Meta("rice", Some(TWO_FORMATS), "g"))
  {
    var first := [Rice(0, 1.0)];
    assert first == [] + first;
    AppendTotals([], Rice(0, 1.0), ProductLine(0), 0);
    AppendTotals(first, Rice(1, 8.0), ProductLine(0), 0);
  }

  lemma {:induction false} BothOrders()
    ensures CostOf(DEFAULT_SETTING, [RiceMeal(0, 1.0)] + [RiceMeal(1, 8.0)]) == 1.0
  {
    BothContributions();
    BothTotals([Rice(0, 1.0)] + [Rice(1, 8.0)]);
    OneLineCost([RiceMeal(0, 1.0)] + [RiceMeal(1, 8.0)], 9.0);
    RiceChoices();
    RiceLine(9.0, ProductLine(0), LARGE_BAG);
  }

  lemma {:induction false} DefaultsNonNegative()
    ensures NonNegative(DEFAULT_SETTING)
  {
    assert NonNegativePrices(TWO_FORMATS);
  }

  lemma {:induction false} RiceNonNegative()
    ensures NonNegativeMeals([RiceMeal(1, 8.0)])
  {
  }

  /** With two formats, every other condition of AddingNeverCheapens met, a meal lowers the cost from 3 to 1. */
  lemma {:induction false} AddingCanCheapen()
    ensures NonNegative(DEFAULT_SETTING) && NonNegativeMeals([RiceMeal(1, 8.0)])
    ensures CostOf(DEFAULT_SETTING, [RiceMeal(0, 1.0)] + [RiceMeal(1, 8.0)]) < CostOf(DEFAULT_SETTING, [RiceMeal(0, 1.0)])
  {
    DefaultsNonNegative();
    RiceNonNegative();
    FirstOrder();
    BothOrders();
  }
}
