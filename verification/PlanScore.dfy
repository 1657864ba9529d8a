/**
  The score of an assignment of recipes to slots.  The nutrition term is an arbitrary function of the
  slots and the recipes.
 */
module PlanScore {
  import opened Wrappers
  import opened Collections
  import opened Sums
  import opened Contracts
  import opened Scheduling
  import opened Demand
  import opened Packaging
  import opened Provisioning
  import opened Costs

  datatype Weights = Weights(
    waste: real, repetition: real, cost: real, time: real, nutrition: real, soft: real, pantry: real,
    favorite: real, rejected: real)

  datatype Priority = Price | Waste | Nutrition

  datatype Budget = Budget(amount: real, strict: bool, maxMargin: real, priority: Priority)

  /** Everything that scores a plan. */
  datatype Criteria = Criteria(
    setting: Setting, weights: Weights, budget: Budget, favorites: set<nat>, rejected: set<nat>,
    soft: map<nat, nat>, nutrition: (seq<MealSlot>, seq<Recipe>) -> real)

  const BUDGET_PENALTY: real := 1000000.0

  function Limit(budget: Budget): real {
    if budget.strict then budget.amount else budget.amount * (1.0 + budget.maxMargin)
  }

  /** What the budget allows: a strict one its amount, a flexible one the margin on top. */
  predicate WithinBudget(budget: Budget, cost: real) {
    && (budget.strict ==> cost <= budget.amount)
    && (!budget.strict ==> cost <= budget.amount + budget.amount * budget.maxMargin)
  }

  lemma {:induction false} LimitIsBudget(budget: Budget, cost: real)
    ensures cost <= Limit(budget) <==> WithinBudget(budget, cost)
  {
    assert budget.amount * (1.0 + budget.maxMargin) == budget.amount + budget.amount * budget.maxMargin;
  }

  /** The recipes placed on the slots. */
  function MealsOf(slots: seq<MealSlot>, recipes: seq<Recipe>): (meals: seq<Meal>)
    requires |slots| == |recipes|
    ensures |meals| == |slots|
  {
    seq(|slots|, i requires 0 <= i < |slots| =>
      Meal(slots[i].index, slots[i].date, slots[i].mealType, recipes[i], slots[i].servings))
  }

  // ----- The terms ------------------------------------------------------------------------------

  function WasteOfLine(line: GroceryLine): real {
    if line.purchased > 0.0 && line.subtotal > 0.0 then line.subtotal * line.leftover / line.purchased else 0.0
  }

  function FromPantry(line: GroceryLine): real {
    if line.pantry > 0.0 then 1.0 else 0.0
  }

  function CountId(recipes: seq<Recipe>, id: nat): nat {
    if recipes == [] then 0
    else CountId(recipes[..|recipes| - 1], id) + if recipes[|recipes| - 1].recipeId == id then 1 else 0
  }

  /** The number of pairs of slots with the same recipe: the j-th reuse of a recipe adds j. */
  function Repeats(recipes: seq<Recipe>): nat {
    if recipes == [] then 0
    else Repeats(recipes[..|recipes| - 1]) + CountId(recipes[..|recipes| - 1], recipes[|recipes| - 1].recipeId)
  }

  function Minutes(recipes: seq<Recipe>): int {
    if recipes == [] then 0
    else Minutes(recipes[..|recipes| - 1]) + recipes[|recipes| - 1].preparationMinutes + recipes[|recipes| - 1].cookingMinutes
  }

  /** How many of the recipes are in the set. */
  function CountIn(recipes: seq<Recipe>, ids: set<nat>): nat {
    if recipes == [] then 0
    else CountIn(recipes[..|recipes| - 1], ids) + if recipes[|recipes| - 1].recipeId in ids then 1 else 0
  }

  function SoftViolations(recipes: seq<Recipe>, soft: map<nat, nat>): nat {
    if recipes == [] then 0
    else
      var id := recipes[|recipes| - 1].recipeId;
      SoftViolations(recipes[..|recipes| - 1], soft) + if id in soft then soft[id] else 0
  }

  /** The weighted sum of the terms, without the penalty for exceeding the budget. */
  function Weigh(c: Criteria, waste: real, bonus: real, repetition: nat, cost: real, slots: seq<MealSlot>, recipes: seq<Recipe>): real {
    var w := c.weights;
    var base := Weighted(w.waste, waste)
              + Weighted(w.repetition, repetition as real)
              + Weighted(w.time, Minutes(recipes) as real / 60.0)
              + Weighted(w.soft, SoftViolations(recipes, c.soft) as real)
              - Weighted(w.pantry, bonus)
              - Weighted(w.favorite, CountIn(recipes, c.favorites) as real)
              + Weighted(w.rejected, CountIn(recipes, c.rejected) as real);
    var fitted := base + Weighted(w.nutrition, c.nutrition(slots, recipes));
    if c.budget.priority == Price then fitted + Weighted(w.cost, cost) else fitted
  }

  /** So much of the weight. */
  function Weighted(weight: real, amount: real): real {
    weight * amount
  }

  function Overshoot(c: Criteria, cost: real): real {
    if cost > Limit(c.budget) then BUDGET_PENALTY * (cost - Limit(c.budget)) else 0.0
  }

  ghost function PlanCost(c: Criteria, slots: seq<MealSlot>, recipes: seq<Recipe>): real
    requires |slots| == |recipes|
  {
    CostOf(c.setting, MealsOf(slots, recipes))
  }

  /** The value of all purchase lines of the plan, added up. */
  ghost function LinesValue(c: Criteria, slots: seq<MealSlot>, recipes: seq<Recipe>, f: GroceryLine -> real): real
    requires |slots| == |recipes|
  {
    var cs := Contributions(c.setting.market, MealsOf(slots, recipes));
    SumOver(c.setting, cs, f, KeysOf(cs))
  }

  /** The score without the penalty. */
  ghost function BaseScore(c: Criteria, slots: seq<MealSlot>, recipes: seq<Recipe>): real
    requires |slots| == |recipes|
  {
    Weigh(c, LinesValue(c, slots, recipes, WasteOfLine), LinesValue(c, slots, recipes, FromPantry),
          Repeats(recipes), PlanCost(c, slots, recipes), slots, recipes)
  }

  ghost function ScoreOf(c: Criteria, slots: seq<MealSlot>, recipes: seq<Recipe>): real
    requires |slots| == |recipes|
  {
    BaseScore(c, slots, recipes) + Overshoot(c, PlanCost(c, slots, recipes))
  }

  // ----- What the score rewards and penalises ---------------------------------------------------

  /** Within the budget nothing is added; beyond it, a million per unit of money in excess. */
  lemma {:induction false} BudgetIsPenalised(c: Criteria, slots: seq<MealSlot>, recipes: seq<Recipe>)
    requires |slots| == |recipes|
    ensures var cost := PlanCost(c, slots, recipes);
      && (WithinBudget(c.budget, cost) ==> ScoreOf(c, slots, recipes) == BaseScore(c, slots, recipes))
      && (!WithinBudget(c.budget, cost) && c.budget.strict ==>
            ScoreOf(c, slots, recipes) == BaseScore(c, slots, recipes) + 1000000.0 * (cost - c.budget.amount))
  {
    LimitIsBudget(c.budget, PlanCost(c, slots, recipes));
  }

  /** The uses of a recipe once its set is larger by it. */
  lemma {:induction false} CountWith(recipes: seq<Recipe>, ids: set<nat>, id: nat)
    requires id !in ids
    ensures CountIn(recipes, ids + {id}) == CountIn(recipes, ids) + CountId(recipes, id)
  {
    if recipes != [] {
      CountWith(recipes[..|recipes| - 1], ids, id);
    }
  }

  lemma {:induction false} ViolationsWith(recipes: seq<Recipe>, soft: map<nat, nat>, id: nat, more: nat)
    ensures SoftViolations(recipes, soft[id := (if id in soft then soft[id] else 0) + more]) ==
      SoftViolations(recipes, soft) + CountId(recipes, id) * more
  {
    if recipes != [] {
      ViolationsWith(recipes[..|recipes| - 1], soft, id, more);
      var n := CountId(recipes[..|recipes| - 1], id);
      assert (n + 1) * more == n * more + more;
    }
  }

  lemma {:induction false} MoreOf(weight: real, n: nat, k: nat)
    ensures Weighted(weight, (n + k) as real) == Weighted(weight, n as real) + Weighted(weight, k as real)
  {
  }

  lemma {:induction false} Heavier(weight: real, more: real, amount: real)
    ensures Weighted(weight + more, amount) == Weighted(weight, amount) + Weighted(more, amount)
  {
  }

  /** Making a recipe a favourite lowers the score by the weight for each of its uses. */
  lemma {:induction false} FavouriteIsRewarded(c: Criteria, slots: seq<MealSlot>, recipes: seq<Recipe>, id: nat)
    requires |slots| == |recipes| && id !in c.favorites
    ensures ScoreOf(c.(favorites := c.favorites + {id}), slots, recipes) ==
      ScoreOf(c, slots, recipes) - Weighted(c.weights.favorite, CountId(recipes, id) as real)
  {
    CountWith(recipes, c.favorites, id);
    MoreOf(c.weights.favorite, CountIn(recipes, c.favorites), CountId(recipes, id));
  }

  /** Rejecting a recipe raises the score by the weight for each of its uses. */
  lemma {:induction false} RejectionIsPenalised(c: Criteria, slots: seq<MealSlot>, recipes: seq<Recipe>, id: nat)
    requires |slots| == |recipes| && id !in c.rejected
    ensures ScoreOf(c.(rejected := c.rejected + {id}), slots, recipes) ==
      ScoreOf(c, slots, recipes) + Weighted(c.weights.rejected, CountId(recipes, id) as real)
  {
    CountWith(recipes, c.rejected, id);
    MoreOf(c.weights.rejected, CountIn(recipes, c.rejected), CountId(recipes, id));
  }

  /** Unmet preferences of a recipe raise the score by the weight, for each preference and each use. */
  lemma {:induction false} ViolationIsPenalised(c: Criteria, slots: seq<MealSlot>, recipes: seq<Recipe>, id: nat, more: nat)
    requires |slots| == |recipes|
    ensures ScoreOf(c.(soft := c.soft[id := (if id in c.soft then c.soft[id] else 0) + more]), slots, recipes) ==
      ScoreOf(c, slots, recipes) + Weighted(c.weights.soft, (CountId(recipes, id) * more) as real)
  {
    var soft := c.soft[id := (if id in c.soft then c.soft[id] else 0) + more];
    assert SoftViolations(recipes, soft) == SoftViolations(recipes, c.soft) + CountId(recipes, id) * more by {
      ViolationsWith(recipes, c.soft, id, more);
    }
    MoreOf(c.weights.soft, SoftViolations(recipes, c.soft), CountId(recipes, id) * more);
    SoftCounts(c, slots, recipes, soft);
  }

  lemma {:induction false} SoftCounts(c: Criteria, slots: seq<MealSlot>, recipes: seq<Recipe>, soft: map<nat, nat>)
    requires |slots| == |recipes|
    ensures ScoreOf(c.(soft := soft), slots, recipes) - Weighted(c.weights.soft, SoftViolations(recipes, soft) as real) ==
      ScoreOf(c, slots, recipes) - Weighted(c.weights.soft, SoftViolations(recipes, c.soft) as real)
  {
  }

  /** The waste of a line is what its leftover costs at the price per unit of the format that is bought. */
  lemma {:induction false} WasteIsLeftover(setting: Setting, key: LineKey, meta: Meta, needed: real)
    ensures var line := LineOf(setting, key, meta, needed);
      if line.choice.None? then WasteOfLine(line) == 0.0 else WastesLeftover(line, line.choice.value.option)
  {
    var line := LineOf(setting, key, meta, needed);
    if line.choice.Some? {
      WasteOfWhole(line, setting.terms);
    }
  }

  predicate WastesLeftover(line: GroceryLine, option: PackageOption) {
    if option.amount <= 0.0 then WasteOfLine(line) == 0.0
    else WasteOfLine(line) * option.quantity == line.leftover * option.amount
  }

  lemma {:induction false} WasteOfWhole(line: GroceryLine, terms: Terms)
    requires line.choice.Some? && Usable(line.choice.value.option)
    requires var r := ChoiceOf(line.pending, line.choice.value.option, terms).result;
      line.packages == r.packages && line.purchased == r.purchased && line.leftover == r.leftover && line.subtotal == r.totalCost
    ensures WastesLeftover(line, line.choice.value.option)
  {
    var option := line.choice.value.option;
    WholePackages(line.pending, 0.0, option.quantity, option.amount);
    WasteOfPackages(line, option);
  }

  lemma {:induction false} WasteOfPackages(line: GroceryLine, option: PackageOption)
    requires option.quantity > 0.0 && (line.packages == 0 ==> line.leftover <= 0.0) && line.leftover >= 0.0
    requires line.purchased == line.packages as real * option.quantity && line.subtotal == line.packages as real * option.amount
    ensures WastesLeftover(line, option)
  {
    if option.amount > 0.0 && line.packages > 0 {
      PerUnit(line.packages, option.quantity, option.amount, line.leftover);
    }
  }

  lemma {:induction false} PerUnit(packages: nat, quantity: real, amount: real, leftover: real)
    requires packages > 0 && quantity > 0.0 && amount > 0.0
    ensures packages as real * quantity > 0.0 && packages as real * amount > 0.0
    ensures (packages as real * amount) * leftover / (packages as real * quantity) * quantity == leftover * amount
  {
  }

  /** A greater weight on waste, repetition or time raises the score by what there is of them. */
  lemma {:induction false} WasteIsPenalised(c: Criteria, slots: seq<MealSlot>, recipes: seq<Recipe>, more: real)
    requires |slots| == |recipes|
    ensures ScoreOf(c.(weights := c.weights.(waste := c.weights.waste + more)), slots, recipes) ==
      ScoreOf(c, slots, recipes) + Weighted(more, LinesValue(c, slots, recipes, WasteOfLine))
  {
    Heavier(c.weights.waste, more, LinesValue(c, slots, recipes, WasteOfLine));
  }

  lemma {:induction false} RepetitionIsPenalised(c: Criteria, slots: seq<MealSlot>, recipes: seq<Recipe>, more: real)
    requires |slots| == |recipes|
    ensures ScoreOf(c.(weights := c.weights.(repetition := c.weights.repetition + more)), slots, recipes) ==
      ScoreOf(c, slots, recipes) + Weighted(more, Repeats(recipes) as real)
  {
    Heavier(c.weights.repetition, more, Repeats(recipes) as real);
  }

  lemma {:induction false} TimeIsPenalised(c: Criteria, slots: seq<MealSlot>, recipes: seq<Recipe>, more: real)
    requires |slots| == |recipes|
    ensures ScoreOf(c.(weights := c.weights.(time := c.weights.time + more)), slots, recipes) ==
      ScoreOf(c, slots, recipes) + Weighted(more, Minutes(recipes) as real / 60.0)
  {
    Heavier(c.weights.time, more, Minutes(recipes) as real / 60.0);
  }

  /** A greater weight on the pantry lowers the score by the number of lines it serves. */
  lemma {:induction false} PantryIsRewarded(c: Criteria, slots: seq<MealSlot>, recipes: seq<Recipe>, more: real)
    requires |slots| == |recipes|
    ensures ScoreOf(c.(weights := c.weights.(pantry := c.weights.pantry + more)), slots, recipes) ==
      ScoreOf(c, slots, recipes) - Weighted(more, LinesValue(c, slots, recipes, FromPantry))
  {
    Heavier(c.weights.pantry, more, LinesValue(c, slots, recipes, FromPantry));
  }

  /** The cost itself counts only for a household that asks for the cheapest plan. */
  lemma {:induction false} CostCounts(c: Criteria, slots: seq<MealSlot>, recipes: seq<Recipe>, more: real)
    requires |slots| == |recipes|
    ensures ScoreOf(c.(weights := c.weights.(cost := c.weights.cost + more)), slots, recipes) ==
      ScoreOf(c, slots, recipes) + if c.budget.priority == Price then Weighted(more, PlanCost(c, slots, recipes)) else 0.0
  {
    Heavier(c.weights.cost, more, PlanCost(c, slots, recipes));
  }

  // ----- Repetition -----------------------------------------------------------------------------

  function Triangle(n: nat): nat {
    n * (n - 1) / 2
  }

  lemma {:induction false} TriangleStep(n: nat)
    ensures Triangle(n + 1) == Triangle(n) + n
  {
    assert (n + 1) * n == n * (n - 1) + 2 * n;
  }

  ghost function TriangleOf(recipes: seq<Recipe>, id: nat): real {
    Triangle(CountId(recipes, id)) as real
  }

  ghost predicate Counts(counts: map<nat, nat>, recipes: seq<Recipe>) {
    forall id: nat :: CountId(recipes, id) == if id in counts then counts[id] else 0
  }

  /** The triangular numbers of the counts add up to the pairs of equal recipes. */
  lemma {:induction false} TrianglesArePairs(recipes: seq<Recipe>, ids: set<nat>)
    requires forall i | 0 <= i < |recipes| :: recipes[i].recipeId in ids
    ensures Sum(ids, id => TriangleOf(recipes, id)) == Repeats(recipes) as real
  {
    if recipes == [] {
      SumOfNothing(ids, id => TriangleOf(recipes, id));
    } else {
      var rest, last := recipes[..|recipes| - 1], recipes[|recipes| - 1].recipeId;
      TrianglesArePairs(rest, ids);
      TriangleStep(CountId(rest, last));
      SumRemove(ids, id => TriangleOf(recipes, id), last);
      SumRemove(ids, id => TriangleOf(rest, id), last);
      SumSame(ids - {last}, id => TriangleOf(recipes, id), id => TriangleOf(rest, id));
    }
  }

  lemma {:induction false} SumOfNothing<K>(s: set<K>, f: K -> real)
    requires forall k | k in s :: f(k) == 0.0
    ensures Sum(s, f) == 0.0
    decreases s
  {
    if s != {} {
      var k := Pick(s);
      SumRemove(s, f, k);
      SumOfNothing(s - {k}, f);
    }
  }

  method CountRecipes(recipes: seq<Recipe>) returns (counts: map<nat, nat>)
    ensures Counts(counts, recipes)
    ensures forall i | 0 <= i < |recipes| :: recipes[i].recipeId in counts
  {
    counts := map[];
    for i := 0 to |recipes|
      invariant Counts(counts, recipes[..i])
      invariant forall j | 0 <= j < i :: recipes[j].recipeId in counts
    {
      assert recipes[..i + 1][..i] == recipes[..i];
      var id := recipes[i].recipeId;
      counts := counts[id := (if id in counts then counts[id] else 0) + 1];
    }
    assert recipes[..|recipes|] == recipes;
  }

  method Repetition(recipes: seq<Recipe>) returns (total: nat)
    ensures total == Repeats(recipes)
  {
    var counts := CountRecipes(recipes);
    total := 0;
    var todo := counts.Keys;
    ghost var f := id => TriangleOf(recipes, id);
    while todo != {}
      invariant todo <= counts.Keys
      invariant total as real + Sum(todo, f) == Sum(counts.Keys, f)
    {
      var id :| id in todo;
      SumRemove(todo, f, id);
      total := total + Triangle(counts[id]);
      todo := todo - {id};
    }
    TrianglesArePairs(recipes, counts.Keys);
  }

  // ----- The score of a provision ---------------------------------------------------------------

  method SumOfLines(lines: seq<GroceryLine>) returns (waste: real, bonus: nat)
    ensures waste == SumLines(lines, WasteOfLine) && bonus as real == SumLines(lines, FromPantry)
  {
    waste, bonus := 0.0, 0;
    for i := 0 to |lines|
      invariant waste == SumLines(lines[..i], WasteOfLine) && bonus as real == SumLines(lines[..i], FromPantry)
    {
      assert lines[..i + 1][..i] == lines[..i];
      waste := waste + WasteOfLine(lines[i]);
      if lines[i].pantry > 0.0 {
        bonus := bonus + 1;
      }
    }
    assert lines[..|lines|] == lines;
  }

  method Score(c: Criteria, slots: seq<MealSlot>, recipes: seq<Recipe>, prov: Provision) returns (score: real)
    requires |slots| == |recipes| && Provisions(c.setting, MealsOf(slots, recipes), prov)
    ensures score == ScoreOf(c, slots, recipes)
  {
    ghost var cs := Contributions(c.setting.market, MealsOf(slots, recipes));
    var waste, bonus := SumOfLines(prov.lines);
    SumLinesUnique(c.setting, cs, prov.lines, WasteOfLine);
    SumLinesUnique(c.setting, cs, prov.lines, FromPantry);
    CostIsUnique(c.setting, MealsOf(slots, recipes), prov);
    var repetition := Repetition(recipes);
    score := Weigh(c, waste, bonus as real, repetition, prov.CostTotal(), slots, recipes);
    if prov.CostTotal() > Limit(c.budget) {
      score := score + BUDGET_PENALTY * (prov.CostTotal() - Limit(c.budget));
    }
  }
}
