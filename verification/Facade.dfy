/** The entry point of the planner: schedule, hard filter, optimise, and the result with its costs. */
module Facade {
  import opened Wrappers
  import opened Collections
  import opened Sums
  import opened Contracts
  import opened Matching
  import opened Packaging
  import opened Scheduling
  import opened Pantry
  import opened Units
  import opened Demand
  import opened Provisioning
  import opened Costs
  import opened CostOrder
  import opened PlanScore
  import opened SearchSpace
  import opened Optimizer
  import opened Validators

  datatype PlanInput = PlanInput(
    members: seq<Member>, requirements: seq<Requirement>, budget: Budget, start: nat, end: nat,
    equipment: set<string>, catalog: seq<Product>, candidates: seq<Recipe>, pantry: seq<PantryItem>,
    favorites: set<nat>, conversions: seq<Conversion>, weights: Weights, asOf: Option<int>,
    vocabulary: Vocabulary, nutrition: (seq<MealSlot>, seq<Recipe>) -> real)

  datatype PlannedMeal = PlannedMeal(meal: Meal, imputable: real, marginal: real)

  datatype Result =
    | Unassignable(missing: set<string>)
    | OverBudget(minBudgetFound: real)
    | Planned(meals: seq<PlannedMeal>, prov: Provision, costPerDay: map<nat, real>, budgetDiff: real)

  // ----- The hard filter ------------------------------------------------------------------------

  /** The recipe can be cooked with the equipment and is safe for every member. */
  ghost predicate Admissible(input: PlanInput, byIngredient: ByIngredient, recipe: Recipe) {
    && AllergenSafe(input.vocabulary, byIngredient, recipe, input.members)
    && DietSafe(input.vocabulary, byIngredient, recipe, input.members)
    && recipe.requiredEquipment <= input.equipment
  }

  predicate FitsSlot(slot: MealSlot, recipe: Recipe) {
    && slot.mealType in recipe.mealTypes
    && (slot.maximumMinutes.None? || recipe.preparationMinutes + recipe.cookingMinutes <= slot.maximumMinutes.value)
  }

  /** The unmet soft preferences of each admissible recipe; of two recipes with one id the later one counts. */
  ghost function SoftPenalties(input: PlanInput, byIngredient: ByIngredient, candidates: seq<Recipe>): map<nat, nat> {
    if candidates == [] then map[]
    else
      var before, last := SoftPenalties(input, byIngredient, candidates[..|candidates| - 1]), candidates[|candidates| - 1];
      if Admissible(input, byIngredient, last) then
        before[last.recipeId := SoftHitsOf(input.vocabulary, RecipeTokens(input.vocabulary, byIngredient, last), input.members)]
      else before
  }

  method FilterRecipes(input: PlanInput, byIngredient: ByIngredient) returns (valid: seq<Recipe>, soft: map<nat, nat>)
    ensures forall r :: r in valid <==> r in input.candidates && Admissible(input, byIngredient, r)
    ensures soft == SoftPenalties(input, byIngredient, input.candidates)
  {
    valid, soft := [], map[];
    for i := 0 to |input.candidates|
      invariant forall r :: r in valid <==> r in input.candidates[..i] && Admissible(input, byIngredient, r)
      invariant soft == SoftPenalties(input, byIngredient, input.candidates[..i])
    {
      var recipe := input.candidates[i];
      assert input.candidates[..i + 1][..i] == input.candidates[..i];
      PrefixStep(input.candidates, i);
      var allergens := ValidateAllergens(input.vocabulary, byIngredient, recipe, input.members);
      var diet, hits := ValidateDiet(input.vocabulary, byIngredient, recipe, input.members);
      if allergens && diet && recipe.requiredEquipment <= input.equipment {
        valid := valid + [recipe];
        soft := soft[recipe.recipeId := hits];
      }
    }
    FullPrefix(input.candidates);
  }

  function Fitting(valid: seq<Recipe>, slot: MealSlot): (r: seq<Recipe>)
    ensures forall x :: x in r <==> x in valid && FitsSlot(slot, x)
  {
    if valid == [] then []
    else Fitting(valid[..|valid| - 1], slot) + if FitsSlot(slot, valid[|valid| - 1]) then [valid[|valid| - 1]] else []
  }

  ghost predicate Indexed(slots: seq<MealSlot>) {
    forall i | 0 <= i < |slots| :: slots[i].index == i
  }

  method FeasibleFor(slots: seq<MealSlot>, valid: seq<Recipe>) returns (feasible: Feasible)
    requires Indexed(slots)
    ensures forall i | 0 <= i < |slots| :: OptionsAt(feasible, slots[i]) == Fitting(valid, slots[i])
  {
    feasible := map[];
    for k := 0 to |slots|
      invariant forall i | 0 <= i < k :: i in feasible && feasible[i] == Fitting(valid, slots[i])
    {
      feasible := feasible[slots[k].index := Fitting(valid, slots[k])];
    }
  }

  function RejectedBy(members: seq<Member>): set<nat> {
    if members == [] then {} else RejectedBy(members[..|members| - 1]) + members[|members| - 1].rejectedRecipes
  }

  /** No candidate that fits the slot is admissible. */
  ghost predicate Hopeless(input: PlanInput, byIngredient: ByIngredient, slot: MealSlot) {
    forall r | r in input.candidates && FitsSlot(slot, r) :: !Admissible(input, byIngredient, r)
  }

  /** What the planner promises about a planned meal. */
  ghost predicate Suitable(input: PlanInput, byIngredient: ByIngredient, slot: MealSlot, meal: Meal) {
    && meal.slot == slot.index && meal.date == slot.date && meal.mealType == slot.mealType && meal.servings == slot.servings
    && meal.recipe in input.candidates
    && FitsSlot(slot, meal.recipe)
    && Admissible(input, byIngredient, meal.recipe)
  }

  lemma {:induction false} AssignmentsAreSuitable(input: PlanInput, byIngredient: ByIngredient, slots: seq<MealSlot>,
                                                  feasible: Feasible, recipes: seq<Recipe>)
    requires IsFeasible(input, byIngredient, slots, feasible) && IsAssignment(slots, feasible, recipes)
    ensures forall i | 0 <= i < |slots| :: Suitable(input, byIngredient, slots[i], MealsOf(slots, recipes)[i])
  {
    forall i | 0 <= i < |slots| ensures Suitable(input, byIngredient, slots[i], MealsOf(slots, recipes)[i]) {
      assert AreCandidates(input, byIngredient, slots[i], OptionsAt(feasible, slots[i]));
    }
  }

  // ----- The costs of a result ------------------------------------------------------------------

  function SumImputable(meals: seq<PlannedMeal>): real {
    if meals == [] then 0.0 else SumImputable(meals[..|meals| - 1]) + meals[|meals| - 1].imputable
  }

  function SumMarginal(meals: seq<PlannedMeal>): real {
    if meals == [] then 0.0 else SumMarginal(meals[..|meals| - 1]) + meals[|meals| - 1].marginal
  }

  function CostOn(costPerDay: map<nat, real>, date: nat): real {
    if date in costPerDay then costPerDay[date] else 0.0
  }

  ghost function SumDays(costPerDay: map<nat, real>): real {
    Sum(costPerDay.Keys, d => CostOn(costPerDay, d))
  }

  lemma {:induction false} SumDaysStep(costPerDay: map<nat, real>, date: nat, x: real)
    ensures SumDays(costPerDay[date := CostOn(costPerDay, date) + x]) == SumDays(costPerDay) + x
  {
    var after := costPerDay[date := CostOn(costPerDay, date) + x];
    var f, g := d => CostOn(costPerDay, d), d => CostOn(after, d);
    SumRemove(after.Keys, g, date);
    assert after.Keys - {date} == costPerDay.Keys - {date};
    SumSame(costPerDay.Keys - {date}, f, g);
    if date in costPerDay {
      SumRemove(costPerDay.Keys, f, date);
    } else {
      assert costPerDay.Keys - {date} == costPerDay.Keys;
    }
  }

  /** A planned meal carries its share of the plan and what it adds to the meals before it. */
  ghost predicate Costed(setting: Setting, meals: seq<Meal>, prov: Provision, planned: seq<PlannedMeal>) {
    && |planned| <= |meals|
    && forall i | 0 <= i < |planned| ::
         && planned[i].meal == meals[i]
         && planned[i].imputable == ImputableTo(prov.imputable, meals[i].slot)
         && planned[i].marginal == CostOf(setting, meals[..i + 1]) - CostOf(setting, meals[..i])
  }

  lemma {:induction false} CostOfNothing(setting: Setting)
    ensures CostOf(setting, []) == 0.0
  {
    assert KeysOf([]) == {};
  }

  /** The marginal costs telescope. */
  lemma {:induction false} MarginalsTelescope(setting: Setting, meals: seq<Meal>, prov: Provision, planned: seq<PlannedMeal>)
    requires Costed(setting, meals, prov, planned)
    ensures SumMarginal(planned) == CostOf(setting, meals[..|planned|])
    ensures SumImputable(planned) == Imputed(meals[..|planned|], prov.imputable)
  {
    if planned == [] {
      CostOfNothing(setting);
    } else {
      var n := |planned| - 1;
      MarginalsTelescope(setting, meals, prov, planned[..n]);
      assert meals[..n + 1][..n] == meals[..n];
    }
  }

  /** The state of the cost loop after the first meals. */
  ghost predicate CostedSoFar(setting: Setting, meals: seq<Meal>, prov: Provision, planned: seq<PlannedMeal>,
                              total: real, costPerDay: map<nat, real>) {
    && Costed(setting, meals, prov, planned)
    && total == CostOf(setting, meals[..|planned|])
    && SumDays(costPerDay) == SumImputable(planned)
  }

  lemma {:induction false} CostedStep(setting: Setting, meals: seq<Meal>, prov: Provision, planned: seq<PlannedMeal>, next: PlannedMeal)
    requires Costed(setting, meals, prov, planned) && |planned| < |meals|
    requires next.meal == meals[|planned|]
    requires next.imputable == ImputableTo(prov.imputable, next.meal.slot)
    requires next.marginal == CostOf(setting, meals[..|planned| + 1]) - CostOf(setting, meals[..|planned|])
    ensures Costed(setting, meals, prov, planned + [next])
    ensures SumImputable(planned + [next]) == SumImputable(planned) + next.imputable
  {
    FullPrefix(planned);
    PrefixOfAppend(planned, next);
  }

  lemma {:induction false} CostedNext(setting: Setting, meals: seq<Meal>, prov: Provision, planned: seq<PlannedMeal>, prevTotal: real,
                                      costPerDay: map<nat, real>, next: PlannedMeal)
    requires CostedSoFar(setting, meals, prov, planned, prevTotal, costPerDay) && |planned| < |meals|
    requires next.meal == meals[|planned|] && next.imputable == ImputableTo(prov.imputable, next.meal.slot)
    requires next.marginal == CostOf(setting, meals[..|planned| + 1]) - prevTotal
    ensures CostedSoFar(setting, meals, prov, planned + [next], prevTotal + next.marginal,
                        costPerDay[next.meal.date := CostOn(costPerDay, next.meal.date) + next.imputable])
  {
    SumDaysStep(costPerDay, next.meal.date, next.imputable);
    CostedStep(setting, meals, prov, planned, next);
  }

  /** The next planned meal, costed after those before it. */
  method CostMeal(setting: Setting, meals: seq<Meal>, prov: Provision, planned0: seq<PlannedMeal>, prevTotal: real,
                  costPerDay0: map<nat, real>)
    returns (planned: seq<PlannedMeal>, total: real, costPerDay: map<nat, real>)
    requires CostedSoFar(setting, meals, prov, planned0, prevTotal, costPerDay0) && |planned0| < |meals|
    ensures |planned| == |planned0| + 1 && CostedSoFar(setting, meals, prov, planned, total, costPerDay)
  {
    var i := |planned0|;
    var step := Provide(setting, meals[..i + 1]);
    CostIsUnique(setting, meals[..i + 1], step);
    total := step.CostTotal();
    var next := PlannedMeal(meals[i], ImputableTo(prov.imputable, meals[i].slot), total - prevTotal);
    CostedNext(setting, meals, prov, planned0, prevTotal, costPerDay0, next);
    planned := planned0 + [next];
    costPerDay := costPerDay0[next.meal.date := CostOn(costPerDay0, next.meal.date) + next.imputable];
  }

  method BuildResult(setting: Setting, meals: seq<Meal>, prov: Provision)
    returns (planned: seq<PlannedMeal>, costPerDay: map<nat, real>)
    ensures |planned| == |meals| && Costed(setting, meals, prov, planned)
    ensures SumDays(costPerDay) == SumImputable(planned)
  {
    planned, costPerDay := [], map[];
    var prevTotal := 0.0;
    CostOfNothing(setting);
    for i := 0 to |meals|
      invariant |planned| == i && CostedSoFar(setting, meals, prov, planned, prevTotal, costPerDay)
    {
      planned, prevTotal, costPerDay := CostMeal(setting, meals, prov, planned, prevTotal, costPerDay);
    }
  }

  /** The four sums of a result are one amount. */
  ghost predicate Reconciles(meals: seq<PlannedMeal>, prov: Provision, costPerDay: map<nat, real>) {
    && SumImputable(meals) == prov.costKnown + prov.costEstimated
    && SumMarginal(meals) == prov.costKnown + prov.costEstimated
    && SumDays(costPerDay) == prov.costKnown + prov.costEstimated
    && Subtotals(prov.lines, true) + Subtotals(prov.lines, false) == prov.costKnown + prov.costEstimated
  }

  lemma {:induction false} ResultReconciles(setting: Setting, meals: seq<Meal>, prov: Provision, planned: seq<PlannedMeal>, costPerDay: map<nat, real>)
    requires Provisions(setting, meals, prov) && DistinctSlots(meals)
    requires |planned| == |meals| && Costed(setting, meals, prov, planned) && SumDays(costPerDay) == SumImputable(planned)
    ensures SumMarginal(planned) == prov.CostTotal()
    ensures NonNegative(setting) ==> Reconciles(planned, prov, costPerDay)
  {
    MarginalsTelescope(setting, meals, prov, planned);
    FullPrefix(meals);
    CostIsUnique(setting, meals, prov);
    if NonNegative(setting) {
      CostConserved(setting, meals, prov);
    }
  }

  /** With one format per product no meal has a negative marginal cost. */
  lemma {:induction false} MarginalsNonNegative(setting: Setting, meals: seq<Meal>, prov: Provision, planned: seq<PlannedMeal>, i: nat)
    requires Costed(setting, meals, prov, planned) && i < |planned|
    requires NonNegative(setting) && OneFormat(setting.market) && NonNegativeMeals(meals)
    ensures planned[i].marginal >= 0.0
  {
    PrefixStep(meals, i);
    assert NonNegativeMeals([meals[i]]);
    AddingNeverCheapens(setting, meals[..i], meals[i]);
  }

  // ----- The planner ----------------------------------------------------------------------------

  /** The setting a plan is provisioned in. */
  ghost predicate SettingOf(input: PlanInput, setting: Setting) {
    && Indexes(setting.market.byName, input.catalog)
    && setting.market.groups == GroupsOf(input.candidates)
    && setting.market.factors == Declared(input.conversions)
    && (forall name: string :: ItemsOf(setting.stock, name) == Fresh(input.pantry, name, input.asOf))
    && setting.terms == Terms(input.asOf, input.weights.waste, input.weights.cost)
  }

  method MakeSetting(input: PlanInput) returns (setting: Setting)
    ensures SettingOf(input, setting)
  {
    var converter := new UnitConverter(input.conversions);
    var byName := IndexCatalog(input.catalog);
    var stock := IndexPantry(input.pantry, input.asOf);
    setting := Setting(Market(byName, GroupsOf(input.candidates), converter.factors), stock,
                       Terms(input.asOf, input.weights.waste, input.weights.cost));
  }

  /** What a returned plan satisfies. */
  ghost predicate GoodPlan(input: PlanInput, setting: Setting, byIngredient: ByIngredient, slots: seq<MealSlot>, result: Result)
    requires result.Planned?
  {
    && |result.meals| == |slots|
    && (forall i | 0 <= i < |slots| :: Suitable(input, byIngredient, slots[i], result.meals[i].meal))
    && (slots != [] ==> WithinBudget(input.budget, result.prov.CostTotal()))
    && result.budgetDiff == input.budget.amount - result.prov.CostTotal()
    && SumMarginal(result.meals) == result.prov.CostTotal()
    && (NonNegative(setting) ==> Reconciles(result.meals, result.prov, result.costPerDay))
    && Provisions(setting, Meals(result.meals), result.prov)
    && Costed(setting, Meals(result.meals), result.prov, result.meals)
  }

  function Meals(planned: seq<PlannedMeal>): seq<Meal> {
    seq(|planned|, i requires 0 <= i < |planned| => planned[i].meal)
  }

  lemma {:induction false} SlotsAreDistinct(slots: seq<MealSlot>, recipes: seq<Recipe>)
    requires Indexed(slots) && |recipes| == |slots|
    ensures DistinctSlots(MealsOf(slots, recipes))
  {
  }

  method PlanFrom(input: PlanInput, setting: Setting, ghost byIngredient: ByIngredient, slots: seq<MealSlot>,
                  plan: Scored) returns (result: Result)
    requires Indexed(slots) && |plan.recipes| == |slots|
    requires Provisions(setting, MealsOf(slots, plan.recipes), plan.prov)
    requires forall i | 0 <= i < |slots| :: Suitable(input, byIngredient, slots[i], MealsOf(slots, plan.recipes)[i])
    requires WithinBudget(input.budget, plan.prov.CostTotal())
    ensures result.Planned? && GoodPlan(input, setting, byIngredient, slots, result) && Shows(slots, result, plan)
  {
    var meals := MealsOf(slots, plan.recipes);
    var planned, costPerDay := BuildResult(setting, meals, plan.prov);
    SlotsAreDistinct(slots, plan.recipes);
    ResultReconciles(setting, meals, plan.prov, planned, costPerDay);
    assert Meals(planned) == meals;
    result := Planned(planned, plan.prov, costPerDay, input.budget.amount - plan.prov.CostTotal());
  }

  lemma {:induction false} EmptyPlanIsGood(input: PlanInput, setting: Setting, byIngredient: ByIngredient)
    ensures GoodPlan(input, setting, byIngredient, [], Planned([], Provision([], 0.0, 0.0, map[]), map[], input.budget.amount))
  {
    var prov := Provision([], 0.0, 0.0, map[]);
    NothingCharged(setting, [], []);
    assert Meals([]) == [];
    assert SumDays(map[]) == 0.0;
  }

  /** What the plans of an input are scored by. */
  ghost function CriteriaOf(input: PlanInput, setting: Setting, byIngredient: ByIngredient): Criteria {
    Criteria(setting, input.weights, input.budget, input.favorites, RejectedBy(input.members),
             SoftPenalties(input, byIngredient, input.candidates), input.nutrition)
  }

  /** The candidates of every slot. */
  ghost predicate IsFeasible(input: PlanInput, byIngredient: ByIngredient, slots: seq<MealSlot>, feasible: Feasible) {
    forall i | 0 <= i < |slots| :: AreCandidates(input, byIngredient, slots[i], OptionsAt(feasible, slots[i]))
  }

  ghost predicate AreCandidates(input: PlanInput, byIngredient: ByIngredient, slot: MealSlot, options: seq<Recipe>) {
    forall r :: r in options <==> r in input.candidates && FitsSlot(slot, r) && Admissible(input, byIngredient, r)
  }

  /** The plan that is returned: a search made it, and it fits. */
  ghost predicate Returned(c: Criteria, slots: seq<MealSlot>, feasible: Feasible, plan: Scored) {
    exists plans :: Decided(c, slots, feasible, 4, plans, 0, plan, false)
  }

  /**
    Why no plan is returned: neither search's plan fits, and the cost reported is that of a whole feasible plan,
    the least of all plans that were evaluated.
   */
  ghost predicate TooDear(c: Criteria, slots: seq<MealSlot>, feasible: Feasible, minBudget: real) {
    exists plans, plan, cheapest :: IsTooDear(c, slots, feasible, plans, plan, cheapest, minBudget)
  }

  ghost predicate IsTooDear(c: Criteria, slots: seq<MealSlot>, feasible: Feasible, plans: seq<seq<Recipe>>, plan: Scored,
                               cheapest: Cheapest, minBudget: real) {
    && Decided(c, slots, feasible, 4, plans, 0, plan, true)
    && IsCheapest(c, slots, plans, cheapest) && cheapest.Seen? && cheapest.cost == minBudget
  }

  /** Under a dominating penalty, the least cost of plans none of which fits is beyond the budget. */
  lemma {:induction false} CheapestIsOver(c: Criteria, slots: seq<MealSlot>, plans: seq<seq<Recipe>>, cheapest: Cheapest)
    requires NoneFits(c, slots, plans, 0) && IsCheapest(c, slots, plans, cheapest) && cheapest.Seen?
    ensures !WithinBudget(c.budget, cheapest.cost)
  {
    LimitIsBudget(c.budget, cheapest.cost);
    var k :| 0 <= k < |plans| && plans[k] == cheapest.recipes;
  }

  /** A cost that is reported over budget is beyond the budget, if the budget penalty outweighs the rest of the score. */
  lemma {:induction false} OverMeansOver(c: Criteria, slots: seq<MealSlot>, feasible: Feasible, minBudget: real)
    requires TooDear(c, slots, feasible, minBudget) && PenaltyDominates(c, slots, feasible)
    ensures !WithinBudget(c.budget, minBudget)
  {
    var plans, plan, cheapest :| IsTooDear(c, slots, feasible, plans, plan, cheapest, minBudget);
    CheapestIsOver(c, slots, plans, cheapest);
  }

  lemma {:induction false} CheapestIsFeasible(c: Criteria, slots: seq<MealSlot>, feasible: Feasible, plans: seq<seq<Recipe>>, cheapest: Cheapest)
    requires AllAssignments(slots, feasible, plans, 0) && IsCheapest(c, slots, plans, cheapest) && cheapest.Seen?
    ensures IsAssignment(slots, feasible, cheapest.recipes)
  {
    var k :| 0 <= k < |plans| && plans[k] == cheapest.recipes;
  }

  /** The cost that is reported over budget is the cost of a whole feasible plan. */
  lemma {:induction false} ReportedCostIsAPlan(c: Criteria, slots: seq<MealSlot>, feasible: Feasible, minBudget: real) returns (cheapest: Cheapest)
    requires TooDear(c, slots, feasible, minBudget)
    ensures cheapest.Seen? && cheapest.cost == minBudget && IsAssignment(slots, feasible, cheapest.recipes)
    ensures cheapest.cost == PlanCost(c, slots, cheapest.recipes)
  {
    var plans, plan, known :| IsTooDear(c, slots, feasible, plans, plan, known, minBudget);
    cheapest := known;
    CheapestIsFeasible(c, slots, feasible, plans, cheapest);
  }

  /** If a greedy plan, of either metric, fits, then the input is not answered over budget when the penalty dominates. */
  lemma {:induction false} GreedyFitsMeansPlanned(c: Criteria, slots: seq<MealSlot>, feasible: Feasible, minBudget: real, costOnly: bool,
                                                  greedy: seq<Recipe>)
    requires PenaltyDominates(c, slots, feasible) && forall i | 0 <= i < |slots| :: DistinctIds(OptionsAt(feasible, slots[i]))
    requires |greedy| == |slots| && IsGreedy(c, slots, feasible, costOnly, greedy) && Fits(c, slots, greedy)
    ensures !TooDear(c, slots, feasible, minBudget)
  {
    if TooDear(c, slots, feasible, minBudget) {
      var plans, plan, cheapest :| IsTooDear(c, slots, feasible, plans, plan, cheapest, minBudget);
      NoGreedyPlanFits(c, slots, feasible, 4, plans, 0, plan, costOnly, greedy);
    }
  }

  /** The result shows the plan with its own provision. */
  ghost predicate Shows(slots: seq<MealSlot>, result: Result, plan: Scored) {
    && result.Planned? && |plan.recipes| == |slots|
    && Meals(result.meals) == MealsOf(slots, plan.recipes) && result.prov == plan.prov
  }

  /** What becomes of the slots and their candidates. */
  ghost predicate Solved(c: Criteria, slots: seq<MealSlot>, feasible: Feasible, result: Result) {
    match result
    case Unassignable(missing) =>
      missing == MissingTypes(slots, feasible) && exists i | 0 <= i < |slots| :: OptionsAt(feasible, slots[i]) == []
    case OverBudget(minBudget) => TooDear(c, slots, feasible, minBudget)
    case Planned(_, _, _, _) => exists plan :: Shows(slots, result, plan) && Returned(c, slots, feasible, plan)
  }

  /** Searches for a plan and tells what became of it. */
  method Solve(input: PlanInput, setting: Setting, ghost byIngredient: ByIngredient, c: Criteria, slots: seq<MealSlot>, feasible: Feasible)
    returns (result: Result)
    requires Indexed(slots) && slots != [] && IsFeasible(input, byIngredient, slots, feasible)
    requires c == CriteriaOf(input, setting, byIngredient)
    ensures Solved(c, slots, feasible, result)
    ensures result.Planned? ==> GoodPlan(input, setting, byIngredient, slots, result)
    ensures result.Unassignable? <==> exists i | 0 <= i < |slots| :: OptionsAt(feasible, slots[i]) == []
  {
    var optimizer := new PlanOptimizer(c, 4);
    var outcome := optimizer.Optimize(slots, feasible);
    if outcome.Missing? {
      return Unassignable(outcome.mealTypes);
    }
    if outcome.overBudget {
      assert IsTooDear(c, slots, feasible, optimizer.evaluated, outcome.plan, outcome.cheapest, outcome.cheapest.cost);
      return OverBudget(outcome.cheapest.cost);
    }
    var plan := outcome.plan;
    DecidedIsFound(c, slots, feasible, 4, optimizer.evaluated, 0, plan);
    AssignmentsAreSuitable(input, byIngredient, slots, feasible, plan.recipes);
    LimitIsBudget(input.budget, plan.prov.CostTotal());
    result := PlanFrom(input, setting, byIngredient, slots, plan);
    assert Shows(slots, result, plan) && Returned(c, slots, feasible, plan);
  }

  /** What the answer to an input is, given its market, allergens, slots and candidates. */
  ghost predicate Answers(input: PlanInput, result: Result, setting: Setting, byIngredient: ByIngredient, slots: seq<MealSlot>, feasible: Feasible) {
    && SettingOf(input, setting)
    && Files(input.vocabulary, byIngredient, input.catalog)
    && IsSchedule(slots, input.requirements, DatesInRange(input.start, input.end))
    && IsFeasible(input, byIngredient, slots, feasible)
    && (result.Planned? ==> GoodPlan(input, setting, byIngredient, slots, result))
    && (result.Unassignable? <==> exists i | 0 <= i < |slots| :: Hopeless(input, byIngredient, slots[i]))
    && (if slots == [] then result.Planned? else Solved(CriteriaOf(input, setting, byIngredient), slots, feasible, result))
  }

  /** The hard filter and the search for the slots of an input. */
  method PlanSlots(input: PlanInput, setting: Setting, byIngredient: ByIngredient, slots: seq<MealSlot>)
    returns (result: Result, ghost feasible: Feasible)
    requires SettingOf(input, setting) && Files(input.vocabulary, byIngredient, input.catalog)
    requires IsSchedule(slots, input.requirements, DatesInRange(input.start, input.end))
    ensures Answers(input, result, setting, byIngredient, slots, feasible)
  {
    var valid, soft := FilterRecipes(input, byIngredient);
    var candidates := FeasibleFor(slots, valid);
    feasible := candidates;
    HopelessMeansEmpty(input, byIngredient, slots, feasible);
    if slots == [] {
      EmptyPlanIsGood(input, setting, byIngredient);
      result := Planned([], Provision([], 0.0, 0.0, map[]), map[], input.budget.amount);
    } else {
      var c := Criteria(setting, input.weights, input.budget, input.favorites, RejectedBy(input.members), soft, input.nutrition);
      result := Solve(input, setting, byIngredient, c, slots, candidates);
    }
  }

  method GeneratePlan(input: PlanInput) returns (result: Result)
    ensures exists setting, byIngredient, slots, feasible :: Answers(input, result, setting, byIngredient, slots, feasible)
    ensures result.Planned? && input.budget.strict && input.budget.amount >= 0.0 ==>
      result.prov.CostTotal() <= input.budget.amount
    ensures result.Planned? && !input.budget.strict && input.budget.amount + input.budget.amount * input.budget.maxMargin >= 0.0 ==>
      result.prov.CostTotal() <= input.budget.amount + input.budget.amount * input.budget.maxMargin
  {
    var setting := MakeSetting(input);
    var slots := Schedule(input.requirements, input.start, input.end);
    var byIngredient := IndexAllergens(input.vocabulary, input.catalog);
    ghost var feasible;
    result, feasible := PlanSlots(input, setting, byIngredient, slots);
    BudgetKept(input, result, setting, byIngredient, slots, feasible);
  }

  /** A plan keeps the budget of the input. */
  lemma {:induction false} BudgetKept(input: PlanInput, result: Result, setting: Setting, byIngredient: ByIngredient, slots: seq<MealSlot>,
                                      feasible: Feasible)
    requires Answers(input, result, setting, byIngredient, slots, feasible)
    ensures result.Planned? && input.budget.strict && input.budget.amount >= 0.0 ==>
      result.prov.CostTotal() <= input.budget.amount
    ensures result.Planned? && !input.budget.strict && input.budget.amount + input.budget.amount * input.budget.maxMargin >= 0.0 ==>
      result.prov.CostTotal() <= input.budget.amount + input.budget.amount * input.budget.maxMargin
  {
    if result.Planned? && WithinBudget(input.budget, 0.0) {
      PlanWithinLimit(input, setting, byIngredient, slots, result);
    }
  }

  lemma {:induction false} HopelessMeansEmpty(input: PlanInput, byIngredient: ByIngredient, slots: seq<MealSlot>, feasible: Feasible)
    requires IsFeasible(input, byIngredient, slots, feasible)
    ensures (exists i | 0 <= i < |slots| :: OptionsAt(feasible, slots[i]) == []) <==>
      exists i | 0 <= i < |slots| :: Hopeless(input, byIngredient, slots[i])
  {
    forall i | 0 <= i < |slots| ensures OptionsAt(feasible, slots[i]) == [] <==> Hopeless(input, byIngredient, slots[i]) {
      var options := OptionsAt(feasible, slots[i]);
      assert AreCandidates(input, byIngredient, slots[i], options);
      if options != [] {
        assert options[0] in options;
      }
    }
  }

  /** A plan is returned whenever every slot has a candidate, the penalty dominates and a greedy plan fits. */
  lemma {:induction false} FittingGreedyIsPlanned(input: PlanInput, result: Result, setting: Setting, byIngredient: ByIngredient,
                                                  slots: seq<MealSlot>, feasible: Feasible, costOnly: bool, greedy: seq<Recipe>)
    requires Answers(input, result, setting, byIngredient, slots, feasible)
    requires forall i | 0 <= i < |slots| :: !Hopeless(input, byIngredient, slots[i]) && DistinctIds(OptionsAt(feasible, slots[i]))
    requires var c := CriteriaOf(input, setting, byIngredient);
      && PenaltyDominates(c, slots, feasible)
      && |greedy| == |slots| && IsGreedy(c, slots, feasible, costOnly, greedy)
    requires WithinBudget(input.budget, CostOf(setting, MealsOf(slots, greedy)))
    ensures result.Planned?
  {
    LimitIsBudget(input.budget, CostOf(setting, MealsOf(slots, greedy)));
    if result.OverBudget? {
      GreedyFitsMeansPlanned(CriteriaOf(input, setting, byIngredient), slots, feasible, result.minBudgetFound, costOnly, greedy);
    }
  }

  // ----- When there is no choice ----------------------------------------------------------------

  /** The recipe is the only one the slot admits. */
  ghost predicate OnlyChoice(options: seq<Recipe>, recipe: Recipe) {
    options != [] && forall r | r in options :: r == recipe
  }

  lemma {:induction false} OnlyAssignment(slots: seq<MealSlot>, feasible: Feasible, only: seq<Recipe>, recipes: seq<Recipe>)
    requires |only| == |slots| && forall i | 0 <= i < |slots| :: OnlyChoice(OptionsAt(feasible, slots[i]), only[i])
    requires IsAssignment(slots, feasible, recipes)
    ensures recipes == only
  {
    forall i | 0 <= i < |slots| ensures recipes[i] == only[i] {
      assert OnlyChoice(OptionsAt(feasible, slots[i]), only[i]);
    }
  }

  /** When every slot admits one recipe only, there is a plan exactly when these recipes cost no more than the budget allows. */
  lemma {:induction false} NoChoiceExactly(input: PlanInput, result: Result, setting: Setting, byIngredient: ByIngredient,
                                           slots: seq<MealSlot>, feasible: Feasible, only: seq<Recipe>)
    requires Answers(input, result, setting, byIngredient, slots, feasible) && slots != [] && |only| == |slots|
    requires forall i | 0 <= i < |slots| :: OnlyChoice(OptionsAt(feasible, slots[i]), only[i])
    ensures result.Planned? <==> WithinBudget(input.budget, CostOf(setting, MealsOf(slots, only)))
  {
    var c := CriteriaOf(input, setting, byIngredient);
    LimitIsBudget(input.budget, CostOf(setting, MealsOf(slots, only)));
    HopelessMeansEmpty(input, byIngredient, slots, feasible);
    forall i | 0 <= i < |slots| ensures OptionsAt(feasible, slots[i]) != [] {
      assert OnlyChoice(OptionsAt(feasible, slots[i]), only[i]);
    }
    if result.Planned? {
      var plan :| Shows(slots, result, plan) && Returned(c, slots, feasible, plan);
      var plans :| Decided(c, slots, feasible, 4, plans, 0, plan, false);
      DecidedIsFound(c, slots, feasible, 4, plans, 0, plan);
      OnlyAssignment(slots, feasible, only, plan.recipes);
    } else {
      assert TooDear(c, slots, feasible, result.minBudgetFound);
      var plans, plan, cheapest :| IsTooDear(c, slots, feasible, plans, plan, cheapest, result.minBudgetFound);
      ResultIsAssignment(c, slots, feasible, 4, false, plans, 0, plan);
      OnlyAssignment(slots, feasible, only, plan.recipes);
    }
  }

  // ----- Consequences in terms of the input -----------------------------------------------------

  /** No price, pantry quantity or declared factor of the input is negative. */
  ghost predicate NonNegativeInput(input: PlanInput) {
    && (forall p | p in input.catalog :: NonNegativePrices(p))
    && (forall i | 0 <= i < |input.pantry| :: input.pantry[i].quantity >= 0.0)
    && (forall i | 0 <= i < |input.conversions| :: input.conversions[i].factor >= 0.0)
  }

  lemma {:induction false} PutNonNegative(factors: seq<Conversion>, e: Conversion)
    requires e.factor >= 0.0 && forall i | 0 <= i < |factors| :: factors[i].factor >= 0.0
    ensures forall i | 0 <= i < |Put(factors, e)| :: Put(factors, e)[i].factor >= 0.0
  {
    if factors != [] && !SameKey(factors[0], e) {
      PutNonNegative(factors[1..], e);
    }
  }

  lemma {:induction false} DeclaredNonNegative(conversions: seq<Conversion>)
    requires forall i | 0 <= i < |conversions| :: conversions[i].factor >= 0.0
    ensures forall i | 0 <= i < |Declared(conversions)| :: Declared(conversions)[i].factor >= 0.0
  {
    if conversions != [] {
      var before, c := Declared(conversions[..|conversions| - 1]), conversions[|conversions| - 1];
      DeclaredNonNegative(conversions[..|conversions| - 1]);
      PutNonNegative(before, c);
      if c.factor != 0.0 {
        assert 1.0 / c.factor >= 0.0;
        PutNonNegative(Put(before, c), Reverse(c));
      }
    }
  }

  lemma {:induction false} FreshNonNegative(pantry: seq<PantryItem>, name: string, asOf: Option<int>)
    requires forall i | 0 <= i < |pantry| :: pantry[i].quantity >= 0.0
    ensures forall i | 0 <= i < |Fresh(pantry, name, asOf)| :: Fresh(pantry, name, asOf)[i].quantity >= 0.0
  {
    if pantry != [] {
      FreshNonNegative(pantry[..|pantry| - 1], name, asOf);
    }
  }

  lemma {:induction false} InputNonNegative(input: PlanInput, setting: Setting)
    requires SettingOf(input, setting) && NonNegativeInput(input)
    ensures NonNegative(setting)
  {
    DeclaredNonNegative(input.conversions);
    forall name | name in setting.market.byName ensures NonNegativePrices(setting.market.byName[name]) {
      FirstNamedIn(input.catalog, name);
    }
    forall name | name in setting.stock
      ensures forall i | 0 <= i < |setting.stock[name]| :: setting.stock[name][i].quantity >= 0.0
    {
      assert ItemsOf(setting.stock, name) == Fresh(input.pantry, name, input.asOf);
      FreshNonNegative(input.pantry, name, input.asOf);
    }
  }

  /** With a budget that is not negative, a returned plan never costs more than it allows, also when no meal was asked for. */
  lemma {:induction false} PlanWithinLimit(input: PlanInput, setting: Setting, byIngredient: ByIngredient, slots: seq<MealSlot>, result: Result)
    requires result.Planned? && GoodPlan(input, setting, byIngredient, slots, result) && WithinBudget(input.budget, 0.0)
    ensures WithinBudget(input.budget, result.prov.CostTotal())
  {
    if slots == [] {
      assert Meals(result.meals) == [];
      CostIsUnique(setting, [], result.prov);
      CostOfNothing(setting);
    }
  }

  /** A planned meal is a candidate of the slot's type, quick enough, cookable with the equipment, for the servings of the slot. */
  lemma {:induction false} PlannedMealsFit(input: PlanInput, setting: Setting, byIngredient: ByIngredient, slots: seq<MealSlot>, result: Result, k: nat)
    requires result.Planned? && GoodPlan(input, setting, byIngredient, slots, result) && k < |slots|
    ensures var meal := result.meals[k].meal;
      && meal.recipe in input.candidates && slots[k].mealType in meal.recipe.mealTypes
      && meal.recipe.requiredEquipment <= input.equipment
      && (slots[k].maximumMinutes.Some? ==>
            meal.recipe.preparationMinutes + meal.recipe.cookingMinutes <= slots[k].maximumMinutes.value)
      && meal.date == slots[k].date && meal.mealType == slots[k].mealType && meal.servings == slots[k].servings
  {
    assert Suitable(input, byIngredient, slots[k], result.meals[k].meal);
  }

  /** The imputable, marginal, daily and line costs of a returned plan are one amount. */
  lemma {:induction false} PlanReconciles(input: PlanInput, setting: Setting, byIngredient: ByIngredient, slots: seq<MealSlot>, result: Result)
    requires SettingOf(input, setting) && NonNegativeInput(input)
    requires result.Planned? && GoodPlan(input, setting, byIngredient, slots, result)
    ensures Reconciles(result.meals, result.prov, result.costPerDay)
  {
    InputNonNegative(input, setting);
  }

  /** A product bought for a planned meal under the ingredient's own name carries no allergen of any member. */
  lemma {:induction false} PlannedProductsAreSafe(input: PlanInput, setting: Setting, byIngredient: ByIngredient, slots: seq<MealSlot>,
                                                  result: Result, k: nat, i: nat, m: nat, x: string)
    requires SettingOf(input, setting) && Files(input.vocabulary, byIngredient, input.catalog)
    requires result.Planned? && GoodPlan(input, setting, byIngredient, slots, result)
    requires k < |slots| && i < |result.meals[k].meal.recipe.ingredients| && m < |input.members|
    requires forall s: string :: input.vocabulary.lower(input.vocabulary.lower(s)) == input.vocabulary.lower(s)
    ensures var ingredient := result.meals[k].meal.recipe.ingredients[i];
      ingredient.name in setting.market.byName && x in Canon(input.vocabulary, setting.market.byName[ingredient.name].allergens) ==>
        x !in Canon(input.vocabulary, input.members[m].allergens)
  {
    var recipe := result.meals[k].meal.recipe;
    assert Suitable(input, byIngredient, slots[k], result.meals[k].meal);
    if recipe.ingredients[i].name in setting.market.byName {
      DirectMatchIsSafe(input.vocabulary, byIngredient, input.catalog, setting.market.byName, setting.market.groups,
                        recipe, input.members, i, m, x);
    }
  }
}
