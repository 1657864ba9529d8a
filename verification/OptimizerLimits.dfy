/**
  Where the budget is not decisive: with the default weights, avoiding a rejected recipe is worth more than
  staying within the limit, so a plan that fits is evaluated and yet the outcome is over budget.
 */
module OptimizerLimits {
  import opened Wrappers
  import opened Collections
  import opened Sums
  import opened Contracts
  import opened Packaging
  import opened Scheduling
  import opened Pantry
  import opened Demand
  import opened Provisioning
  import opened Costs
  import opened CostOrder
  import opened PlanScore
  import opened SearchSpace
  import opened Optimizer

  const RICE := RiceMeal(0, 1.0).recipe
  const PLAIN := Recipe(1, "Nothing to buy", 1, {"lunch"}, [], [], 0, 0, {}, {})

  const DEFAULT_WEIGHTS := Weights(1.0, 12.0, 1.5, 0.8, 1.2, 1.0, 1.0, 0.7, 1000000000.0)

  /** Nothing may be spent, and the only recipe that costs nothing is rejected. */
  function RejectedPlain(): Criteria {
    Criteria(DEFAULT_SETTING, DEFAULT_WEIGHTS, Budget(0.0, true, 0.0, Waste), {}, {1}, map[], (slots, recipes) => 0.0)
  }

  const LUNCH := [MealSlot(0, 0, "lunch", 1, None, false, true)]
  const CANDIDATES: Feasible := map[0 := [RICE, PLAIN]]

  lemma {:induction false} PlainScore()
    ensures PlanCost(RejectedPlain(), LUNCH, [PLAIN]) == 0.0
    ensures ScoreOf(RejectedPlain(), LUNCH, [PLAIN]) == 1000000000.0
  {
    var c := RejectedPlain();
    var meals := MealsOf(LUNCH, [PLAIN]);
    assert meals == [Meal(0, 0, "lunch", PLAIN, 1)];
    ContributionsOfOne(c.setting.market, meals[0]);
    assert Contributions(c.setting.market, meals) == [];
    assert KeysOf([]) == {};
    PlainTerms();
  }

  lemma {:induction false} PlainTerms()
    ensures Weigh(RejectedPlain(), 0.0, 0.0, Repeats([PLAIN]), 0.0, LUNCH, [PLAIN]) == 1000000000.0
  {
    assert [PLAIN][..0] == [];
    assert Repeats([]) == 0 && Minutes([]) == 0 && SoftViolations([], map[]) == 0;
    assert CountIn([], {1}) == 0 && CountIn([], {}) == 0 && CountId([], 1) == 0;
    assert Repeats([PLAIN]) == 0 && Minutes([PLAIN]) == 0 && SoftViolations([PLAIN], map[]) == 0;
    assert CountIn([PLAIN], {1}) == 1 && CountIn([PLAIN], {}) == 0;
  }

  lemma {:induction false} RiceTerms()
    ensures Weigh(RejectedPlain(), 0.0, 0.0, Repeats([RICE]), 3.0, LUNCH, [RICE]) == 0.0
  {
    assert [RICE][..0] == [];
    assert Repeats([]) == 0 && Minutes([]) == 0 && SoftViolations([], map[]) == 0;
    assert CountIn([], {1}) == 0 && CountIn([], {}) == 0 && CountId([], 0) == 0;
    assert Repeats([RICE]) == 0 && Minutes([RICE]) == 0 && SoftViolations([RICE], map[]) == 0;
    assert CountIn([RICE], {1}) == 0 && CountIn([RICE], {}) == 0;
  }

  /** The whole gram is used and nothing comes from the pantry. */
  lemma {:induction false} RiceLineValues(key: LineKey)
    ensures var line := LineOf(DEFAULT_SETTING, key, Meta("rice", Some(TWO_FORMATS), "g"), 1.0);
      WasteOfLine(line) == 0.0 && FromPantry(line) == 0.0
  {
    var meta := Meta("rice", Some(TWO_FORMATS), "g");
    RiceChoices();
    assert AvailableOf(DEFAULT_SETTING.stock, DEFAULT_SETTING.market.factors, meta.name, meta.unit) == 0.0;
    assert Pending(0.0, 1.0) == (0.0, 1.0);
    var line := LineOf(DEFAULT_SETTING, key, meta, 1.0);
    assert line.leftover == 0.0;
  }

  lemma {:induction false} RiceValue(f: GroceryLine -> real)
    requires f(LineOf(DEFAULT_SETTING, ProductLine(0), Meta("rice", Some(TWO_FORMATS), "g"), 1.0)) == 0.0
    ensures LinesValue(RejectedPlain(), LUNCH, [RICE], f) == 0.0
  {
    var meals := MealsOf(LUNCH, [RICE]);
    assert meals == [RiceMeal(0, 1.0)];
    var cs := Contributions(DEFAULT_SETTING.market, meals);
    ContributionsOfOne(DEFAULT_SETTING.market, RiceMeal(0, 1.0));
    RiceContribution(0, 1.0);
    assert cs == [] + [CostOrder.Rice(0, 1.0)];
    AppendTotals([], CostOrder.Rice(0, 1.0), ProductLine(0), 0);
    assert KeysOf(cs) == {ProductLine(0)};
    SumRemove({ProductLine(0)}, k => LineValue(DEFAULT_SETTING, cs, f, k), ProductLine(0));
    assert {ProductLine(0)} - {ProductLine(0)} == {};
  }

  lemma {:induction false} RiceScore()
    ensures PlanCost(RejectedPlain(), LUNCH, [RICE]) == 3.0
    ensures ScoreOf(RejectedPlain(), LUNCH, [RICE]) == 3000000.0
  {
    FirstOrder();
    assert MealsOf(LUNCH, [RICE]) == [RiceMeal(0, 1.0)];
    RiceLineValues(ProductLine(0));
    RiceValue(WasteOfLine);
    RiceValue(FromPantry);
    RiceTerms();
  }

  /**
    Every run on this input is over budget, although one of the plans it evaluates fits and the cheapest cost it
    reports is within the limit: the plan over the limit has the smaller score.
   */
  lemma {:induction false} RejectionOutweighsBudget(maxPasses: nat, plans: seq<seq<Recipe>>, plan: Scored, overBudget: bool, cheapest: Cheapest)
    requires Decided(RejectedPlain(), LUNCH, CANDIDATES, maxPasses, plans, 0, plan, overBudget) && maxPasses >= 2
    requires IsCheapest(RejectedPlain(), LUNCH, plans, cheapest)
    ensures overBudget && [PLAIN] in plans && Fits(RejectedPlain(), LUNCH, [PLAIN])
    ensures cheapest.Seen? && cheapest.cost <= Limit(RejectedPlain().budget)
  {
    PlainScore();
    RiceScore();
    OverBudgetOfTwo(RejectedPlain(), LUNCH[0], CANDIDATES, maxPasses, plans, 0, plan, overBudget, RICE, PLAIN);
    var k :| 0 <= k < |plans| && plans[k] == [PLAIN];
  }

  /** Such a run, with the four passes of the planner. */
  method RunRejected() returns (outcome: Outcome)
    ensures outcome.Chosen? && outcome.overBudget && outcome.cheapest.Seen?
    ensures exists plans :: DecidedOn(plans, outcome)
    ensures outcome.cheapest.cost <= Limit(RejectedPlain().budget) < PlanCost(RejectedPlain(), LUNCH, [RICE])
  {
    var optimizer := new PlanOptimizer(RejectedPlain(), 4);
    outcome := optimizer.Optimize(LUNCH, CANDIDATES);
    assert OptionsAt(CANDIDATES, LUNCH[0]) == [RICE, PLAIN];
    RejectionOutweighsBudget(4, optimizer.evaluated, outcome.plan, outcome.overBudget, outcome.cheapest);
    RiceScore();
    assert DecidedOn(optimizer.evaluated, outcome);
  }

  ghost predicate DecidedOn(plans: seq<seq<Recipe>>, outcome: Outcome) {
    && outcome.Chosen?
    && Decided(RejectedPlain(), LUNCH, CANDIDATES, 4, plans, 0, outcome.plan, outcome.overBudget)
    && IsCheapest(RejectedPlain(), LUNCH, plans, outcome.cheapest)
  }
}
