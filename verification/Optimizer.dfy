/**
  The plan optimizer: a greedy start, a bounded first-improvement local search, and the plan that is
  returned or reported over budget.  The seeded shuffle is an arbitrary permutation.
 */
module Optimizer {
  import opened Wrappers
  import opened Collections
  import opened Contracts
  import opened Scheduling
  import opened Demand
  import opened Provisioning
  import opened Costs
  import opened PlanScore
  import opened SearchSpace

  /** A plan with its provision and score. */
  datatype Scored = Scored(recipes: seq<Recipe>, score: real, prov: Provision)

  /** The cheapest whole plan seen so far. */
  datatype Cheapest = NoPlan | Seen(cost: real, recipes: seq<Recipe>, prov: Provision)

  datatype Outcome =
    | Missing(mealTypes: set<string>)
    | Chosen(plan: Scored, overBudget: bool, cheapest: Cheapest)

  ghost predicate IsScored(c: Criteria, slots: seq<MealSlot>, plan: Scored) {
    && |plan.recipes| == |slots|
    && Provisions(c.setting, MealsOf(slots, plan.recipes), plan.prov)
    && plan.score == ScoreOf(c, slots, plan.recipes)
  }

  // ----- Greedy ---------------------------------------------------------------------------------

  ghost function Metric(c: Criteria, slots: seq<MealSlot>, recipes: seq<Recipe>, costOnly: bool): real
    requires |slots| == |recipes|
  {
    if costOnly then PlanCost(c, slots, recipes) else ScoreOf(c, slots, recipes)
  }

  /** The metric of the partial plan that continues `head` with `recipe`. */
  ghost function NextMetric(c: Criteria, slots: seq<MealSlot>, head: seq<Recipe>, recipe: Recipe, costOnly: bool): real
    requires |head| < |slots|
  {
    Metric(c, slots[..|head| + 1], head + [recipe], costOnly)
  }

  /** `recipe` has the least (metric, id) among the options for the next slot. */
  ghost predicate IsNext(c: Criteria, slots: seq<MealSlot>, options: seq<Recipe>, head: seq<Recipe>, costOnly: bool, recipe: Recipe)
    requires |head| < |slots|
  {
    && recipe in options
    && forall r | r in options ::
         !KeyBefore(NextMetric(c, slots, head, r, costOnly), r.recipeId,
                    NextMetric(c, slots, head, recipe, costOnly), recipe.recipeId)
  }

  /** With one more option the better of it and the best so far is best. */
  lemma {:induction false} NextStep(c: Criteria, slots: seq<MealSlot>, options: seq<Recipe>, head: seq<Recipe>, costOnly: bool,
                                    best: Recipe, recipe: Recipe)
    requires |head| < |slots| && IsNext(c, slots, options, head, costOnly, best)
    ensures IsNext(c, slots, options + [recipe], head, costOnly,
                   if KeyBefore(NextMetric(c, slots, head, recipe, costOnly), recipe.recipeId,
                                NextMetric(c, slots, head, best, costOnly), best.recipeId)
                   then recipe else best)
  {
  }

  ghost predicate IsGreedy(c: Criteria, slots: seq<MealSlot>, feasible: Feasible, costOnly: bool, chosen: seq<Recipe>) {
    && |chosen| <= |slots|
    && forall i | 0 <= i < |chosen| :: IsNext(c, slots, OptionsAt(feasible, slots[i]), chosen[..i], costOnly, chosen[i])
  }

  ghost predicate DistinctIds(options: seq<Recipe>) {
    forall r, s | r in options && s in options :: r.recipeId == s.recipeId ==> r == s
  }

  /** With distinct ids, the greedy plan is the same for every order of exploration. */
  lemma {:induction false} GreedyIsUnique(c: Criteria, slots: seq<MealSlot>, feasible: Feasible, costOnly: bool,
                       chosen: seq<Recipe>, chosen': seq<Recipe>)
    requires forall i | 0 <= i < |slots| :: DistinctIds(OptionsAt(feasible, slots[i]))
    requires IsGreedy(c, slots, feasible, costOnly, chosen) && IsGreedy(c, slots, feasible, costOnly, chosen')
    requires |chosen| == |chosen'|
    ensures chosen == chosen'
  {
    if chosen != chosen' {
      var n := FirstDifference(chosen, chosen');
      NextIsUnique(c, slots, OptionsAt(feasible, slots[n]), chosen[..n], costOnly, chosen[n], chosen'[n]);
    }
  }

  lemma {:induction false} NextIsUnique(c: Criteria, slots: seq<MealSlot>, options: seq<Recipe>, head: seq<Recipe>, costOnly: bool, a: Recipe, b: Recipe)
    requires |head| < |slots| && DistinctIds(options)
    requires IsNext(c, slots, options, head, costOnly, a) && IsNext(c, slots, options, head, costOnly, b)
    ensures a == b
  {
    assert a.recipeId == b.recipeId;
  }

  /** The options in an arbitrary order. */
  method Ordered(options: seq<Recipe>) returns (ordered: seq<Recipe>)
    ensures multiset(ordered) == multiset(options)
    ensures forall r :: r in ordered <==> r in options
  {
    ordered := [];
    var rest := options;
    while rest != []
      invariant multiset(ordered) + multiset(rest) == multiset(options)
      decreases |rest|
    {
      var i: nat :| i < |rest|;
      RemoveAtMultiset(rest, i);
      ordered, rest := ordered + [rest[i]], RemoveAt(rest, i);
    }
    SamePermutationMembers(ordered, options);
  }

  // ----- Local search ---------------------------------------------------------------------------

  /** No other option for slot `i` has a smaller (score, id) key. */
  ghost predicate SlotOptimal(c: Criteria, slots: seq<MealSlot>, options: seq<Recipe>, recipes: seq<Recipe>, i: nat)
    requires |recipes| == |slots| && i < |slots|
  {
    forall r | r in options && r.recipeId != recipes[i].recipeId :: NotBetter(c, slots, recipes, i, r)
  }

  ghost predicate NotBetter(c: Criteria, slots: seq<MealSlot>, recipes: seq<Recipe>, i: nat, r: Recipe)
    requires |recipes| == |slots| && i < |slots|
  {
    !KeyBefore(ScoreOf(c, slots, recipes[i := r]), r.recipeId, ScoreOf(c, slots, recipes), recipes[i].recipeId)
  }

  /** No single swap has a smaller key. */
  ghost predicate LocallyOptimal(c: Criteria, slots: seq<MealSlot>, feasible: Feasible, recipes: seq<Recipe>)
    requires |recipes| == |slots|
  {
    forall i | 0 <= i < |slots| :: SlotOptimal(c, slots, OptionsAt(feasible, slots[i]), recipes, i)
  }

  /** Every swap of slot `i` is among the plans. */
  ghost predicate Tried(plans: seq<seq<Recipe>>, options: seq<Recipe>, recipes: seq<Recipe>, i: nat)
    requires i < |recipes|
  {
    forall r | r in options && r.recipeId != recipes[i].recipeId :: recipes[i := r] in plans
  }

  ghost predicate AllTried(slots: seq<MealSlot>, feasible: Feasible, plans: seq<seq<Recipe>>, recipes: seq<Recipe>)
    requires |recipes| == |slots|
  {
    forall i | 0 <= i < |slots| :: Tried(plans, OptionsAt(feasible, slots[i]), recipes, i)
  }

  /** The plans from position `from` on are assignments, and none of them scores below `score`. */
  ghost predicate NoneBelow(c: Criteria, slots: seq<MealSlot>, feasible: Feasible, plans: seq<seq<Recipe>>, from: nat, score: real) {
    && from <= |plans|
    && forall k | from <= k < |plans| :: IsAssignment(slots, feasible, plans[k]) && score <= ScoreOf(c, slots, plans[k])
  }

  lemma {:induction false} NoneBelowExtends(c: Criteria, slots: seq<MealSlot>, feasible: Feasible, plans: seq<seq<Recipe>>, plans': seq<seq<Recipe>>,
                         from: nat, score: real, score': real)
    requires NoneBelow(c, slots, feasible, plans, from, score) && plans <= plans' && score' <= score
    requires NoneBelow(c, slots, feasible, plans', |plans|, score')
    ensures NoneBelow(c, slots, feasible, plans', from, score')
  {
  }

  /** The state of the swaps of slot `i`: the options in `tried` were evaluated and none of them is better. */
  ghost predicate Scanned(c: Criteria, slots: seq<MealSlot>, feasible: Feasible, i: nat, tried: seq<Recipe>, best: Scored,
                          plans: seq<seq<Recipe>>, from: nat)
    requires |best.recipes| == |slots| && i < |slots|
  {
    && NoneBelow(c, slots, feasible, plans, from, best.score)
    && SlotOptimal(c, slots, tried, best.recipes, i)
    && Tried(plans, tried, best.recipes, i)
  }

  lemma {:induction false} ScanSame(c: Criteria, slots: seq<MealSlot>, feasible: Feasible, i: nat, tried: seq<Recipe>, best: Scored,
                 plans: seq<seq<Recipe>>, from: nat, recipe: Recipe)
    requires |best.recipes| == |slots| && i < |slots| && recipe.recipeId == best.recipes[i].recipeId
    requires Scanned(c, slots, feasible, i, tried, best, plans, from)
    ensures Scanned(c, slots, feasible, i, tried + [recipe], best, plans, from)
  {
  }

  lemma {:induction false} TriedStep(plans: seq<seq<Recipe>>, tried: seq<Recipe>, recipes: seq<Recipe>, i: nat, recipe: Recipe)
    requires i < |recipes| && Tried(plans, tried, recipes, i)
    ensures Tried(plans + [recipes[i := recipe]], tried + [recipe], recipes, i)
  {
  }

  lemma {:induction false} NoneBelowStep(c: Criteria, slots: seq<MealSlot>, feasible: Feasible, plans: seq<seq<Recipe>>, from: nat,
                      score: real, plan: seq<Recipe>)
    requires NoneBelow(c, slots, feasible, plans, from, score) && IsAssignment(slots, feasible, plan)
    requires score <= ScoreOf(c, slots, plan)
    ensures NoneBelow(c, slots, feasible, plans + [plan], from, score)
  {
  }

  lemma {:induction false} ScanWorse(c: Criteria, slots: seq<MealSlot>, feasible: Feasible, i: nat, tried: seq<Recipe>, best: Scored,
                  plans: seq<seq<Recipe>>, from: nat, recipe: Recipe)
    requires IsScored(c, slots, best) && i < |slots|
    requires IsAssignment(slots, feasible, best.recipes[i := recipe])
    requires Scanned(c, slots, feasible, i, tried, best, plans, from) && NotBetter(c, slots, best.recipes, i, recipe)
    ensures Scanned(c, slots, feasible, i, tried + [recipe], best, plans + [best.recipes[i := recipe]], from)
  {
    TriedStep(plans, tried, best.recipes, i, recipe);
    NoneBelowStep(c, slots, feasible, plans, from, best.score, best.recipes[i := recipe]);
  }

  lemma {:induction false} ScanBetter(c: Criteria, slots: seq<MealSlot>, feasible: Feasible, plans: seq<seq<Recipe>>, from: nat,
                   score: real, plan: seq<Recipe>)
    requires NoneBelow(c, slots, feasible, plans, from, score) && IsAssignment(slots, feasible, plan)
    requires ScoreOf(c, slots, plan) <= score
    ensures NoneBelow(c, slots, feasible, plans + [plan], from, ScoreOf(c, slots, plan))
  {
  }

  /** What one slot of a pass does to the best plan. */
  ghost predicate SwapsAt(c: Criteria, slots: seq<MealSlot>, i: nat, best: Scored, next: Scored)
    requires |best.recipes| == |slots| && i < |slots|
  {
    && |next.recipes| == |slots|
    && next.recipes == best.recipes[i := next.recipes[i]]
    && KeyBefore(next.score, next.recipes[i].recipeId, best.score, best.recipes[i].recipeId)
  }

  /** The tracked plan is one of the plans, with its provision and cost, and none of them costs less. */
  ghost predicate IsCheapest(c: Criteria, slots: seq<MealSlot>, plans: seq<seq<Recipe>>, cheapest: Cheapest) {
    && (forall k | 0 <= k < |plans| :: |plans[k]| == |slots|)
    && match cheapest
       case NoPlan => plans == []
       case Seen(cost, recipes, prov) =>
         && recipes in plans && |recipes| == |slots|
         && Provisions(c.setting, MealsOf(slots, recipes), prov)
         && cost == PlanCost(c, slots, recipes)
         && forall k | 0 <= k < |plans| :: cost <= PlanCost(c, slots, plans[k])
  }

  class PlanOptimizer {
    const c: Criteria
    const maxPasses: nat
    var cheapest: Cheapest
    /** Every whole plan that was evaluated. */
    ghost var evaluated: seq<seq<Recipe>>

    constructor (c: Criteria, maxPasses: nat)
      ensures this.c == c && this.maxPasses == maxPasses
      ensures cheapest == NoPlan && evaluated == []
    {
      this.c := c;
      this.maxPasses := maxPasses;
      cheapest := NoPlan;
      evaluated := [];
    }

    /** The tracked plan is the cheapest of the evaluated ones. */
    ghost predicate Tracks(slots: seq<MealSlot>)
      reads this
    {
      IsCheapest(c, slots, evaluated, cheapest)
    }

    method TrackCheapest(slots: seq<MealSlot>, recipes: seq<Recipe>, prov: Provision)
      requires Tracks(slots) && |recipes| == |slots|
      requires Provisions(c.setting, MealsOf(slots, recipes), prov)
      modifies this
      ensures Tracks(slots) && evaluated == old(evaluated) + [recipes]
    {
      CostIsUnique(c.setting, MealsOf(slots, recipes), prov);
      if cheapest.NoPlan? || prov.CostTotal() < cheapest.cost {
        cheapest := Seen(prov.CostTotal(), recipes, prov);
      }
      evaluated := evaluated + [recipes];
    }

    method Evaluate(slots: seq<MealSlot>, recipes: seq<Recipe>) returns (plan: Scored)
      requires Tracks(slots) && |recipes| == |slots|
      modifies this
      ensures Tracks(slots) && evaluated == old(evaluated) + [recipes]
      ensures IsScored(c, slots, plan) && plan.recipes == recipes
    {
      var prov := Provide(c.setting, MealsOf(slots, recipes));
      TrackCheapest(slots, recipes, prov);
      var score := Score(c, slots, recipes, prov);
      plan := Scored(recipes, score, prov);
    }

    method MeasureNext(slots: seq<MealSlot>, head: seq<Recipe>, recipe: Recipe, costOnly: bool) returns (metric: real)
      requires |head| < |slots|
      ensures metric == NextMetric(c, slots, head, recipe, costOnly)
    {
      var trial := head + [recipe];
      var prov := Provide(c.setting, MealsOf(slots[..|trial|], trial));
      if costOnly {
        CostIsUnique(c.setting, MealsOf(slots[..|trial|], trial), prov);
        metric := prov.CostTotal();
      } else {
        metric := Score(c, slots[..|trial|], trial, prov);
      }
    }

    /** One slot of the greedy pass. */
    method PickNext(slots: seq<MealSlot>, options: seq<Recipe>, head: seq<Recipe>, costOnly: bool) returns (best: Recipe)
      requires |head| < |slots| && options != []
      ensures IsNext(c, slots, options, head, costOnly, best)
    {
      var ordered := Ordered(options);
      SamePermutationMembers(ordered, options);
      best := ordered[0];
      var bestMetric := MeasureNext(slots, head, best, costOnly);
      for j := 1 to |ordered|
        invariant bestMetric == NextMetric(c, slots, head, best, costOnly)
        invariant IsNext(c, slots, ordered[..j], head, costOnly, best)
      {
        PrefixStep(ordered, j);
        NextStep(c, slots, ordered[..j], head, costOnly, best, ordered[j]);
        var metric := MeasureNext(slots, head, ordered[j], costOnly);
        if KeyBefore(metric, ordered[j].recipeId, bestMetric, best.recipeId) {
          best, bestMetric := ordered[j], metric;
        }
      }
      FullPrefix(ordered);
    }

    method Greedy(slots: seq<MealSlot>, feasible: Feasible, costOnly: bool) returns (chosen: seq<Recipe>)
      requires forall i | 0 <= i < |slots| :: OptionsAt(feasible, slots[i]) != []
      ensures IsGreedy(c, slots, feasible, costOnly, chosen) && IsAssignment(slots, feasible, chosen)
    {
      chosen := [];
      for i := 0 to |slots|
        invariant |chosen| == i && IsGreedy(c, slots, feasible, costOnly, chosen)
      {
        var best := PickNext(slots, OptionsAt(feasible, slots[i]), chosen, costOnly);
        GreedyStep(c, slots, feasible, costOnly, chosen, best);
        chosen := chosen + [best];
      }
    }

    /** Evaluates one swap of a slot. */
    method TrySwap(slots: seq<MealSlot>, feasible: Feasible, i: nat, best: Scored, recipe: Recipe, ghost tried: seq<Recipe>, ghost from: nat)
      returns (trial: Scored, better: bool)
      requires Tracks(slots) && i < |slots| && IsScored(c, slots, best) && IsAssignment(slots, feasible, best.recipes)
      requires recipe in OptionsAt(feasible, slots[i]) && Scanned(c, slots, feasible, i, tried, best, evaluated, from)
      modifies this
      ensures Tracks(slots) && old(evaluated) <= evaluated
      ensures !better ==> Scanned(c, slots, feasible, i, tried + [recipe], best, evaluated, from)
      ensures better ==>
        && IsScored(c, slots, trial) && trial.recipes[i] == recipe && SwapsAt(c, slots, i, best, trial)
        && EvaluatedFrom(evaluated, |old(evaluated)|, trial.recipes)
        && NoneBelow(c, slots, feasible, evaluated, from, trial.score)
    {
      if recipe.recipeId == best.recipes[i].recipeId {
        ScanSame(c, slots, feasible, i, tried, best, evaluated, from, recipe);
        return best, false;
      }
      ghost var before := evaluated;
      SwapKeepsAssignment(slots, feasible, best.recipes, i, recipe);
      trial := Evaluate(slots, best.recipes[i := recipe]);
      better := KeyBefore(trial.score, recipe.recipeId, best.score, best.recipes[i].recipeId);
      if better {
        assert evaluated[|before|] == trial.recipes;
        ScanBetter(c, slots, feasible, before, from, best.score, trial.recipes);
      } else {
        ScanWorse(c, slots, feasible, i, tried, best, before, from, recipe);
      }
    }

    /** The swaps of one slot: the first one with a smaller key is taken. */
    method TrySlot(slots: seq<MealSlot>, feasible: Feasible, i: nat, best: Scored) returns (next: Scored, improved: bool)
      requires Tracks(slots) && i < |slots| && IsScored(c, slots, best) && IsAssignment(slots, feasible, best.recipes)
      modifies this
      ensures Tracks(slots) && IsScored(c, slots, next)
      ensures old(evaluated) <= evaluated
      ensures improved ==> SwapsAt(c, slots, i, best, next) && next.recipes[i] in OptionsAt(feasible, slots[i])
      ensures improved ==> NoneBelow(c, slots, feasible, evaluated, |old(evaluated)|, next.score)
      ensures improved ==> EvaluatedFrom(evaluated, |old(evaluated)|, next.recipes)
      ensures !improved ==> next == best
      ensures !improved ==> Scanned(c, slots, feasible, i, OptionsAt(feasible, slots[i]), best, evaluated, |old(evaluated)|)
    {
      var ordered := Ordered(OptionsAt(feasible, slots[i]));
      for j := 0 to |ordered|
        invariant Tracks(slots)
        invariant old(evaluated) <= evaluated && Scanned(c, slots, feasible, i, ordered[..j], best, evaluated, |old(evaluated)|)
      {
        PrefixStep(ordered, j);
        ghost var before := evaluated;
        var trial, better := TrySwap(slots, feasible, i, best, ordered[j], ordered[..j], |old(evaluated)|);
        if better {
          EvaluatedEarlier(evaluated, |old(evaluated)|, |before|, trial.recipes);
          return trial, true;
        }
      }
      FullPrefix(ordered);
      next, improved := best, false;
    }
  
    /** One pass over the slots. */
    method Pass(slots: seq<MealSlot>, feasible: Feasible, start: Scored, ghost visited0: seq<seq<Recipe>>, ghost from: nat)
      returns (best: Scored, improved: bool, ghost visited: seq<seq<Recipe>>)
      requires Tracks(slots) && IsScored(c, slots, start) && Reached(c, slots, feasible, visited0, start)
      requires NoneBelow(c, slots, feasible, evaluated, from, start.score) && EvaluatedFrom(evaluated, from, start.recipes)
      modifies this
      ensures Tracks(slots) && IsScored(c, slots, best) && Reached(c, slots, feasible, visited, best)
      ensures old(evaluated) <= evaluated && NoneBelow(c, slots, feasible, evaluated, from, best.score)
      ensures EvaluatedFrom(evaluated, from, best.recipes)
      ensures visited0 <= visited && (improved ==> |visited0| < |visited|)
      ensures !improved ==> best == start && Optimal(c, slots, feasible, |slots|, best, evaluated)
    {
      best, improved, visited := start, false, visited0;
      for i := 0 to |slots|
        invariant Tracks(slots) && IsScored(c, slots, best) && Reached(c, slots, feasible, visited, best)
        invariant old(evaluated) <= evaluated && NoneBelow(c, slots, feasible, evaluated, from, best.score)
        invariant EvaluatedFrom(evaluated, from, best.recipes)
        invariant visited0 <= visited && (improved ==> |visited0| < |visited|)
        invariant !improved ==> best == start && Optimal(c, slots, feasible, i, best, evaluated)
      {
        ghost var before := evaluated;
        var next, swapped := TrySlot(slots, feasible, i, best);
        EvaluatedLater(before, evaluated, from, best.recipes);
        if swapped {
          ReachedStep(c, slots, feasible, visited, best, i, next);
          EvaluatedEarlier(evaluated, from, |before|, next.recipes);
          NoneBelowExtends(c, slots, feasible, before, evaluated, from, best.score, next.score);
          best, improved, visited := next, true, visited + [next.recipes];
        } else {
          NoneBelowExtends(c, slots, feasible, before, evaluated, from, best.score, best.score);
          if !improved {
            OptimalStep(c, slots, feasible, i, best, before, evaluated);
          }
        }
      }
    }

    /**
      The local search from `chosen`.  `visited` is the run of accepted plans; `converged` tells that the
      last pass found no improvement.
     */
    method LocalSearch(slots: seq<MealSlot>, feasible: Feasible, chosen: seq<Recipe>)
      returns (best: Scored, ghost visited: seq<seq<Recipe>>, ghost converged: bool)
      requires Tracks(slots) && IsAssignment(slots, feasible, chosen)
      modifies this
      ensures Tracks(slots) && old(evaluated) + [chosen] <= evaluated
      ensures IsScored(c, slots, best) && NoneBelow(c, slots, feasible, evaluated, |old(evaluated)|, best.score)
      ensures Reached(c, slots, feasible, visited, best) && visited[0] == chosen
      ensures |visited| <= AssignmentCount(slots, feasible)
      ensures converged ==> Optimal(c, slots, feasible, |slots|, best, evaluated)
      ensures converged || |visited| > maxPasses
      ensures EvaluatedFrom(evaluated, |old(evaluated)|, best.recipes)
      ensures AssignmentCount(slots, feasible) <= maxPasses ==> converged
    {
      best := Evaluate(slots, chosen);
      SearchStarts(c, slots, feasible, best, old(evaluated));
      assert evaluated[|old(evaluated)|] == chosen;
      visited, converged := [chosen], false;
      for k := 0 to maxPasses
        invariant Tracks(slots) && old(evaluated) + [chosen] <= evaluated
        invariant IsScored(c, slots, best) && NoneBelow(c, slots, feasible, evaluated, |old(evaluated)|, best.score)
        invariant EvaluatedFrom(evaluated, |old(evaluated)|, best.recipes)
        invariant Reached(c, slots, feasible, visited, best) && visited[0] == chosen
        invariant k < |visited| && !converged
      {
        var improved;
        best, improved, visited := Pass(slots, feasible, best, visited, |old(evaluated)|);
        if !improved {
          converged := true;
          break;
        }
      }
      DescentIsShort(c, slots, feasible, visited);
    }

    /** A local search from a greedy start. */
    method Search(slots: seq<MealSlot>, feasible: Feasible, costOnly: bool) returns (plan: Scored)
      requires Tracks(slots) && forall i | 0 <= i < |slots| :: OptionsAt(feasible, slots[i]) != []
      modifies this
      ensures Tracks(slots) && old(evaluated) < evaluated
      ensures ResultOf(c, slots, feasible, maxPasses, costOnly, evaluated, |old(evaluated)|, plan)
      ensures plan.prov.CostTotal() <= Limit(c.budget) <==> FitsPlan(c, slots, plan)
      ensures AllAssignments(slots, feasible, evaluated, |old(evaluated)|)
      ensures !FitsPlan(c, slots, plan) && PenaltyDominates(c, slots, feasible) ==> NoneFits(c, slots, evaluated, |old(evaluated)|)
    {
      var chosen := Greedy(slots, feasible, costOnly);
      ghost var visited, converged;
      plan, visited, converged := LocalSearch(slots, feasible, chosen);
      assert evaluated[|old(evaluated)|] == chosen;
      IsResult(c, slots, feasible, maxPasses, costOnly, evaluated, |old(evaluated)|, visited, plan);
      ResultIsAssignment(c, slots, feasible, maxPasses, costOnly, evaluated, |old(evaluated)|, plan);
      SearchFailed(c, slots, feasible, plan, evaluated, |old(evaluated)|);
    }

    /**
      The plan returned, or the reason why there is none.  The variety-seeded search decides if its plan
      fits, then the cost-seeded one; only if neither plan fits is the outcome over budget.
     */
    method Optimize(slots: seq<MealSlot>, feasible: Feasible) returns (outcome: Outcome)
      requires Tracks(slots)
      modifies this
      ensures Tracks(slots) && old(evaluated) <= evaluated
      ensures outcome.Missing? <==> exists i | 0 <= i < |slots| :: OptionsAt(feasible, slots[i]) == []
      ensures outcome.Missing? ==> outcome.mealTypes == MissingTypes(slots, feasible)
      ensures outcome.Chosen? ==> outcome.cheapest == cheapest && cheapest.Seen?
      ensures outcome.Chosen? ==>
        Decided(c, slots, feasible, maxPasses, evaluated, |old(evaluated)|, outcome.plan, outcome.overBudget)
    {
      if exists i :: 0 <= i < |slots| && OptionsAt(feasible, slots[i]) == [] {
        return Missing(MissingTypes(slots, feasible));
      }
      var plan := Search(slots, feasible, false);
      if plan.prov.CostTotal() <= Limit(c.budget) {
        return Chosen(plan, false, cheapest);
      }
      ghost var first := evaluated;
      var fit := Search(slots, feasible, true);
      SecondDecides(c, slots, feasible, maxPasses, first, evaluated, |old(evaluated)|, plan, fit);
      if fit.prov.CostTotal() <= Limit(c.budget) {
        return Chosen(fit, false, cheapest);
      }
      outcome := Chosen(plan, true, cheapest);
    }
  }

  /** What every search returns: a feasible plan with its own provision, cost and score. */
  ghost predicate Found(c: Criteria, slots: seq<MealSlot>, feasible: Feasible, plan: Scored) {
    && IsScored(c, slots, plan)
    && IsAssignment(slots, feasible, plan.recipes)
    && plan.prov.CostTotal() == PlanCost(c, slots, plan.recipes)
  }

  /**
    `plan` is what the local search makes of the greedy plan `visited[0]`, evaluated at or after position
    `from`: the accepted plans descend, and unless every pass accepted one, no swap of `plan` is better.
   */
  ghost predicate Searched(c: Criteria, slots: seq<MealSlot>, feasible: Feasible, maxPasses: nat, costOnly: bool,
                           plans: seq<seq<Recipe>>, from: nat, visited: seq<seq<Recipe>>, plan: Scored) {
    && Found(c, slots, feasible, plan)
    && Reached(c, slots, feasible, visited, plan)
    && IsGreedy(c, slots, feasible, costOnly, visited[0])
    && EvaluatedFrom(plans, from, visited[0]) && EvaluatedFrom(plans, from, plan.recipes)
    && (|visited| > maxPasses || Optimal(c, slots, feasible, |slots|, plan, plans))
  }

  ghost predicate AllAssignments(slots: seq<MealSlot>, feasible: Feasible, plans: seq<seq<Recipe>>, from: nat) {
    forall k | from <= k < |plans| :: IsAssignment(slots, feasible, plans[k])
  }

  ghost predicate EvaluatedFrom(plans: seq<seq<Recipe>>, from: nat, recipes: seq<Recipe>) {
    exists k | from <= k < |plans| :: plans[k] == recipes
  }

  ghost predicate ResultOf(c: Criteria, slots: seq<MealSlot>, feasible: Feasible, maxPasses: nat, costOnly: bool,
                           plans: seq<seq<Recipe>>, from: nat, plan: Scored) {
    exists visited :: Searched(c, slots, feasible, maxPasses, costOnly, plans, from, visited, plan)
  }

  /** The result of a search exists, and it does not fit. */
  ghost predicate Overshoots(c: Criteria, slots: seq<MealSlot>, feasible: Feasible, maxPasses: nat, costOnly: bool,
                             plans: seq<seq<Recipe>>, from: nat) {
    exists plan :: ResultOf(c, slots, feasible, maxPasses, costOnly, plans, from, plan) && !FitsPlan(c, slots, plan)
  }

  ghost predicate FitsPlan(c: Criteria, slots: seq<MealSlot>, plan: Scored) {
    |plan.recipes| == |slots| && Fits(c, slots, plan.recipes)
  }

  /** Which plan is returned: the variety-seeded one if it fits, else the cost-seeded one if that fits, else over budget. */
  ghost predicate Decided(c: Criteria, slots: seq<MealSlot>, feasible: Feasible, maxPasses: nat, plans: seq<seq<Recipe>>, from: nat,
                          plan: Scored, overBudget: bool) {
    AllAssignments(slots, feasible, plans, from) &&
    if overBudget then
      && ResultOf(c, slots, feasible, maxPasses, false, plans, from, plan) && !FitsPlan(c, slots, plan)
      && Overshoots(c, slots, feasible, maxPasses, true, plans, from)
      && (PenaltyDominates(c, slots, feasible) ==> NoneFits(c, slots, plans, from))
    else
      && FitsPlan(c, slots, plan)
      && (|| ResultOf(c, slots, feasible, maxPasses, false, plans, from, plan)
          || (&& ResultOf(c, slots, feasible, maxPasses, true, plans, from, plan)
              && Overshoots(c, slots, feasible, maxPasses, false, plans, from)))
  }

  lemma {:induction false} IsResult(c: Criteria, slots: seq<MealSlot>, feasible: Feasible, maxPasses: nat, costOnly: bool,
                                    plans: seq<seq<Recipe>>, from: nat, visited: seq<seq<Recipe>>, plan: Scored)
    requires IsScored(c, slots, plan) && Reached(c, slots, feasible, visited, plan)
    requires IsGreedy(c, slots, feasible, costOnly, visited[0]) && from < |plans| && plans[from] == visited[0]
    requires EvaluatedFrom(plans, from, plan.recipes)
    requires |visited| > maxPasses || Optimal(c, slots, feasible, |slots|, plan, plans)
    ensures ResultOf(c, slots, feasible, maxPasses, costOnly, plans, from, plan)
    ensures plan.prov.CostTotal() <= Limit(c.budget) <==> FitsPlan(c, slots, plan)
  {
    CostIsUnique(c.setting, MealsOf(slots, plan.recipes), plan.prov);
    assert IsAssignment(slots, feasible, visited[|visited| - 1]);
    assert Searched(c, slots, feasible, maxPasses, costOnly, plans, from, visited, plan);
  }

  lemma {:induction false} ResultIsAssignment(c: Criteria, slots: seq<MealSlot>, feasible: Feasible, maxPasses: nat, costOnly: bool,
                                              plans: seq<seq<Recipe>>, from: nat, plan: Scored)
    requires ResultOf(c, slots, feasible, maxPasses, costOnly, plans, from, plan)
    ensures Found(c, slots, feasible, plan)
  {
    var visited :| Searched(c, slots, feasible, maxPasses, costOnly, plans, from, visited, plan);
  }

  lemma {:induction false} ResultEvaluated(c: Criteria, slots: seq<MealSlot>, feasible: Feasible, maxPasses: nat, costOnly: bool,
                                           plans: seq<seq<Recipe>>, from: nat, plan: Scored)
    requires ResultOf(c, slots, feasible, maxPasses, costOnly, plans, from, plan)
    ensures plan.recipes in plans
  {
    var visited :| Searched(c, slots, feasible, maxPasses, costOnly, plans, from, visited, plan);
    var k :| from <= k < |plans| && plans[k] == plan.recipes;
  }

  /** After both searches, the second result decides. */
  lemma {:induction false} SecondDecides(c: Criteria, slots: seq<MealSlot>, feasible: Feasible, maxPasses: nat,
                                         first: seq<seq<Recipe>>, plans: seq<seq<Recipe>>, from: nat, plan: Scored, fit: Scored)
    requires from <= |first| && first <= plans
    requires ResultOf(c, slots, feasible, maxPasses, false, first, from, plan) && !FitsPlan(c, slots, plan)
    requires ResultOf(c, slots, feasible, maxPasses, true, plans, |first|, fit)
    requires AllAssignments(slots, feasible, first, from) && AllAssignments(slots, feasible, plans, |first|)
    requires PenaltyDominates(c, slots, feasible) ==> NoneFits(c, slots, first, from)
    requires !FitsPlan(c, slots, fit) && PenaltyDominates(c, slots, feasible) ==> NoneFits(c, slots, plans, |first|)
    ensures FitsPlan(c, slots, fit) ==> Decided(c, slots, feasible, maxPasses, plans, from, fit, false)
    ensures !FitsPlan(c, slots, fit) ==> Decided(c, slots, feasible, maxPasses, plans, from, plan, true)
  {
    ResultLater(c, slots, feasible, maxPasses, false, first, plans, from, plan);
    ResultEarlier(c, slots, feasible, maxPasses, true, plans, from, |first|, fit);
    NoneFitsTogether(c, slots, from, first, plans);
    AssignmentsTogether(slots, feasible, from, first, plans);
  }

  lemma {:induction false} AssignmentsTogether(slots: seq<MealSlot>, feasible: Feasible, from: nat, first: seq<seq<Recipe>>, plans: seq<seq<Recipe>>)
    requires from <= |first| && first <= plans
    requires AllAssignments(slots, feasible, first, from) && AllAssignments(slots, feasible, plans, |first|)
    ensures AllAssignments(slots, feasible, plans, from)
  {
  }

  lemma {:induction false} EvaluatedLater(plans: seq<seq<Recipe>>, plans': seq<seq<Recipe>>, from: nat, recipes: seq<Recipe>)
    requires plans <= plans' && EvaluatedFrom(plans, from, recipes)
    ensures EvaluatedFrom(plans', from, recipes)
  {
    var k :| from <= k < |plans| && plans[k] == recipes;
    assert plans'[k] == recipes;
  }

  lemma {:induction false} EvaluatedEarlier(plans: seq<seq<Recipe>>, from: nat, later: nat, recipes: seq<Recipe>)
    requires from <= later && EvaluatedFrom(plans, later, recipes)
    ensures EvaluatedFrom(plans, from, recipes)
  {
    var k :| later <= k < |plans| && plans[k] == recipes;
  }

  lemma {:induction false} ResultLater(c: Criteria, slots: seq<MealSlot>, feasible: Feasible, maxPasses: nat, costOnly: bool,
                                       plans: seq<seq<Recipe>>, plans': seq<seq<Recipe>>, from: nat, plan: Scored)
    requires plans <= plans' && ResultOf(c, slots, feasible, maxPasses, costOnly, plans, from, plan)
    ensures ResultOf(c, slots, feasible, maxPasses, costOnly, plans', from, plan)
  {
    var visited :| Searched(c, slots, feasible, maxPasses, costOnly, plans, from, visited, plan);
    EvaluatedLater(plans, plans', from, visited[0]);
    EvaluatedLater(plans, plans', from, plan.recipes);
    if |visited| <= maxPasses {
      forall i | 0 <= i < |slots| ensures OptimalAt(c, slots, feasible, i, plan, plans') {
        OptimalLater(c, slots, feasible, i, plan, plans, plans');
      }
    }
    assert Searched(c, slots, feasible, maxPasses, costOnly, plans', from, visited, plan);
  }

  lemma {:induction false} ResultEarlier(c: Criteria, slots: seq<MealSlot>, feasible: Feasible, maxPasses: nat, costOnly: bool,
                                         plans: seq<seq<Recipe>>, from: nat, later: nat, plan: Scored)
    requires from <= later && ResultOf(c, slots, feasible, maxPasses, costOnly, plans, later, plan)
    ensures ResultOf(c, slots, feasible, maxPasses, costOnly, plans, from, plan)
  {
    var visited :| Searched(c, slots, feasible, maxPasses, costOnly, plans, later, visited, plan);
    EvaluatedEarlier(plans, from, later, visited[0]);
    EvaluatedEarlier(plans, from, later, plan.recipes);
    assert Searched(c, slots, feasible, maxPasses, costOnly, plans, from, visited, plan);
  }

  /** The plan that is chosen within budget is feasible, with its own provision, and its cost fits. */
  lemma {:induction false} DecidedIsFound(c: Criteria, slots: seq<MealSlot>, feasible: Feasible, maxPasses: nat,
                                          plans: seq<seq<Recipe>>, from: nat, plan: Scored)
    requires Decided(c, slots, feasible, maxPasses, plans, from, plan, false)
    ensures Found(c, slots, feasible, plan) && plan.prov.CostTotal() <= Limit(c.budget)
  {
    var costOnly := !ResultOf(c, slots, feasible, maxPasses, false, plans, from, plan);
    ResultIsAssignment(c, slots, feasible, maxPasses, costOnly, plans, from, plan);
  }

  /** With as many passes as there are assignments, no single swap improves the result. */
  lemma {:induction false} EnoughPasses(c: Criteria, slots: seq<MealSlot>, feasible: Feasible, maxPasses: nat, costOnly: bool,
                                        plans: seq<seq<Recipe>>, from: nat, plan: Scored)
    requires ResultOf(c, slots, feasible, maxPasses, costOnly, plans, from, plan)
    requires AssignmentCount(slots, feasible) <= maxPasses
    ensures |plan.recipes| == |slots| && LocallyOptimal(c, slots, feasible, plan.recipes) && AllTried(slots, feasible, plans, plan.recipes)
  {
    var visited :| Searched(c, slots, feasible, maxPasses, costOnly, plans, from, visited, plan);
    DescentIsShort(c, slots, feasible, visited);
    OptimalEverywhere(c, slots, feasible, plan, plans);
  }

  /** With distinct ids, the greedy plan is the start of the search, and so it was evaluated. */
  lemma {:induction false} GreedyEvaluated(c: Criteria, slots: seq<MealSlot>, feasible: Feasible, maxPasses: nat, costOnly: bool,
                                           plans: seq<seq<Recipe>>, from: nat, result: Scored, greedy: seq<Recipe>)
    requires ResultOf(c, slots, feasible, maxPasses, costOnly, plans, from, result)
    requires forall i | 0 <= i < |slots| :: DistinctIds(OptionsAt(feasible, slots[i]))
    requires |greedy| == |slots| && IsGreedy(c, slots, feasible, costOnly, greedy)
    ensures EvaluatedFrom(plans, from, greedy)
  {
    var visited :| Searched(c, slots, feasible, maxPasses, costOnly, plans, from, visited, result);
    GreedyIsUnique(c, slots, feasible, costOnly, visited[0], greedy);
  }

  /** If the penalty dominates, over budget means that neither greedy plan fits. */
  lemma {:induction false} NoGreedyPlanFits(c: Criteria, slots: seq<MealSlot>, feasible: Feasible, maxPasses: nat,
                                            plans: seq<seq<Recipe>>, from: nat, plan: Scored, costOnly: bool, greedy: seq<Recipe>)
    requires Decided(c, slots, feasible, maxPasses, plans, from, plan, true) && PenaltyDominates(c, slots, feasible)
    requires forall i | 0 <= i < |slots| :: DistinctIds(OptionsAt(feasible, slots[i]))
    requires |greedy| == |slots| && IsGreedy(c, slots, feasible, costOnly, greedy)
    ensures !Fits(c, slots, greedy)
  {
    var result := plan;
    if costOnly {
      result :| ResultOf(c, slots, feasible, maxPasses, true, plans, from, result) && !FitsPlan(c, slots, result);
    }
    GreedyEvaluated(c, slots, feasible, maxPasses, costOnly, plans, from, result, greedy);
    var k :| from <= k < |plans| && plans[k] == greedy;
  }

  lemma {:induction false} NoneFitsTogether(c: Criteria, slots: seq<MealSlot>, from: nat, first: seq<seq<Recipe>>, plans: seq<seq<Recipe>>)
    requires from <= |first| && first <= plans
    ensures NoneFits(c, slots, first, from) && NoneFits(c, slots, plans, |first|) ==> NoneFits(c, slots, plans, from)
  {
  }

  /** The meal types of the slots without a candidate. */
  function MissingTypes(slots: seq<MealSlot>, feasible: Feasible): set<string> {
    set i | 0 <= i < |slots| && OptionsAt(feasible, slots[i]) == [] :: slots[i].mealType
  }

  /** `best` is the last plan of a descending run. */
  ghost predicate Reached(c: Criteria, slots: seq<MealSlot>, feasible: Feasible, visited: seq<seq<Recipe>>, best: Scored) {
    && visited != [] && Descends(c, slots, feasible, visited) && visited[|visited| - 1] == best.recipes
    && OneSwapEach(visited)
  }

  ghost predicate OneSwapEach(visited: seq<seq<Recipe>>) {
    forall j, k | 0 <= j < |visited| && k == j + 1 < |visited| :: IsSwap(visited[j], visited[k])
  }

  lemma {:induction false} OneMoreSwap(visited: seq<seq<Recipe>>, next: seq<Recipe>, i: nat)
    requires visited != [] && OneSwapEach(visited) && DiffersAt(visited[|visited| - 1], next, i)
    ensures OneSwapEach(visited + [next])
  {
  }

  /** The plans differ in one slot at most. */
  ghost predicate IsSwap(before: seq<Recipe>, after: seq<Recipe>) {
    exists i :: DiffersAt(before, after, i)
  }

  ghost predicate DiffersAt(before: seq<Recipe>, after: seq<Recipe>, i: nat) {
    i < |before| == |after| && after == before[i := after[i]]
  }

  lemma {:induction false} SearchStarts(c: Criteria, slots: seq<MealSlot>, feasible: Feasible, best: Scored, plans: seq<seq<Recipe>>)
    requires IsScored(c, slots, best) && IsAssignment(slots, feasible, best.recipes)
    ensures Reached(c, slots, feasible, [best.recipes], best)
    ensures NoneBelow(c, slots, feasible, plans + [best.recipes], |plans|, best.score)
  {
  }

  lemma {:induction false} ReachedStep(c: Criteria, slots: seq<MealSlot>, feasible: Feasible, visited: seq<seq<Recipe>>, best: Scored, i: nat, next: Scored)
    requires IsScored(c, slots, best) && Reached(c, slots, feasible, visited, best) && IsScored(c, slots, next)
    requires i < |slots| && SwapsAt(c, slots, i, best, next) && next.recipes[i] in OptionsAt(feasible, slots[i])
    ensures Reached(c, slots, feasible, visited + [next.recipes], next)
  {
    OneMoreSwap(visited, next.recipes, i);
    SwapKeepsAssignment(slots, feasible, best.recipes, i, next.recipes[i]);
    SwapDescends(c, slots, best.recipes, i, next.recipes[i]);
    DescendsOn(c, slots, feasible, visited, next.recipes);
  }

  /** Slot `i` is optimal and all its swaps were evaluated. */
  ghost predicate OptimalAt(c: Criteria, slots: seq<MealSlot>, feasible: Feasible, i: nat, best: Scored, plans: seq<seq<Recipe>>)
    requires i < |slots| == |best.recipes|
  {
    && SlotOptimal(c, slots, OptionsAt(feasible, slots[i]), best.recipes, i)
    && Tried(plans, OptionsAt(feasible, slots[i]), best.recipes, i)
  }

  /** The first `n` slots are optimal and all their swaps were evaluated. */
  ghost predicate Optimal(c: Criteria, slots: seq<MealSlot>, feasible: Feasible, n: nat, best: Scored, plans: seq<seq<Recipe>>)
    requires n <= |slots| == |best.recipes|
  {
    forall i | 0 <= i < n :: OptimalAt(c, slots, feasible, i, best, plans)
  }

  lemma {:induction false} TriedLater(plans: seq<seq<Recipe>>, plans': seq<seq<Recipe>>, options: seq<Recipe>, recipes: seq<Recipe>, i: nat)
    requires i < |recipes| && plans <= plans' && Tried(plans, options, recipes, i)
    ensures Tried(plans', options, recipes, i)
  {
    forall r | r in options && r.recipeId != recipes[i].recipeId ensures recipes[i := r] in plans' {
      assert recipes[i := r] in plans;
    }
  }

  /** A plan that is optimal at every slot cannot be improved by a single swap, and every such swap was evaluated. */
  lemma {:induction false} OptimalEverywhere(c: Criteria, slots: seq<MealSlot>, feasible: Feasible, best: Scored, plans: seq<seq<Recipe>>)
    requires |slots| == |best.recipes| && Optimal(c, slots, feasible, |slots|, best, plans)
    ensures LocallyOptimal(c, slots, feasible, best.recipes) && AllTried(slots, feasible, plans, best.recipes)
  {
    forall i | 0 <= i < |slots|
      ensures SlotOptimal(c, slots, OptionsAt(feasible, slots[i]), best.recipes, i)
      ensures Tried(plans, OptionsAt(feasible, slots[i]), best.recipes, i)
    {
      assert OptimalAt(c, slots, feasible, i, best, plans);
    }
  }

  lemma {:induction false} OptimalLater(c: Criteria, slots: seq<MealSlot>, feasible: Feasible, i: nat, best: Scored,
                                        plans: seq<seq<Recipe>>, plans': seq<seq<Recipe>>)
    requires i < |slots| == |best.recipes| && plans <= plans'
    requires OptimalAt(c, slots, feasible, i, best, plans)
    ensures OptimalAt(c, slots, feasible, i, best, plans')
  {
    TriedLater(plans, plans', OptionsAt(feasible, slots[i]), best.recipes, i);
  }

  lemma {:induction false} AllOptimalLater(c: Criteria, slots: seq<MealSlot>, feasible: Feasible, n: nat, best: Scored,
                                           plans: seq<seq<Recipe>>, plans': seq<seq<Recipe>>)
    requires n <= |slots| == |best.recipes| && plans <= plans'
    requires Optimal(c, slots, feasible, n, best, plans)
    ensures Optimal(c, slots, feasible, n, best, plans')
  {
    forall i: nat | i < n ensures OptimalAt(c, slots, feasible, i, best, plans') {
      OptimalLater(c, slots, feasible, i, best, plans, plans');
    }
  }

  lemma {:induction false} OptimalStep(c: Criteria, slots: seq<MealSlot>, feasible: Feasible, n: nat, best: Scored,
                                       plans: seq<seq<Recipe>>, plans': seq<seq<Recipe>>)
    requires n < |slots| == |best.recipes| && plans <= plans'
    requires Optimal(c, slots, feasible, n, best, plans)
    requires OptimalAt(c, slots, feasible, n, best, plans')
    ensures Optimal(c, slots, feasible, n + 1, best, plans')
  {
    AllOptimalLater(c, slots, feasible, n, best, plans, plans');
  }

  // ----- One slot, two candidates -----

  lemma {:induction false} CountOfTwo(slot: MealSlot, feasible: Feasible, a: Recipe, b: Recipe)
    requires OptionsAt(feasible, slot) == [a, b]
    ensures AssignmentCount([slot], feasible) == 2
  {
    assert [slot][..0] == [];
  }

  /** The result of a search is the candidate with the smaller (score, id). */
  lemma {:induction false} ResultOfTwo(c: Criteria, slot: MealSlot, feasible: Feasible, maxPasses: nat, costOnly: bool,
                                       plans: seq<seq<Recipe>>, from: nat, plan: Scored, a: Recipe, b: Recipe)
    requires OptionsAt(feasible, slot) == [a, b] && a.recipeId != b.recipeId && maxPasses >= 2
    requires ResultOf(c, [slot], feasible, maxPasses, costOnly, plans, from, plan)
    ensures plan.recipes ==
      if KeyBefore(ScoreOf(c, [slot], [a]), a.recipeId, ScoreOf(c, [slot], [b]), b.recipeId) then [a] else [b]
    ensures [a] in plans && [b] in plans
  {
    CountOfTwo(slot, feasible, a, b);
    EnoughPasses(c, [slot], feasible, maxPasses, costOnly, plans, from, plan);
    ResultIsAssignment(c, [slot], feasible, maxPasses, costOnly, plans, from, plan);
    TwoCandidates(c, slot, feasible, plan.recipes, plans, a, b);
    ResultEvaluated(c, [slot], feasible, maxPasses, costOnly, plans, from, plan);
  }

  lemma {:induction false} TwoCandidates(c: Criteria, slot: MealSlot, feasible: Feasible, recipes: seq<Recipe>, plans: seq<seq<Recipe>>,
                                         a: Recipe, b: Recipe)
    requires OptionsAt(feasible, slot) == [a, b] && a.recipeId != b.recipeId && IsAssignment([slot], feasible, recipes)
    requires LocallyOptimal(c, [slot], feasible, recipes) && AllTried([slot], feasible, plans, recipes)
    ensures recipes == if KeyBefore(ScoreOf(c, [slot], [a]), a.recipeId, ScoreOf(c, [slot], [b]), b.recipeId) then [a] else [b]
    ensures recipes == [a] ==> [b] in plans
    ensures recipes == [b] ==> [a] in plans
  {
    var x := recipes[0];
    var other := if x == a then b else a;
    assert recipes == [x] && x in [a, b] && other in [a, b];
    assert SlotOptimal(c, [slot], OptionsAt(feasible, slot), recipes, 0) && Tried(plans, OptionsAt(feasible, slot), recipes, 0);
    assert NotBetter(c, [slot], recipes, 0, other);
    assert recipes[0 := other] == [other];
  }

  /** Over budget exactly when the candidate over the limit has the smaller (score, id). */
  lemma {:induction false} OverBudgetOfTwo(c: Criteria, slot: MealSlot, feasible: Feasible, maxPasses: nat, plans: seq<seq<Recipe>>, from: nat,
                                           plan: Scored, overBudget: bool, over: Recipe, within: Recipe)
    requires OptionsAt(feasible, slot) == [over, within] || OptionsAt(feasible, slot) == [within, over]
    requires over.recipeId != within.recipeId && maxPasses >= 2
    requires !Fits(c, [slot], [over]) && Fits(c, [slot], [within])
    requires Decided(c, [slot], feasible, maxPasses, plans, from, plan, overBudget)
    ensures overBudget <==> KeyBefore(ScoreOf(c, [slot], [over]), over.recipeId, ScoreOf(c, [slot], [within]), within.recipeId)
    ensures [within] in plans
  {
    var costOnly := !overBudget && !ResultOf(c, [slot], feasible, maxPasses, false, plans, from, plan);
    if OptionsAt(feasible, slot) == [over, within] {
      ResultOfTwo(c, slot, feasible, maxPasses, costOnly, plans, from, plan, over, within);
    } else {
      ResultOfTwo(c, slot, feasible, maxPasses, costOnly, plans, from, plan, within, over);
    }
  }

  // ----- The budget -----------------------------------------------------------------------------

  ghost predicate Fits(c: Criteria, slots: seq<MealSlot>, recipes: seq<Recipe>)
    requires |recipes| == |slots|
  {
    PlanCost(c, slots, recipes) <= Limit(c.budget)
  }

  /** Any plan over the limit scores above any plan within it. */
  ghost predicate PenaltyDominates(c: Criteria, slots: seq<MealSlot>, feasible: Feasible) {
    forall a, b | IsAssignment(slots, feasible, a) && IsAssignment(slots, feasible, b) ::
      !Fits(c, slots, a) && Fits(c, slots, b) ==> ScoreOf(c, slots, b) < ScoreOf(c, slots, a)
  }

  /** It does when the smallest overshoot costs more than the rest of the score can vary. */
  lemma {:induction false} OvershootDominates(c: Criteria, slots: seq<MealSlot>, feasible: Feasible, gap: real, low: real, high: real)
    requires forall a | IsAssignment(slots, feasible, a) :: low <= BaseScore(c, slots, a) <= high
    requires forall a | IsAssignment(slots, feasible, a) ::
      !Fits(c, slots, a) ==> gap <= PlanCost(c, slots, a) - Limit(c.budget)
    requires high - low < BUDGET_PENALTY * gap
    ensures PenaltyDominates(c, slots, feasible)
  {
  }

  ghost predicate NoneFits(c: Criteria, slots: seq<MealSlot>, plans: seq<seq<Recipe>>, from: nat) {
    forall k | from <= k < |plans| :: |plans[k]| == |slots| && !Fits(c, slots, plans[k])
  }

  /** A search that ends over the limit met no plan within it. */
  lemma {:induction false} SearchFailed(c: Criteria, slots: seq<MealSlot>, feasible: Feasible, best: Scored, plans: seq<seq<Recipe>>, from: nat)
    requires IsScored(c, slots, best) && IsAssignment(slots, feasible, best.recipes)
    requires NoneBelow(c, slots, feasible, plans, from, best.score)
    ensures !FitsPlan(c, slots, best) && PenaltyDominates(c, slots, feasible) ==> NoneFits(c, slots, plans, from)
  {
  }

  lemma {:induction false} GreedyStep(c: Criteria, slots: seq<MealSlot>, feasible: Feasible, costOnly: bool, chosen: seq<Recipe>, best: Recipe)
    requires IsGreedy(c, slots, feasible, costOnly, chosen) && |chosen| < |slots|
    requires IsNext(c, slots, OptionsAt(feasible, slots[|chosen|]), chosen, costOnly, best)
    ensures IsGreedy(c, slots, feasible, costOnly, chosen + [best])
  {
    PrefixOfAppend(chosen, best);
    FullPrefix(chosen);
  }
}
