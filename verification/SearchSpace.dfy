/** The assignments of a search, the order in which accepted swaps descend, and how many there can be. */
module SearchSpace {
  import opened Collections
  import opened Contracts
  import opened Scheduling
  import opened PlanScore

  type Feasible = map<nat, seq<Recipe>>

  function OptionsAt(feasible: Feasible, slot: MealSlot): seq<Recipe> {
    if slot.index in feasible then feasible[slot.index] else []
  }

  /** One feasible recipe per slot. */
  ghost predicate IsAssignment(slots: seq<MealSlot>, feasible: Feasible, recipes: seq<Recipe>) {
    |recipes| == |slots| && forall i | 0 <= i < |slots| :: recipes[i] in OptionsAt(feasible, slots[i])
  }

  lemma {:induction false} SwapKeepsAssignment(slots: seq<MealSlot>, feasible: Feasible, recipes: seq<Recipe>, i: nat, recipe: Recipe)
    requires IsAssignment(slots, feasible, recipes) && i < |slots| && recipe in OptionsAt(feasible, slots[i])
    ensures IsAssignment(slots, feasible, recipes[i := recipe])
  {
  }

  // ----- The order ------------------------------------------------------------------------------

  /** The lexicographic order of (metric, recipe id). */
  predicate KeyBefore(a: real, x: nat, b: real, y: nat) {
    a < b || (a == b && x < y)
  }

  /** The lexicographic order of the recipe ids. */
  predicate IdsBefore(xs: seq<Recipe>, ys: seq<Recipe>) {
    && xs != [] && ys != []
    && (xs[0].recipeId < ys[0].recipeId || (xs[0].recipeId == ys[0].recipeId && IdsBefore(xs[1..], ys[1..])))
  }

  lemma {:induction false} IdsTransitive(xs: seq<Recipe>, ys: seq<Recipe>, zs: seq<Recipe>)
    requires IdsBefore(xs, ys) && IdsBefore(ys, zs)
    ensures IdsBefore(xs, zs)
  {
    if xs[0].recipeId == ys[0].recipeId == zs[0].recipeId {
      IdsTransitive(xs[1..], ys[1..], zs[1..]);
    }
  }

  lemma {:induction false} IdsIrreflexive(xs: seq<Recipe>)
    ensures !IdsBefore(xs, xs)
  {
    if xs != [] {
      IdsIrreflexive(xs[1..]);
    }
  }

  lemma {:induction false} SwapLowersIds(xs: seq<Recipe>, i: nat, recipe: Recipe)
    requires i < |xs| && recipe.recipeId < xs[i].recipeId
    ensures IdsBefore(xs[i := recipe], xs)
  {
    if i > 0 {
      SwapLowersIds(xs[1..], i - 1, recipe);
      assert xs[i := recipe][1..] == xs[1..][i - 1 := recipe];
    }
  }

  ghost predicate PlanBefore(c: Criteria, slots: seq<MealSlot>, a: seq<Recipe>, b: seq<Recipe>)
    requires |slots| == |a| == |b|
  {
    ScoreOf(c, slots, a) < ScoreOf(c, slots, b) || (ScoreOf(c, slots, a) == ScoreOf(c, slots, b) && IdsBefore(a, b))
  }

  lemma {:induction false} PlanTransitive(c: Criteria, slots: seq<MealSlot>, x: seq<Recipe>, y: seq<Recipe>, z: seq<Recipe>)
    requires |slots| == |x| == |y| == |z|
    requires PlanBefore(c, slots, x, y) && PlanBefore(c, slots, y, z)
    ensures PlanBefore(c, slots, x, z)
  {
    if IdsBefore(x, y) && IdsBefore(y, z) {
      IdsTransitive(x, y, z);
    }
  }

  /** A swap with a smaller (score, id) key gives a plan that comes before. */
  lemma {:induction false} SwapDescends(c: Criteria, slots: seq<MealSlot>, chosen: seq<Recipe>, i: nat, recipe: Recipe)
    requires |slots| == |chosen| && i < |chosen|
    requires KeyBefore(ScoreOf(c, slots, chosen[i := recipe]), recipe.recipeId, ScoreOf(c, slots, chosen), chosen[i].recipeId)
    ensures PlanBefore(c, slots, chosen[i := recipe], chosen)
  {
    if recipe.recipeId < chosen[i].recipeId {
      SwapLowersIds(chosen, i, recipe);
    }
  }

  // ----- A descending run -----------------------------------------------------------------------

  /** The plans accepted one after the other; each comes before all the earlier ones. */
  ghost predicate Descends(c: Criteria, slots: seq<MealSlot>, feasible: Feasible, visited: seq<seq<Recipe>>) {
    && (forall i | 0 <= i < |visited| :: IsAssignment(slots, feasible, visited[i]))
    && (forall i, j | 0 <= i < j < |visited| :: PlanBefore(c, slots, visited[j], visited[i]))
  }

  lemma {:induction false} BeforeEarlier(c: Criteria, slots: seq<MealSlot>, feasible: Feasible, visited: seq<seq<Recipe>>, next: seq<Recipe>, i: nat)
    requires Descends(c, slots, feasible, visited) && i < |visited| && |next| == |slots|
    requires PlanBefore(c, slots, next, visited[|visited| - 1])
    ensures PlanBefore(c, slots, next, visited[i])
  {
    if i < |visited| - 1 {
      PlanTransitive(c, slots, next, visited[|visited| - 1], visited[i]);
    }
  }

  lemma {:induction false} DescendsOn(c: Criteria, slots: seq<MealSlot>, feasible: Feasible, visited: seq<seq<Recipe>>, next: seq<Recipe>)
    requires Descends(c, slots, feasible, visited) && visited != [] && IsAssignment(slots, feasible, next)
    requires PlanBefore(c, slots, next, visited[|visited| - 1])
    ensures Descends(c, slots, feasible, visited + [next])
  {
    forall i | 0 <= i < |visited| ensures PlanBefore(c, slots, next, visited[i]) {
      BeforeEarlier(c, slots, feasible, visited, next, i);
    }
    var longer := visited + [next];
    forall i, j | 0 <= i < j < |longer| ensures PlanBefore(c, slots, longer[j], longer[i]) {
      assert longer[i] == visited[i];
    }
  }

  /** No plan is visited twice. */
  lemma {:induction false} NoneRevisited(c: Criteria, slots: seq<MealSlot>, feasible: Feasible, visited: seq<seq<Recipe>>, i: nat, j: nat)
    requires Descends(c, slots, feasible, visited) && i < j < |visited|
    ensures visited[i] != visited[j]
  {
    IdsIrreflexive(visited[i]);
  }

  // ----- The number of assignments --------------------------------------------------------------

  function AssignmentCount(slots: seq<MealSlot>, feasible: Feasible): nat {
    if slots == [] then 1
    else AssignmentCount(slots[..|slots| - 1], feasible) * |OptionsAt(feasible, slots[|slots| - 1])|
  }

  /** Every list of `heads` continued with every option. */
  function Extend(heads: seq<seq<Recipe>>, options: seq<Recipe>): (r: seq<seq<Recipe>>)
    ensures |r| == |heads| * |options|
  {
    if heads == [] then []
    else
      ScaleOne(|heads|, |options|);
      Extend(heads[..|heads| - 1], options)
      + seq(|options|, j requires 0 <= j < |options| => heads[|heads| - 1] + [options[j]])
  }

  lemma {:induction false} ScaleOne(m: nat, n: nat)
    ensures m * n == (m - 1) * n + n
  {
  }

  lemma {:induction false} ExtendHas(heads: seq<seq<Recipe>>, options: seq<Recipe>, head: seq<Recipe>, option: Recipe)
    requires head in heads && option in options
    ensures head + [option] in Extend(heads, options)
  {
    if heads[|heads| - 1] == head {
      var j :| 0 <= j < |options| && options[j] == option;
      var tail := seq(|options|, j requires 0 <= j < |options| => head + [options[j]]);
      assert tail[j] == head + [option];
    } else {
      SplitLast(heads);
      ExtendHas(heads[..|heads| - 1], options, head, option);
    }
  }

  function Space(slots: seq<MealSlot>, feasible: Feasible): (r: seq<seq<Recipe>>)
    ensures |r| == AssignmentCount(slots, feasible)
  {
    if slots == [] then [[]]
    else Extend(Space(slots[..|slots| - 1], feasible), OptionsAt(feasible, slots[|slots| - 1]))
  }

  lemma {:induction false} SpaceHas(slots: seq<MealSlot>, feasible: Feasible, recipes: seq<Recipe>)
    requires IsAssignment(slots, feasible, recipes)
    ensures recipes in Space(slots, feasible)
  {
    if slots != [] {
      var last := |slots| - 1;
      SpaceHas(slots[..last], feasible, recipes[..last]);
      ExtendHas(Space(slots[..last], feasible), OptionsAt(feasible, slots[last]), recipes[..last], recipes[last]);
      SplitLast(recipes);
    }
  }

  ghost function Elements<T>(s: seq<T>): set<T> {
    set x | x in s
  }

  lemma {:induction false} ElementsAtMost<T>(s: seq<T>)
    ensures |Elements(s)| <= |s|
  {
    if s != [] {
      ElementsAtMost(s[..|s| - 1]);
      SplitLast(s);
      assert Elements(s) == Elements(s[..|s| - 1]) + {s[|s| - 1]};
    }
  }

  lemma {:induction false} DistinctElements<T>(s: seq<T>)
    requires forall i, j | 0 <= i < j < |s| :: s[i] != s[j]
    ensures |Elements(s)| == |s|
  {
    if s != [] {
      DistinctElements(s[..|s| - 1]);
      SplitLast(s);
      assert Elements(s) == Elements(s[..|s| - 1]) + {s[|s| - 1]};
    }
  }

  lemma {:induction false} SubsetAtMost<T>(s: set<T>, t: set<T>)
    requires s <= t
    ensures |s| <= |t|
    decreases s
  {
    if s != {} {
      var x := Pick(s);
      SubsetAtMost(s - {x}, t - {x});
    }
  }

  /** The search ends: it cannot accept more plans than there are assignments. */
  lemma {:induction false} DescentIsShort(c: Criteria, slots: seq<MealSlot>, feasible: Feasible, visited: seq<seq<Recipe>>)
    requires Descends(c, slots, feasible, visited)
    ensures |visited| <= AssignmentCount(slots, feasible)
  {
    forall i, j | 0 <= i < j < |visited| ensures visited[i] != visited[j] {
      NoneRevisited(c, slots, feasible, visited, i, j);
    }
    DistinctElements(visited);
    ElementsAtMost(Space(slots, feasible));
    forall recipes | recipes in Elements(visited) ensures recipes in Elements(Space(slots, feasible)) {
      SpaceHas(slots, feasible, recipes);
    }
    SubsetAtMost(Elements(visited), Elements(Space(slots, feasible)));
  }
}
