/** The consolidation from the snapshot to the migrated database and back, with the plan that is built for it. */
module ConsolidationRun {
  import opened Wrappers
  import opened Collections
  import opened DisjointSets
  import opened ConsolidationJournal
  import opened ConsolidationDedup
  import opened ConsolidationPlan
  import opened ConsolidationRevert
  import opened Consolidation

  lemma {:induction false} FoldedAreOld(ingredients: Ingredients, plan: Plan)
    requires forall i | 0 <= i < |plan.merges| :: plan.merges[i].oldId in ingredients
    ensures NamesOf(ingredients - OldIds(plan.merges)) == Remaining(NamesOf(ingredients), plan)
  {
    var after, left := NamesOf(ingredients - OldIds(plan.merges)), Remaining(NamesOf(ingredients), plan);
    forall id ensures id in after <==> id in left {
      assert Disappears(plan.merges, id) <==> id in OldIds(plan.merges);
    }
    MapsEqual(after, left);
  }

  /** The upgrade with its own plan: exactly the non-survivors of its groups are gone, and what is left is unlinked. */
  method Migrate(db: Connection, d: Dictionary, active: set<nat>) returns (plan: Plan, ghost t: Trace)
    requires db.Constraints() && db.aliases == map[] && db.audit == [] && db.relinks == [] && db.deleted == []
    modifies db
    ensures PlanOf(d, NamesOf(old(db.ingredients)), active, plan)
    ensures db.ingredients == old(db.ingredients) - OldIds(plan.merges)
    ensures Unlinked(d, NamesOf(db.ingredients))
    ensures db.Journals(t) && t.ingredients == old(db.ingredients) && t.original == old(db.rows)
    ensures t.olds == OldIds(plan.merges) && t.folds == FoldsOf(plan.merges)
    ensures forall k :: k in db.rows && db.rows[k].ingredientId.Some? ==> db.rows[k].ingredientId.value !in OldIds(plan.merges)
    ensures LinesMerged(t.folded, db.rows, NewIds(plan.merges), LinesOfFolded(old(db.rows), OldIds(plan.merges)))
    ensures TotalQuantity(db.rows) == TotalQuantity(old(db.rows))
    ensures MappingsKept(old(db.rows), t.folds, db.rows)
    ensures MovedBy(plan.merges, old(db.rows), db.rows)
    ensures forall i | 0 <= i < |plan.merges| ::
      plan.merges[i].newId in db.ingredients && plan.merges[i].newName == db.ingredients[plan.merges[i].newId].canonicalName
    ensures Recorded(plan.aliases, db.aliases)
  {
    ghost var parent;
    plan, parent := BuildPlan(d, NamesOf(db.ingredients), active);
    PlanIsSound(db.ingredients, plan);
    FoldedAreOld(db.ingredients, plan);
    SurvivorNames(db.ingredients, d, active, parent, plan);
    t := db.Upgrade(plan);
  }

  /** The folds carry the names of the survivors, which are not folded away. */
  lemma {:induction false} SurvivorNames(ingredients: Ingredients, d: Dictionary, active: set<nat>, parent: Parents, plan: Plan)
    requires Sane(parent) && IsPlan(d, NamesOf(ingredients), active, parent, plan) && WellFormed(NamesOf(ingredients), plan)
    ensures forall i | 0 <= i < |plan.merges| ::
      && plan.merges[i].newId in ingredients - OldIds(plan.merges)
      && plan.merges[i].newName == ingredients[plan.merges[i].newId].canonicalName
  {
    forall i | 0 <= i < |plan.merges|
      ensures plan.merges[i].newId in ingredients - OldIds(plan.merges)
      ensures plan.merges[i].newName == ingredients[plan.merges[i].newId].canonicalName
    {
      assert IsFold(d, NamesOf(ingredients), active, parent, plan.merges[i]);
      assert forall j | 0 <= j < |plan.merges| :: plan.merges[j].oldId != plan.merges[i].newId;
    }
  }

  /** With its own plan the migration is undone exactly, whatever the database and the dictionary. */
  method MigrateAndBack(db: Connection, d: Dictionary, active: set<nat>)
    requires db.Constraints() && db.aliases == map[] && db.audit == [] && db.relinks == [] && db.deleted == []
    modifies db
    ensures db.ingredients == old(db.ingredients) && db.rows == old(db.rows)
  {
    var plan;
    ghost var t;
    plan, t := Migrate(db, d, active);
    db.Downgrade(t);
  }
}
