/**
  Why replaying the journal of an upgrade restores the database, and why no statement of the replay
  breaks a constraint: every row in between is either an original row or a folded one.
 */
module ConsolidationRevert {
  import opened Wrappers
  import opened Collections
  import opened ConsolidationJournal
  import opened ConsolidationDedup

  // ----- The folds of a whole plan --------------------------------------------------------------

  ghost function OldIds(merges: seq<Merge>): set<nat> {
    set i | 0 <= i < |merges| :: merges[i].oldId
  }

  ghost function NewIds(merges: seq<Merge>): set<nat> {
    set i | 0 <= i < |merges| :: merges[i].newId
  }

  ghost function FoldsOf(merges: seq<Merge>): Folds {
    if merges == [] then map[]
    else AddFold(FoldsOf(merges[..|merges| - 1]), merges[|merges| - 1])
  }

  lemma {:induction false} IdsAppend(done: seq<Merge>, merge: Merge)
    ensures OldIds(done + [merge]) == OldIds(done) + {merge.oldId}
    ensures NewIds(done + [merge]) == NewIds(done) + {merge.newId}
    ensures FoldsOf(done + [merge]) == AddFold(FoldsOf(done), merge)
  {
    var next := done + [merge];
    assert next[..|done|] == done && next[|done|] == merge;
    forall x | x in OldIds(done) ensures x in OldIds(next) {
      var j :| 0 <= j < |done| && done[j].oldId == x;
      assert next[j].oldId == x;
    }
    forall x | x in NewIds(done) ensures x in NewIds(next) {
      var j :| 0 <= j < |done| && done[j].newId == x;
      assert next[j].newId == x;
    }
  }

  lemma {:induction false} AddFoldKeys(f: Folds, merge: Merge, p: (Table, nat))
    ensures p in AddFold(f, merge) <==> p in f || p.1 == merge.oldId
    ensures p in AddFold(f, merge) ==> AddFold(f, merge)[p] == if p.1 == merge.oldId then merge else f[p]
  {
    match p.0 {
      case RecipeIngredient =>
      case PantryItem =>
      case GroceryListItem =>
      case IngredientProductMapping =>
      case ProviderIngredientMapping =>
    }
  }

  lemma {:induction false} FoldsOfPlan(merges: seq<Merge>, olds: set<nat>)
    requires OldIds(merges) <= olds && NewIds(merges) !! olds
    ensures Within(FoldsOf(merges), olds)
    ensures forall p :: p in FoldsOf(merges) <==> p.1 in OldIds(merges)
  {
    if merges != [] {
      var m := merges[|merges| - 1];
      var rest := merges[..|merges| - 1];
      assert merges == rest + [m];
      IdsAppend(rest, m);
      FoldsOfPlan(rest, olds);
      forall p: (Table, nat)
        ensures p in FoldsOf(merges) <==> p.1 in OldIds(merges)
        ensures p in FoldsOf(merges) ==> p.1 in olds && FoldsOf(merges)[p].newId !in olds
      {
        AddFoldKeys(FoldsOf(rest), m, p);
      }
    }
  }

  lemma {:induction false} FoldedNothing(rows: Rows, olds: set<nat>)
    ensures Folded(rows, olds, FoldsOf([]), rows, [], [])
  {
  }

  /** The folds of a plan: known ingredients, each folded once, none a survivor. */
  ghost predicate Folding(merges: seq<Merge>, olds: set<nat>, ingredients: Ingredients) {
    && OldIds(merges) == olds && NewIds(merges) !! olds
    && (forall i | 0 <= i < |merges| :: merges[i].oldId in ingredients && merges[i].newId in ingredients)
    && (forall i, j | 0 <= i < j < |merges| :: merges[i].oldId != merges[j].oldId)
  }

  /** The next fold of a sound plan takes an id that no earlier fold has touched. */
  lemma {:induction false} NextFold(merges: seq<Merge>, i: nat, olds: set<nat>)
    requires i < |merges|
    requires OldIds(merges) == olds && NewIds(merges) !! olds
    requires forall i, j | 0 <= i < j < |merges| :: merges[i].oldId != merges[j].oldId
    ensures merges[i].oldId in olds && merges[i].newId !in olds
    ensures OldIds(merges[..i]) <= olds && NewIds(merges[..i]) !! olds
    ensures merges[i].oldId !in OldIds(merges[..i]) && merges[i].newId !in OldIds(merges[..i])
    ensures merges[..i + 1] == merges[..i] + [merges[i]]
  {
    assert merges[i].oldId in OldIds(merges) && merges[i].newId in NewIds(merges);
    forall x | x in OldIds(merges[..i]) ensures x in olds && x != merges[i].oldId {
      var j :| 0 <= j < i && merges[..i][j].oldId == x;
      assert merges[j].oldId in OldIds(merges);
    }
    forall x | x in NewIds(merges[..i]) ensures x in NewIds(merges) {
      var j :| 0 <= j < i && merges[..i][j].newId == x;
      assert merges[j].newId in NewIds(merges);
    }
  }

  // ----- What the journal keeps of the database before the upgrade ------------------------------

  /** The audit rows hold exactly the ingredients that were folded away. */
  ghost predicate Audited(before: Ingredients, ingredients: Ingredients, audit: seq<Audit>) {
    && (forall id :: id in ingredients ==> id in before && ingredients[id] == before[id])
    && (forall j | 0 <= j < |audit| :: audit[j].snapshotId in before && audit[j].snapshot == before[audit[j].snapshotId])
    && (forall id :: id in before && id !in ingredients ==> exists j | 0 <= j < |audit| :: audit[j].snapshotId == id)
  }

  /** The first `n` snapshots are back, beside the ingredients that remained. */
  ghost predicate IngredientsComingBack(before: Ingredients, remaining: Ingredients, restored: Ingredients, audit: seq<Audit>, n: nat)
    requires n <= |audit|
  {
    && (forall id :: id in restored ==> id in before && restored[id] == before[id])
    && (forall id :: id in remaining ==> id in restored)
    && (forall i | 0 <= i < n :: audit[i].snapshotId in restored)
  }

  lemma {:induction false} SnapshotBack(before: Ingredients, remaining: Ingredients, restored: Ingredients, audit: seq<Audit>, n: nat)
    requires n < |audit| && Audited(before, remaining, audit) && IngredientsComingBack(before, remaining, restored, audit, n)
    ensures var a := audit[n];
      IngredientsComingBack(before, remaining, if a.snapshotId in restored then restored else restored[a.snapshotId := a.snapshot], audit, n + 1)
  {
  }

  lemma {:induction false} AllIngredientsBack(before: Ingredients, remaining: Ingredients, restored: Ingredients, audit: seq<Audit>)
    requires Audited(before, remaining, audit) && IngredientsComingBack(before, remaining, restored, audit, |audit|)
    ensures restored == before
  {
    forall id | id in before ensures id in restored {
      if id !in remaining {
        var j :| 0 <= j < |audit| && audit[j].snapshotId == id;
      }
    }
    MapsEqual(restored, before);
  }

  /** The database before the upgrade and the one after the folds meet the constraints. */
  ghost predicate GoodTrace(t: Trace) {
    && UniqueIndexes(t.original) && ForeignKeys(t.original, t.ingredients)
    && UniqueIndexes(t.folded) && ForeignKeys(t.folded, t.ingredients)
  }

  /** Apart from the recipe lines, every row is either an original one or a folded one. */
  ghost predicate Mixed(t: Trace, rows: Rows) {
    forall k | k in rows && k.table != RecipeIngredient ::
      && k in t.original
      && (rows[k] == t.original[k] || (k in t.folded && rows[k] == t.folded[k]))
  }

  lemma {:induction false} MixedUnique(t: Trace, rows: Rows, relinks: seq<Relink>, deleted: seq<Deleted>)
    requires AllTyped(t.original) && AllTyped(rows) && GoodTrace(t)
    requires Within(t.folds, t.olds) && Folded(t.original, t.olds, t.folds, t.folded, relinks, deleted)
    requires Mixed(t, rows)
    ensures UniqueIndexes(rows)
  {
    forall a, b | a in rows && b in rows && Clash(a, rows[a], b, rows[b]) ensures a == b {
      assert Typed(a.table, rows[a]) && Typed(b.table, rows[b]);
      assert rows[a].payload == t.original[a].payload && rows[b].payload == t.original[b].payload;
      if SameApproval(a, rows[a], b, rows[b]) {
        assert SameApproval(a, t.original[a], b, t.original[b]);
      } else {
        FoldedOrNot(t, rows, relinks, deleted, a);
        FoldedOrNot(t, rows, relinks, deleted, b);
        assert SameEntry(a, rows[a], b, rows[b]);
        if rows[a] == t.original[a] && rows[b] == t.original[b] {
          assert SameEntry(a, t.original[a], b, t.original[b]);
        } else {
          assert SameEntry(a, t.folded[a], b, t.folded[b]);
        }
      }
    }
  }

  /** A row with an original id outside the folded ones was never touched. */
  lemma {:induction false} FoldedOrNot(t: Trace, rows: Rows, relinks: seq<Relink>, deleted: seq<Deleted>, k: RowKey)
    requires AllTyped(t.original) && Within(t.folds, t.olds)
    requires Folded(t.original, t.olds, t.folds, t.folded, relinks, deleted)
    requires Mixed(t, rows) && k in rows && k.table != RecipeIngredient
    ensures rows[k] != t.original[k] ==> rows[k].ingredientId.Some? && rows[k].ingredientId.value !in t.olds
    ensures rows[k].ingredientId.Some? && rows[k].ingredientId.value !in t.olds && rows[k] == t.original[k]
      ==> k in t.folded && t.folded[k] == rows[k]
    ensures rows[k] != t.original[k] ==> k in t.folded && t.folded[k] == rows[k]
  {
    if k !in t.folded {
      assert k in DeletedKeys(deleted, false);
      var j :| 0 <= j < |deleted| && !IsLine(deleted[j]) && deleted[j].key == k;
    }
  }

  // ----- The state an upgrade leaves behind -----------------------------------------------------

  /** The recipe lines that referred to a folded ingredient before the upgrade. */
  ghost function LinesOfFolded(rows: Rows, olds: set<nat>): set<nat> {
    set k | k in rows && k.table == RecipeIngredient && rows[k].ingredientId.Some? && rows[k].ingredientId.value in olds
      :: k.id
  }

  /** The relink journal names exactly the lines that referred to a folded ingredient. */
  lemma {:induction false} RepointedAreFolded(r0: Rows, merges: seq<Merge>, r1: Rows, relinks: seq<Relink>, deleted: seq<Deleted>)
    requires OldIds(merges) !! NewIds(merges)
    requires Folded(r0, OldIds(merges), FoldsOf(merges), r1, relinks, deleted)
    ensures RepointedLines(relinks) == LinesOfFolded(r0, OldIds(merges))
  {
    FoldsOfPlan(merges, OldIds(merges));
    forall id | id in RepointedLines(relinks) ensures id in LinesOfFolded(r0, OldIds(merges)) {
      var r :| r in relinks && r.key == RowKey(RecipeIngredient, id);
      assert r.key in RelinkKeys(relinks);
      assert IsFolded(FoldsOf(merges), r.key, r0[r.key]);
    }
    forall id | id in LinesOfFolded(r0, OldIds(merges)) ensures id in RepointedLines(relinks) {
      var k := RowKey(RecipeIngredient, id);
      var i :| 0 <= i < |merges| && merges[i].oldId == r0[k].ingredientId.value;
      assert (RecipeIngredient, merges[i].oldId) in FoldsOf(merges);
      assert k !in DeletedKeys(deleted, false);
      assert k in RelinkKeys(relinks);
      var j :| 0 <= j < |relinks| && relinks[j].key == k;
    }
  }

  lemma {:induction false} FoldsConserve(t: Trace, relinks: seq<Relink>, deleted: seq<Deleted>)
    requires AllTyped(t.original)
    requires Folded(t.original, t.olds, t.folds, t.folded, relinks, deleted)
    ensures TotalQuantity(t.folded) == TotalQuantity(t.original)
  {
    forall k | k in t.original && k.table == RecipeIngredient ensures k in t.folded {
      assert k !in DeletedKeys(deleted, false);
    }
    assert LineIds(t.folded) == LineIds(t.original);
    SumQuantitySame(t.original, t.folded, LineIds(t.original));
  }

  /** No row of the folded database refers to a folded ingredient. */
  lemma {:induction false} NoFoldedReference(t: Trace, merges: seq<Merge>, rows: Rows, relinks: seq<Relink>, deleted: seq<Deleted>)
    requires t.olds == OldIds(merges) && t.olds !! NewIds(merges) && t.folds == FoldsOf(merges)
    requires Explained(t, rows, relinks, deleted)
    ensures forall k :: k in rows && rows[k].ingredientId.Some? ==> rows[k].ingredientId.value !in t.olds
  {
    FoldsOfPlan(merges, t.olds);
    forall k | k in rows && rows[k].ingredientId.Some? ensures rows[k].ingredientId.value !in t.olds {
      if t.original[k].ingredientId.Some? && t.original[k].ingredientId.value in t.olds {
        assert (k.table, t.original[k].ingredientId.value) in t.folds;
      }
    }
  }

  // ----- Where every row of the original is afterwards ------------------------------------------

  /** The row refers to the survivor, and a recipe line is called by the survivor's name; only a line's quantity may differ else. */
  ghost predicate Carried(before: Row, after: Row, merge: Merge) {
    && after.ingredientId == Some(merge.newId)
    && match before.payload
       case Line(recipeId, _, _, other) =>
         && after.payload.Line? && after.payload.canonicalName == merge.newName
         && after.payload.recipeId == recipeId && after.payload.other == other
       case Holding(_) => after.payload == before.payload
       case Mapping(_, _, _) => after.payload == before.payload
  }

  /** The row is as it was, up to a line's quantity. */
  ghost predicate Stayed(before: Row, after: Row) {
    && after.ingredientId == before.ingredientId
    && match before.payload
       case Line(recipeId, name, _, other) =>
         && after.payload.Line? && after.payload.canonicalName == name
         && after.payload.recipeId == recipeId && after.payload.other == other
       case Holding(_) => after.payload == before.payload
       case Mapping(_, _, _) => after.payload == before.payload
  }

  /** The rows of each folded ingredient went to its survivor, and all others stayed. */
  ghost predicate MovedBy(merges: seq<Merge>, before: Rows, after: Rows) {
    forall k :: k in after ==> k in before && RowMovedBy(merges, before[k], after[k])
  }

  ghost predicate RowMovedBy(merges: seq<Merge>, before: Row, after: Row) {
    && (forall i | 0 <= i < |merges| && before.ingredientId == Some(merges[i].oldId) :: Carried(before, after, merges[i]))
    && ((forall i | 0 <= i < |merges| :: before.ingredientId != Some(merges[i].oldId)) ==> Stayed(before, after))
  }

  /** The folds of a plan hold each of its merges. */
  lemma {:induction false} FoldAt(merges: seq<Merge>, i: nat, table: Table)
    requires i < |merges| && forall a, b | 0 <= a < b < |merges| :: merges[a].oldId != merges[b].oldId
    ensures (table, merges[i].oldId) in FoldsOf(merges) && FoldsOf(merges)[(table, merges[i].oldId)] == merges[i]
  {
    var rest, last := merges[..|merges| - 1], merges[|merges| - 1];
    AddFoldKeys(FoldsOf(rest), last, (table, merges[i].oldId));
    if i < |merges| - 1 {
      FoldAt(rest, i, table);
    }
  }

  lemma {:induction false} AllMovedBy(t: Trace, merges: seq<Merge>, rows: Rows, relinks: seq<Relink>, deleted: seq<Deleted>)
    requires Explained(t, rows, relinks, deleted) && t.folds == FoldsOf(merges)
    requires NewIds(merges) !! OldIds(merges) && forall a, b | 0 <= a < b < |merges| :: merges[a].oldId != merges[b].oldId
    ensures MovedBy(merges, t.original, rows)
  {
    forall k | k in rows ensures k in t.original && RowMovedBy(merges, t.original[k], rows[k]) {
      FoldedRowMovedBy(merges, k, t.original[k]);
      assert t.folded[k] == Fold(t.folds, k, t.original[k]);
      QuantityMovesNothing(merges, t.original[k], t.folded[k], Absorbed(deleted, k));
    }
  }

  lemma {:induction false} QuantityMovesNothing(merges: seq<Merge>, before: Row, after: Row, q: real)
    requires RowMovedBy(merges, before, after)
    ensures RowMovedBy(merges, before, AddQuantity(after, q))
  {
  }

  lemma {:induction false} FoldedRowMovedBy(merges: seq<Merge>, k: RowKey, row: Row)
    requires NewIds(merges) !! OldIds(merges) && forall a, b | 0 <= a < b < |merges| :: merges[a].oldId != merges[b].oldId
    ensures RowMovedBy(merges, row, Fold(FoldsOf(merges), k, row))
  {
    FoldsOfPlan(merges, OldIds(merges));
    forall i | 0 <= i < |merges| && row.ingredientId == Some(merges[i].oldId)
      ensures Carried(row, Fold(FoldsOf(merges), k, row), merges[i])
    {
      FoldAt(merges, i, k.table);
    }
    if IsFolded(FoldsOf(merges), k, row) {
      assert row.ingredientId.value in OldIds(merges);
    }
  }

  /** Every mapping is still there, re-pointed if its ingredient was folded, or a row for the survivor holds its entry. */
  ghost predicate MappingsKept(r0: Rows, f: Folds, rows: Rows) {
    forall k :: k in r0 && IsMappingTable(k.table) ==> MappingKept(f, rows, k, r0[k])
  }

  ghost predicate MappingKept(f: Folds, rows: Rows, k: RowKey, row: Row) {
    && EntryHeld(f, rows, k, row)
    && (k in rows ==> rows[k] == Fold(f, k, row))
    && (k !in rows ==> IsFolded(f, k, row))
  }

  lemma {:induction false} AllMappingsKept(t: Trace, merges: seq<Merge>, rows: Rows, relinks: seq<Relink>, deleted: seq<Deleted>)
    requires Explained(t, rows, relinks, deleted) && EntriesHeld(t.original, t.folds, t.folded)
    requires t.olds == OldIds(merges) && t.folds == FoldsOf(merges) && NewIds(merges) !! t.olds
    ensures MappingsKept(t.original, t.folds, rows)
  {
    FoldsOfPlan(merges, t.olds);
    forall k | k in t.original && IsMappingTable(k.table) ensures MappingKept(t.folds, rows, k, t.original[k]) {
      OtherRowStays(t, rows, relinks, deleted, k);
      var n :| n in t.folded && SameEntry(n, t.folded[n], k, Fold(t.folds, k, t.original[k]));
      OtherRowStays(t, rows, relinks, deleted, n);
      assert n in rows && SameEntry(n, rows[n], k, Fold(t.folds, k, t.original[k]));
      if k !in rows {
        DroppedWasFolded(t, merges, relinks, deleted, k);
      }
    }
  }

  /** Merging recipe lines touches no other table. */
  lemma {:induction false} OtherRowStays(t: Trace, rows: Rows, relinks: seq<Relink>, deleted: seq<Deleted>, k: RowKey)
    requires Explained(t, rows, relinks, deleted) && !IsLineKey(k)
    ensures k in rows <==> k in t.folded
    ensures k in rows ==> rows[k] == t.folded[k]
  {
    assert k !in DeletedKeys(deleted, true);
    if k in rows {
      assert Typed(k.table, t.folded[k]);
    }
  }

  lemma {:induction false} DroppedWasFolded(t: Trace, merges: seq<Merge>, relinks: seq<Relink>, deleted: seq<Deleted>, k: RowKey)
    requires Folded(t.original, t.olds, t.folds, t.folded, relinks, deleted)
    requires t.olds == OldIds(merges) && forall p :: p in t.folds <==> p.1 in OldIds(merges)
    requires k in t.original && k !in t.folded
    ensures IsFolded(t.folds, k, t.original[k])
  {
    assert k in DeletedKeys(deleted, false);
    var j :| 0 <= j < |deleted| && !IsLine(deleted[j]) && deleted[j].key == k;
    assert (k.table, t.original[k].ingredientId.value) in t.folds;
  }

  lemma {:induction false} SoundIds(plan: Plan, ingredients: Ingredients)
    requires Sound(plan, ingredients)
    ensures OldIds(plan.merges) !! NewIds(plan.merges)
    ensures forall i | 0 <= i < |plan.aliases| :: plan.aliases[i].ingredientId !in OldIds(plan.merges)
  {
    forall x | x in NewIds(plan.merges) ensures x !in OldIds(plan.merges) {
      var j :| 0 <= j < |plan.merges| && plan.merges[j].newId == x;
      assert forall i | 0 <= i < |plan.merges| :: plan.merges[i].oldId != plan.merges[j].newId;
    }
    forall i | 0 <= i < |plan.aliases| ensures plan.aliases[i].ingredientId !in OldIds(plan.merges) {
      assert forall j | 0 <= j < |plan.merges| :: plan.aliases[i].ingredientId != plan.merges[j].oldId;
    }
  }

  lemma {:induction false} AbsorbedNothing(deleted: seq<Deleted>, key: RowKey)
    requires NoLines(deleted)
    ensures Absorbed(deleted, key) == 0.0
  {
    if deleted != [] {
      AbsorbedNothing(deleted[..|deleted| - 1], key);
    }
  }

  /** Right after the folds no recipe line has been merged. */
  lemma {:induction false} NothingDeduplicated(t: Trace, relinks: seq<Relink>, deleted: seq<Deleted>)
    requires AllTyped(t.original) && AllTyped(t.folded) && Within(t.folds, t.olds)
    requires Folded(t.original, t.olds, t.folds, t.folded, relinks, deleted)
    requires NoLines(deleted)
    ensures Explained(t, t.folded, relinks, deleted)
    ensures Targets(deleted) == {}
  {
    forall k | k in t.folded ensures t.folded[k] == AddQuantity(t.folded[k], Absorbed(deleted, k)) {
      AbsorbedNothing(deleted, k);
    }
  }

  lemma {:induction false} AuditedStep(before: Ingredients, ingredients: Ingredients, audit: seq<Audit>, merge: Merge)
    requires Audited(before, ingredients, audit) && merge.oldId in ingredients
    ensures Audited(before, ingredients - {merge.oldId}, audit + [AuditOf(merge, ingredients)])
  {
    var audit' := audit + [AuditOf(merge, ingredients)];
    forall id | id in before && id !in ingredients - {merge.oldId}
      ensures exists j | 0 <= j < |audit'| :: audit'[j].snapshotId == id
    {
      if id in ingredients {
        assert audit'[|audit|].snapshotId == id;
      } else {
        var j :| 0 <= j < |audit| && audit[j].snapshotId == id;
        assert audit'[j].snapshotId == id;
      }
    }
  }

  /** The folds `done` left these ingredients, and one audit each. */
  ghost predicate AuditsOf(done: seq<Merge>, olds: set<nat>, before: Ingredients, ingredients: Ingredients, audit: seq<Audit>) {
    && ingredients == before - OldIds(done)
    && |audit| == |done|
    && Audited(before, ingredients, audit)
    && (forall j | 0 <= j < |audit| :: audit[j].newId !in olds)
  }

  lemma {:induction false} AuditsStep(done: seq<Merge>, olds: set<nat>, before: Ingredients, ingredients: Ingredients, audit: seq<Audit>,
                                      merge: Merge)
    requires AuditsOf(done, olds, before, ingredients, audit) && merge.oldId in ingredients && merge.newId !in olds
    ensures AuditsOf(done + [merge], olds, before, ingredients - {merge.oldId}, audit + [AuditOf(merge, ingredients)])
  {
    IdsAppend(done, merge);
    AuditedStep(before, ingredients, audit, merge);
    assert before - OldIds(done) - {merge.oldId} == before - (OldIds(done) + {merge.oldId});
  }

  // ----- The steps of the downgrade -------------------------------------------------------------

  predicate IsLineKey(k: RowKey) {
    k.table == RecipeIngredient
  }

  /** The UPDATE that takes the absorbed quantities back out of the lines that were kept. */
  function WithoutAbsorbed(rows: Rows, deleted: seq<Deleted>): Rows {
    map k | k in rows :: AddQuantity(rows[k], -Absorbed(deleted, k))
  }

  lemma {:induction false} WithoutAbsorbedTyped(rows: Rows, deleted: seq<Deleted>)
    requires AllTyped(rows) && UniqueIndexes(rows)
    ensures AllTyped(WithoutAbsorbed(rows, deleted)) && UniqueIndexes(WithoutAbsorbed(rows, deleted))
  {
    var rows' := WithoutAbsorbed(rows, deleted);
    forall k | k in rows' ensures Typed(k.table, rows'[k]) {
      assert Typed(k.table, rows[k]);
    }
    forall a, b | a in rows' && b in rows' && Clash(a, rows'[a], b, rows'[b]) ensures a == b {
      assert Clash(a, rows[a], b, rows[b]);
    }
  }

  /** Every row that is no recipe line is back, folded unless it had been dropped. */
  ghost predicate MappingsRestored(t: Trace, after: Rows, rows: Rows) {
    && (forall k :: k in rows && IsLineKey(k) ==> k in after && rows[k] == after[k])
    && (forall k :: k in after && IsLineKey(k) ==> k in rows)
    && (forall k :: !IsLineKey(k) ==> (k in rows <==> k in t.original))
    && (forall k :: k in rows && !IsLineKey(k) ==> rows[k] == if k in t.folded then t.folded[k] else t.original[k])
  }

  /** The mappings among the first `j` journalled deletions are back. */
  ghost predicate MappingsComingBack(t: Trace, after: Rows, rows: Rows, deleted: seq<Deleted>, j: nat)
    requires j <= |deleted|
  {
    && Mixed(t, rows)
    && (forall k :: k in after ==> k in rows && rows[k] == after[k])
    && (forall k :: k in rows && k !in after ==> !IsLineKey(k) && k in t.original && rows[k] == t.original[k])
    && (forall i | 0 <= i < j && !IsLine(deleted[i]) :: deleted[i].key in rows)
  }

  lemma {:induction false} MappingStep(t: Trace, after: Rows, rows: Rows, relinks: seq<Relink>, deleted: seq<Deleted>, j: nat)
    requires Folded(t.original, t.olds, t.folds, t.folded, relinks, deleted)
    requires j < |deleted| && MappingsComingBack(t, after, rows, deleted, j)
    ensures IsLine(deleted[j]) ==> MappingsComingBack(t, after, rows, deleted, j + 1)
    ensures !IsLine(deleted[j]) && deleted[j].key in rows ==> MappingsComingBack(t, after, rows, deleted, j + 1)
    ensures !IsLine(deleted[j]) && deleted[j].key !in rows ==>
      MappingsComingBack(t, after, rows[deleted[j].key := deleted[j].row], deleted, j + 1)
  {
  }

  lemma {:induction false} MixedInsert(t: Trace, after: Rows, rows: Rows, relinks: seq<Relink>, deleted: seq<Deleted>, j: nat)
    requires GoodTrace(t) && Explained(t, after, relinks, deleted)
    requires AllTyped(rows) && Mixed(t, rows)
    requires j < |deleted| && !IsLine(deleted[j])
    ensures Typed(deleted[j].key.table, deleted[j].row)
    ensures deleted[j].row.ingredientId.Some? && deleted[j].row.ingredientId.value in t.ingredients
    ensures UniqueIndexes(rows[deleted[j].key := deleted[j].row])
  {
    MixedUnique(t, rows[deleted[j].key := deleted[j].row], relinks, deleted);
  }

  lemma {:induction false} AllMappingsBack(t: Trace, after: Rows, rows: Rows, relinks: seq<Relink>, deleted: seq<Deleted>)
    requires Explained(t, after, relinks, deleted)
    requires MappingsComingBack(t, after, rows, deleted, |deleted|)
    ensures MappingsRestored(t, after, rows)
  {
    forall k | k in t.original && !IsLineKey(k)
      ensures k in rows && rows[k] == if k in t.folded then t.folded[k] else t.original[k]
    {
      if k in t.folded {
        assert k !in DeletedKeys(deleted, true);
        assert k in after;
      } else {
        assert k in DeletedKeys(deleted, false);
      }
    }
  }

  /** Every row exists again, with the folds still applied to those that were not dropped. */
  ghost predicate DeletionsUndone(t: Trace, rows: Rows) {
    && rows.Keys == t.original.Keys
    && (forall k :: k in rows ==> rows[k] == if k in t.folded then t.folded[k] else t.original[k])
  }

  /** The lines in `rows` are as the folds left them, and no kept line is missing. */
  ghost predicate LinesComingBack(t: Trace, after: Rows, rows: Rows) {
    && (forall k :: k in rows && IsLineKey(k) ==> k in t.folded && rows[k] == t.folded[k])
    && (forall k :: k in after && IsLineKey(k) ==> k in rows)
    && (forall k :: !IsLineKey(k) ==> (k in rows <==> k in t.original))
    && (forall k :: k in rows && !IsLineKey(k) ==> rows[k] == if k in t.folded then t.folded[k] else t.original[k])
  }

  /** Taking the absorbed quantity out again gives the line as the folds left it. */
  lemma {:induction false} KeptLineRestored(t: Trace, after: Rows, deleted: seq<Deleted>, k: RowKey)
    requires AllTyped(t.folded) && Deduplicated(t.folded, after, deleted)
    requires k in after && IsLineKey(k)
    ensures k in t.folded && AddQuantity(after[k], -Absorbed(deleted, k)) == t.folded[k]
  {
    assert Typed(k.table, t.folded[k]);
    assert after[k] == AddQuantity(t.folded[k], Absorbed(deleted, k));
  }

  lemma {:induction false} KeptLinesRestored(t: Trace, after: Rows, rows: Rows, relinks: seq<Relink>, deleted: seq<Deleted>)
    requires Explained(t, after, relinks, deleted) && AllTyped(rows)
    requires MappingsRestored(t, after, rows)
    ensures LinesComingBack(t, after, WithoutAbsorbed(rows, deleted))
  {
    forall k | k in rows && IsLineKey(k)
      ensures k in t.folded && WithoutAbsorbed(rows, deleted)[k] == t.folded[k]
    {
      KeptLineRestored(t, after, deleted, k);
    }
    forall k | k in rows && !IsLineKey(k) ensures WithoutAbsorbed(rows, deleted)[k] == rows[k] {
      assert Typed(k.table, rows[k]);
    }
  }

  /** A recipe line occupies no entry of a mapping index. */
  lemma {:induction false} LineStaysUnique(rows: Rows, key: RowKey, row: Row)
    requires UniqueIndexes(rows) && row.payload.Line?
    ensures UniqueIndexes(rows[key := row])
  {
    var rows' := rows[key := row];
    forall a, b | a in rows' && b in rows' && Clash(a, rows'[a], b, rows'[b]) ensures a == b {
      assert Clash(a, rows[a], b, rows[b]);
    }
  }

  ghost predicate Reinserted(deleted: seq<Deleted>, j: nat, rows: Rows)
    requires j <= |deleted|
  {
    forall i | 0 <= i < j && IsLine(deleted[i]) :: deleted[i].key in rows
  }

  lemma {:induction false} LineStep(t: Trace, after: Rows, rows: Rows, deleted: seq<Deleted>, j: nat)
    requires Deduplicated(t.folded, after, deleted) && LinesComingBack(t, after, rows)
    requires j < |deleted| && IsLine(deleted[j]) && Reinserted(deleted, j, rows)
    ensures deleted[j].key in rows ==> rows[deleted[j].key := deleted[j].row] == rows
    ensures LinesComingBack(t, after, rows[deleted[j].key := deleted[j].row])
    ensures Reinserted(deleted, j + 1, rows[deleted[j].key := deleted[j].row])
  {
  }

  lemma {:induction false} LineInsert(t: Trace, after: Rows, rows: Rows, relinks: seq<Relink>, deleted: seq<Deleted>, j: nat)
    requires GoodTrace(t) && Explained(t, after, relinks, deleted) && UniqueIndexes(rows)
    requires j < |deleted| && IsLine(deleted[j])
    ensures Typed(deleted[j].key.table, deleted[j].row)
    ensures deleted[j].row.ingredientId.value in t.ingredients
    ensures UniqueIndexes(rows[deleted[j].key := deleted[j].row])
  {
    assert Typed(deleted[j].key.table, t.folded[deleted[j].key]);
    LineStaysUnique(rows, deleted[j].key, deleted[j].row);
  }

  lemma {:induction false} AllLinesBack(t: Trace, after: Rows, rows: Rows, relinks: seq<Relink>, deleted: seq<Deleted>)
    requires Explained(t, after, relinks, deleted)
    requires LinesComingBack(t, after, rows)
    requires Reinserted(deleted, |deleted|, rows)
    ensures DeletionsUndone(t, rows)
  {
    forall k | k in t.original && IsLineKey(k) ensures k in rows {
      assert k !in DeletedKeys(deleted, false);
      if k !in after {
        assert k in DeletedKeys(deleted, true);
      }
    }
    assert rows.Keys == t.original.Keys;
  }

  // ----- Reverting the relinks ------------------------------------------------------------------

  /** The columns that reverting a relink writes. */
  function Unrepoint(row: Row, r: Relink): Row {
    row.(ingredientId := Some(r.oldIngredientId),
         payload := if row.payload.Line? && r.oldName.Some?
                    then row.payload.(canonicalName := r.oldName.value) else row.payload)
  }

  /** The first `j` relinks are reverted; every row is an original one or still the folded one. */
  ghost predicate Reverting(t: Trace, rows: Rows, relinks: seq<Relink>, j: nat)
    requires j <= |relinks|
  {
    && rows.Keys == t.original.Keys
    && (forall k :: k in rows ==> rows[k] == t.original[k] || (k in t.folded && rows[k] == t.folded[k]))
    && (forall i | 0 <= i < j :: relinks[i].key in rows && rows[relinks[i].key] == t.original[relinks[i].key])
  }

  lemma {:induction false} RevertStep(t: Trace, rows: Rows, relinks: seq<Relink>, j: nat)
    requires j < |relinks| && Reverting(t, rows, relinks, j) && Remembers(relinks[j], t.original)
    ensures Reverting(t, rows[relinks[j].key := t.original[relinks[j].key]], relinks, j + 1)
  {
  }

  lemma {:induction false} RevertOne(t: Trace, after: Rows, rows: Rows, relinks: seq<Relink>, deleted: seq<Deleted>, j: nat)
    requires GoodTrace(t) && Explained(t, after, relinks, deleted) && AllTyped(rows)
    requires j < |relinks| && Reverting(t, rows, relinks, j)
    ensures Remembers(relinks[j], t.original) && relinks[j].key in rows
    ensures Unrepoint(rows[relinks[j].key], relinks[j]) == t.original[relinks[j].key]
    ensures UniqueIndexes(rows[relinks[j].key := t.original[relinks[j].key]])
    ensures Typed(relinks[j].key.table, t.original[relinks[j].key])
    ensures relinks[j].oldIngredientId in t.ingredients
  {
    var key := relinks[j].key;
    assert Remembers(relinks[j], t.original);
    assert Typed(key.table, t.original[key]);
    MixedUnique(t, rows[key := t.original[key]], relinks, deleted);
  }

  lemma {:induction false} AllReverted(t: Trace, rows: Rows, relinks: seq<Relink>, deleted: seq<Deleted>)
    requires Folded(t.original, t.olds, t.folds, t.folded, relinks, deleted)
    requires Reverting(t, rows, relinks, |relinks|)
    ensures rows == t.original
  {
    forall k | k in rows ensures rows[k] == t.original[k] {
      if k in RelinkKeys(relinks) {
        var i :| 0 <= i < |relinks| && relinks[i].key == k;
      }
    }
  }
}
