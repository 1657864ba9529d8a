/**
  The ingredient-identity consolidation migration: `upgrade` folds every variant ingredient into its
  survivor and journals what it did; `downgrade` replays the journal.

  The SQL statements are methods whose preconditions are the constraints the database enforces (a
  statement that breaks a unique index or a foreign key raises), so verifying a caller shows that no
  statement raises.  The rows of a SELECT without ORDER BY are visited in an arbitrary order.
 */
module Consolidation {
  import opened Collections
  import opened Wrappers
  import opened ConsolidationJournal
  import opened ConsolidationDedup
  import opened ConsolidationRevert

  class Connection {
    var ingredients: Ingredients
    var rows: Rows
    var aliases: map<string, nat>
    var audit: seq<Audit>
    var relinks: seq<Relink>
    var deleted: seq<Deleted>

    constructor (ingredients: Ingredients, rows: Rows)
      ensures this.ingredients == ingredients && this.rows == rows
      ensures aliases == map[] && audit == [] && relinks == [] && deleted == []
    {
      this.ingredients, this.rows := ingredients, rows;
      aliases, audit, relinks, deleted := map[], [], [], [];
    }

    /** What the database itself enforces after every statement. */
    ghost predicate Constraints()
      reads this`ingredients, this`rows, this`aliases, this`audit
    {
      && AllTyped(rows)
      && UniqueIndexes(rows)
      && ForeignKeys(rows, ingredients)
      && (forall a :: a in aliases ==> aliases[a] in ingredients)
      && (forall j | 0 <= j < |audit| :: audit[j].newId in ingredients)
    }

    // ----- SQL statements -----

    /**
      UPDATE table SET ingredient_id = merge.newId [, canonical_name = merge.newName]
      WHERE ingredient_id = merge.oldId
     */
    method UpdateReferences(table: Table, merge: Merge)
      requires Constraints() && merge.newId in ingredients
      requires AlwaysUnique(rows, table, merge)
      modifies this`rows
      ensures Constraints()
      ensures rows == Repointed(old(rows), table, merge)
    {
      rows := Repointed(rows, table, merge);
    }

    /** UPDATE recipe_ingredient SET quantity = quantity + q WHERE id = key.id */
    method AddToQuantity(key: RowKey, q: real)
      requires Constraints() && key in rows
      modifies this`rows
      ensures Constraints() && rows == old(rows)[key := AddQuantity(old(rows)[key], q)]
    {
      rows := rows[key := AddQuantity(rows[key], q)];
    }

    /** UPDATE recipe_ingredient r SET quantity = r.quantity - (what the journal says r absorbed) */
    method SubtractAbsorbed()
      requires Constraints()
      modifies this`rows
      ensures Constraints() && rows == WithoutAbsorbed(old(rows), deleted)
    {
      WithoutAbsorbedTyped(rows, deleted);
      rows := WithoutAbsorbed(rows, deleted);
    }

    /** UPDATE table SET ingredient_id = ..., canonical_name = ... WHERE id = key.id, to the columns of `row` */
    method UpdateRow(key: RowKey, row: Row)
      requires Constraints() && key in rows && Typed(key.table, row)
      requires row.ingredientId.Some? ==> row.ingredientId.value in ingredients
      requires UniqueIndexes(rows[key := row])
      modifies this`rows
      ensures Constraints() && rows == old(rows)[key := row]
    {
      rows := rows[key := row];
    }

    /** DELETE FROM table WHERE id = key.id */
    method DeleteRow(key: RowKey)
      requires Constraints()
      modifies this`rows
      ensures Constraints() && rows == old(rows) - {key}
    {
      rows := rows - {key};
    }

    /** DELETE FROM ingredient WHERE id = id */
    method DeleteIngredient(id: nat)
      requires Constraints()
      requires forall k :: k in rows ==> rows[k].ingredientId != Some(id)
      requires forall a :: a in aliases ==> aliases[a] != id
      requires forall j | 0 <= j < |audit| :: audit[j].newId != id
      modifies this`ingredients
      ensures Constraints() && ingredients == old(ingredients) - {id}
    {
      ingredients := ingredients - {id};
    }

    /** INSERT INTO ingredient ... ON CONFLICT (id) DO NOTHING */
    method InsertIngredient(id: nat, ingredient: Ingredient)
      requires Constraints()
      modifies this`ingredients
      ensures Constraints()
      ensures ingredients == if id in old(ingredients) then old(ingredients) else old(ingredients)[id := ingredient]
    {
      if id !in ingredients {
        ingredients := ingredients[id := ingredient];
      }
    }

    /** INSERT INTO table ... ON CONFLICT (id) DO NOTHING */
    method InsertRow(key: RowKey, row: Row)
      requires Constraints() && Typed(key.table, row)
      requires row.ingredientId.Some? ==> row.ingredientId.value in ingredients
      requires key !in rows ==> UniqueIndexes(rows[key := row])
      modifies this`rows
      ensures Constraints()
      ensures rows == if key in old(rows) then old(rows) else old(rows)[key := row]
    {
      if key !in rows {
        rows := rows[key := row];
      }
    }

    // ----- Upgrade -----

    /** Journals what the rows `selected` refer to and are called before they are re-pointed. */
    method RecordRelinks(auditId: nat, merge: Merge, selected: set<RowKey>, ghost r0: Rows)
      requires selected <= rows.Keys && selected <= r0.Keys
      requires forall k :: k in selected ==> rows[k] == r0[k] && rows[k].ingredientId == Some(merge.oldId)
      requires forall j | 0 <= j < |relinks| :: Remembers(relinks[j], r0)
      modifies this`relinks
      ensures RelinkKeys(relinks) == RelinkKeys(old(relinks)) + selected
      ensures forall j | 0 <= j < |relinks| :: Remembers(relinks[j], r0)
    {
      var todo := selected;
      while todo != {}
        invariant todo <= selected
        invariant RelinkKeys(relinks) == RelinkKeys(old(relinks)) + (selected - todo)
        invariant forall j | 0 <= j < |relinks| :: Remembers(relinks[j], r0)
      {
        var key :| key in todo;
        RelinkKeysAppend(relinks, Relink(auditId, key, merge.oldId, RecordedName(rows[key])));
        relinks := relinks + [Relink(auditId, key, merge.oldId, RecordedName(rows[key]))];
        todo := todo - {key};
      }
    }

    /** The UPDATE of one table, preceded by its journal. */
    method RelinkRows(auditId: nat, table: Table, merge: Merge,
                            ghost r0: Rows, ghost olds: set<nat>, ghost f: Folds)
      requires Constraints() && AllTyped(r0)
      requires Folded(r0, olds, f, rows, relinks, deleted) && Within(f, olds)
      requires merge.oldId in olds && merge.newId !in olds && merge.newId in ingredients
      requires (table, merge.oldId) !in f
      requires AlwaysUnique(rows, table, merge)
      modifies this`rows, this`relinks
      ensures Constraints()
      ensures Folded(r0, olds, f[(table, merge.oldId) := merge], rows, relinks, deleted)
      ensures rows == Repointed(old(rows), table, merge)
    {
      var selected := set k | k in rows && Refers(table, merge.oldId, k, rows[k]);
      SelectedUnfolded(r0, olds, f, rows, relinks, deleted, table, merge.oldId);
      RecordRelinks(auditId, merge, selected, r0);
      FoldStep(r0, olds, f, rows, old(relinks), relinks, deleted, table, merge);
      if selected != {} {
        UpdateReferences(table, merge);
      } else {
        assert forall k :: k in rows && Refers(table, merge.oldId, k, rows[k]) ==> k in selected;
        NothingToRepoint(rows, table, merge);
      }
    }

    /** Journals and re-points the rows of `table` that refer to the folded ingredient. */
    method RelinkReferences(auditId: nat, table: Table, merge: Merge,
                            ghost r0: Rows, ghost olds: set<nat>, ghost f: Folds)
      requires Constraints() && AllTyped(r0)
      requires Folded(r0, olds, f, rows, relinks, deleted) && Within(f, olds)
      requires merge.oldId in olds && merge.newId !in olds && merge.newId in ingredients
      requires (table, merge.oldId) !in f
      requires AlwaysUnique(rows, table, merge)
      modifies this`rows, this`relinks
      ensures Constraints()
      ensures Folded(r0, olds, f[(table, merge.oldId) := merge], rows, relinks, deleted)
      ensures rows == Repointed(old(rows), table, merge)
      ensures rows.Keys == old(rows).Keys && MovedIn(old(rows), rows, table, merge)
    {
      RepointedMoves(rows, table, merge);
      RelinkRows(auditId, table, merge, r0, olds, f);
    }

    /** Snapshots one mapping row and deletes it. */
    method DropMapping(auditId: nat, table: Table, oldId: nat, key: RowKey,
                       ghost r0: Rows, ghost olds: set<nat>, ghost f: Folds)
      requires Constraints() && NoLines(deleted) && IsMappingTable(table)
      requires Folded(r0, olds, f, rows, relinks, deleted) && Within(f, olds)
      requires oldId in olds && (table, oldId) !in f
      requires key in rows && Refers(table, oldId, key, rows[key])
      modifies this`rows, this`deleted
      ensures Constraints() && NoLines(deleted)
      ensures Folded(r0, olds, f, rows, relinks, deleted)
      ensures rows == old(rows) - {key}
    {
      DropRow(r0, olds, f, rows, relinks, deleted, table, oldId, Deleted(auditId, key, rows[key], None));
      deleted := deleted + [Deleted(auditId, key, rows[key], None)];
      DeleteRow(key);
    }

    /** Snapshots and deletes the mappings `keys` of the folded ingredient. */
    method DropMappings(auditId: nat, table: Table, oldId: nat, keys: set<RowKey>,
                        ghost r0: Rows, ghost olds: set<nat>, ghost f: Folds)
      requires Constraints() && NoLines(deleted) && IsMappingTable(table)
      requires Folded(r0, olds, f, rows, relinks, deleted) && Within(f, olds)
      requires oldId in olds && (table, oldId) !in f
      requires forall k :: k in keys ==> k in rows && Refers(table, oldId, k, rows[k])
      modifies this`rows, this`deleted
      ensures Constraints() && NoLines(deleted)
      ensures Folded(r0, olds, f, rows, relinks, deleted)
      ensures rows == old(rows) - keys
    {
      var todo := keys;
      while todo != {}
        invariant todo <= keys
        invariant rows == old(rows) - (keys - todo)
        invariant Constraints() && NoLines(deleted)
        invariant Folded(r0, olds, f, rows, relinks, deleted)
      {
        var key :| key in todo;
        WithoutOneMore(old(rows), keys, todo, key);
        DropMapping(auditId, table, oldId, key, r0, olds, f);
        todo := todo - {key};
      }
    }

    /** Journals and deletes exactly the mappings that would clash with one of the survivor's. */
    method DropCollisions(auditId: nat, table: Table, merge: Merge,
                          ghost r0: Rows, ghost olds: set<nat>, ghost f: Folds)
      requires Constraints() && NoLines(deleted) && IsMappingTable(table)
      requires Folded(r0, olds, f, rows, relinks, deleted) && Within(f, olds)
      requires merge.oldId in olds && merge.newId !in olds
      requires (table, merge.oldId) !in f
      modifies this`rows, this`deleted
      ensures Constraints() && NoLines(deleted)
      ensures Folded(r0, olds, f, rows, relinks, deleted)
      ensures AlwaysUnique(rows, table, merge)
      ensures forall k :: k in old(rows) ==>
        (k !in rows <==> Refers(table, merge.oldId, k, old(rows)[k]) && Collides(old(rows), k, merge.newId))
      ensures rows == WithoutCollisions(old(rows), table, merge)
    {
      var colliding := set k | k in rows && Refers(table, merge.oldId, k, rows[k]) && Collides(rows, k, merge.newId);
      DropMappings(auditId, table, merge.oldId, colliding, r0, olds, f);
      MapsEqual(rows, WithoutCollisions(old(rows), table, merge));
      NoCollisionLeft(old(rows), rows, table, merge);
    }

    /** Drops the colliding mappings, then relinks the rest. */
    method ReconcileMapping(auditId: nat, table: Table, merge: Merge,
                            ghost r0: Rows, ghost olds: set<nat>, ghost f: Folds)
      requires Constraints() && NoLines(deleted) && AllTyped(r0) && IsMappingTable(table)
      requires Folded(r0, olds, f, rows, relinks, deleted) && Within(f, olds)
      requires merge.oldId in olds && merge.newId !in olds && merge.newId in ingredients
      requires (table, merge.oldId) !in f
      modifies this`rows, this`relinks, this`deleted
      ensures Constraints() && NoLines(deleted)
      ensures Folded(r0, olds, f[(table, merge.oldId) := merge], rows, relinks, deleted)
      ensures rows == Reconciled(old(rows), table, merge)
    {
      DropCollisions(auditId, table, merge, r0, olds, f);
      RelinkReferences(auditId, table, merge, r0, olds, f);
    }

    /** Relinks the three tables without a unique index on `ingredient_id`. */
    method RelinkSimpleTables(auditId: nat, merge: Merge, ghost r0: Rows, ghost olds: set<nat>, ghost f: Folds)
      requires Constraints() && AllTyped(r0)
      requires Folded(r0, olds, f, rows, relinks, deleted) && Within(f, olds)
      requires merge.newId in ingredients && merge.oldId in olds && merge.newId !in olds
      requires forall p :: p in f ==> p.1 != merge.oldId
      modifies this`rows, this`relinks
      ensures Constraints()
      ensures Folded(r0, olds, AddSimpleFold(f, merge), rows, relinks, deleted)
      ensures rows == RelinkedSimple(old(rows), merge)
    {
      SimpleTablesStayUnique(rows, RecipeIngredient, merge);
      RelinkReferences(auditId, RecipeIngredient, merge, r0, olds, f);
      ghost var f1 := f[(RecipeIngredient, merge.oldId) := merge];
      SimpleTablesStayUnique(rows, PantryItem, merge);
      RelinkReferences(auditId, PantryItem, merge, r0, olds, f1);
      SimpleTablesStayUnique(rows, GroceryListItem, merge);
      RelinkReferences(auditId, GroceryListItem, merge, r0, olds, f1[(PantryItem, merge.oldId) := merge]);
    }

    /** Reconciles the two mapping tables. */
    method ReconcileMappings(auditId: nat, merge: Merge, ghost r0: Rows, ghost olds: set<nat>, ghost f: Folds)
      requires Constraints() && NoLines(deleted) && AllTyped(r0)
      requires Folded(r0, olds, f, rows, relinks, deleted) && Within(f, olds)
      requires merge.newId in ingredients && merge.oldId in olds && merge.newId !in olds
      requires (IngredientProductMapping, merge.oldId) !in f && (ProviderIngredientMapping, merge.oldId) !in f
      modifies this`rows, this`relinks, this`deleted
      ensures Constraints() && NoLines(deleted)
      ensures Folded(r0, olds, AddMappingFold(f, merge), rows, relinks, deleted)
      ensures rows == ReconciledMappings(old(rows), merge)
    {
      ReconcileMapping(auditId, IngredientProductMapping, merge, r0, olds, f);
      ReconcileMapping(auditId, ProviderIngredientMapping, merge, r0, olds, f[(IngredientProductMapping, merge.oldId) := merge]);
    }

    /** One fold: audit it, re-point every reference, then delete the variant. */
    method FoldIngredient(merge: Merge, ghost r0: Rows, ghost olds: set<nat>, ghost f: Folds)
      requires Constraints() && NoLines(deleted) && AllTyped(r0)
      requires Folded(r0, olds, f, rows, relinks, deleted) && Within(f, olds)
      requires merge.oldId in ingredients && merge.newId in ingredients
      requires merge.oldId in olds && merge.newId !in olds
      requires forall p :: p in f ==> p.1 != merge.oldId
      requires forall a :: a in aliases ==> aliases[a] !in olds
      requires forall j | 0 <= j < |audit| :: audit[j].newId !in olds
      modifies this`ingredients, this`rows, this`audit, this`relinks, this`deleted
      ensures Constraints() && NoLines(deleted)
      ensures Folded(r0, olds, AddFold(f, merge), rows, relinks, deleted)
      ensures rows == AfterFold(old(rows), merge)
      ensures MovedEverywhere(old(rows), rows, merge)
      ensures ingredients == old(ingredients) - {merge.oldId}
      ensures audit == old(audit) + [AuditOf(merge, old(ingredients))]
    {
      AfterFoldMoves(rows, merge);
      var auditId := |audit|;
      audit := audit + [AuditOf(merge, ingredients)];
      RelinkSimpleTables(auditId, merge, r0, olds, f);
      ReconcileMappings(auditId, merge, r0, olds, AddSimpleFold(f, merge));
      NoReferenceLeft(r0, olds, f, rows, relinks, deleted, merge);
      DeleteIngredient(merge.oldId);
    }

    method MoveQuantity(kept: nat, dup: nat)
      requires Constraints()
      requires LineKey(kept) in rows && LineKey(dup) in rows && kept != dup
      modifies this`rows
      ensures Constraints()
      ensures rows == MergeInto(old(rows), kept, dup)
    {
      AddToQuantity(LineKey(kept), Quantity(rows, dup));
      DeleteRow(LineKey(dup));
    }

    /** Journals the line `dup`, adds its quantity to the line `kept` and deletes it. */
    method MergeLine(auditId: nat, kept: nat, dup: nat, ghost t: Trace)
      requires Constraints()
      requires Explained(t, rows, relinks, deleted)
      requires LineKey(kept) in rows && kept != dup
      requires Untouched(t.folded, rows, deleted, {dup})
      modifies this`rows, this`deleted
      ensures Constraints()
      ensures deleted == old(deleted) + [Deleted(auditId, LineKey(dup), t.folded[LineKey(dup)], Some(kept))]
      ensures Explained(t, rows, relinks, deleted)
      ensures rows == MergeInto(old(rows), kept, dup)
      ensures TotalQuantity(rows) == TotalQuantity(old(rows))
    {
      var rowData := rows[LineKey(dup)];
      MergeExplained(t, rows, relinks, deleted, kept, dup, Deleted(auditId, LineKey(dup), rowData, Some(kept)));
      MergeConserves(rows, kept, dup);
      deleted := deleted + [Deleted(auditId, LineKey(dup), rowData, Some(kept))];
      MoveQuantity(kept, dup);
    }

    /** Merges the next line of `rest`, in the order of the ids, into the first of `ids`. */
    method MergeNext(auditId: nat, ids: set<nat>, rest: set<nat>, ghost before: Rows, ghost t: Trace)
      requires Constraints() && Explained(t, rows, relinks, deleted)
      requires rest != {} && Untouched(t.folded, rows, deleted, rest)
      requires Merging(t.folded, before, rows, ids, rest)
      modifies this`rows, this`deleted
      ensures Constraints() && Explained(t, rows, relinks, deleted)
      ensures Targets(deleted) == Targets(old(deleted)) + {Min(ids)}
      ensures Untouched(t.folded, rows, deleted, rest - {Min(rest)})
      ensures Merging(t.folded, before, rows, ids, rest - {Min(rest)})
      ensures TotalQuantity(rows) == TotalQuantity(old(rows))
    {
      ghost var d := Deleted(auditId, LineKey(Min(rest)), t.folded[LineKey(Min(rest))], Some(Min(ids)));
      TargetsAppend(deleted, d);
      MergingStep(t.folded, before, rows, deleted, ids, rest, d);
      MergeLine(auditId, Min(ids), Min(rest), t);
    }

    /** Merges the lines `ids` into the first of them. */
    method MergeGroup(auditId: nat, ids: set<nat>, ghost t: Trace)
      requires Constraints() && Explained(t, rows, relinks, deleted)
      requires ids != {} && Untouched(t.folded, rows, deleted, ids)
      modifies this`rows, this`deleted
      ensures Constraints() && Explained(t, rows, relinks, deleted)
      ensures Targets(deleted) <= Targets(old(deleted)) + {Min(ids)}
      ensures Merging(t.folded, old(rows), rows, ids, {})
      ensures TotalQuantity(rows) == TotalQuantity(old(rows))
    {
      var rest := ids - {Min(ids)};
      MergingStart(t.folded, rows, deleted, ids);
      while rest != {}
        invariant Constraints() && Explained(t, rows, relinks, deleted)
        invariant Targets(deleted) <= Targets(old(deleted)) + {Min(ids)}
        invariant Untouched(t.folded, rows, deleted, rest)
        invariant Merging(t.folded, old(rows), rows, ids, rest)
        invariant TotalQuantity(rows) == TotalQuantity(old(rows))
      {
        MergeNext(auditId, ids, rest, old(rows), t);
        rest := rest - {Min(rest)};
      }
    }

    /** Merges the recipe lines that the folds made cite one ingredient twice in a recipe. */
    method MergeDuplicateLines(auditIdByNew: map<nat, nat>, ghost t: Trace)
      requires Constraints()
      requires rows == t.folded && Explained(t, rows, relinks, deleted) && Targets(deleted) == {}
      modifies this`rows, this`deleted
      ensures Constraints()
      ensures Explained(t, rows, relinks, deleted)
      ensures LinesMerged(t.folded, rows, auditIdByNew.Keys, RepointedLines(relinks))
      ensures TotalQuantity(rows) == TotalQuantity(t.folded)
    {
      var repointed := RepointedLines(relinks);
      var groups := DuplicateGroups(rows, auditIdByNew.Keys);
      var todo := groups.Keys;
      ghost var merged: set<Group> := {};
      while todo != {}
        invariant todo <= groups.Keys && merged !! todo
        invariant Constraints()
        invariant Explained(t, rows, relinks, deleted)
        invariant Progress(t.folded, rows, Targets(deleted), merged)
        invariant forall g :: g in merged ==> Repeats(t.folded, auditIdByNew.Keys, repointed, g)
        invariant forall g :: g in groups && Repeats(t.folded, auditIdByNew.Keys, repointed, g) ==> g in merged || g in todo
        invariant TotalQuantity(rows) == TotalQuantity(t.folded)
      {
        var g :| g in todo;
        var ids := groups[g];
        if ids * repointed != {} {
          GroupUntouched(t.folded, rows, deleted, merged, g);
          ghost var before, targets := rows, Targets(deleted);
          MergeGroup(auditIdByNew[g.ingredientId], ids, t);
          GroupDone(t.folded, before, rows, targets, Targets(deleted), merged, g);
          merged := merged + {g};
        }
        todo := todo - {g};
      }
      AllMerged(t.folded, rows, Targets(deleted), merged, auditIdByNew.Keys, repointed);
    }

    /** INSERT INTO ingredient_alias ... ON CONFLICT (alias_text) DO NOTHING, for every planned alias. */
    method RecordAliases(planned: seq<Alias>)
      requires Constraints() && aliases == map[]
      requires forall i | 0 <= i < |planned| :: planned[i].ingredientId in ingredients
      modifies this`aliases
      ensures Constraints()
      ensures Recorded(planned, aliases)
      ensures forall a :: a in aliases ==> exists i | 0 <= i < |planned| :: planned[i] == Alias(a, aliases[a])
    {
      for i := 0 to |planned|
        invariant Constraints()
        invariant Recorded(planned[..i], aliases)
      {
        RecordedStep(planned[..i], aliases, planned[i]);
        PrefixStep(planned, i);
        if planned[i].text !in aliases {
          aliases := aliases[planned[i].text := planned[i].ingredientId];
        }
      }
      FullPrefix(planned);
      assert forall a :: a in aliases ==> FirstPlanned(planned, Alias(a, aliases[a]));
    }

    /** The folds `done` have been applied to the database `i0`, `r0`. */
    ghost predicate FoldsApplied(done: seq<Merge>, olds: set<nat>, r0: Rows, i0: Ingredients)
      reads this
    {
      && Constraints() && NoLines(deleted)
      && Folded(r0, olds, FoldsOf(done), rows, relinks, deleted)
      && EntriesHeld(r0, FoldsOf(done), rows)
      && AuditsOf(done, olds, i0, ingredients, audit)
      && (forall a :: a in aliases ==> aliases[a] !in olds)
    }

    lemma {:induction false} NothingApplied(olds: set<nat>)
      requires Constraints() && audit == [] && relinks == [] && deleted == []
      requires forall a :: a in aliases ==> aliases[a] !in olds
      ensures FoldsApplied([], olds, rows, ingredients)
    {
      FoldedNothing(rows, olds);
      EntriesHeldAtFirst(rows);
    }

    method ApplyFold(done: seq<Merge>, merge: Merge, ghost olds: set<nat>, ghost r0: Rows, ghost i0: Ingredients)
      requires FoldsApplied(done, olds, r0, i0) && AllTyped(r0)
      requires merge.oldId in ingredients && merge.newId in ingredients
      requires OldIds(done) <= olds && NewIds(done) !! olds && merge.oldId in olds && merge.newId !in olds
      requires merge.oldId !in OldIds(done)
      modifies this`ingredients, this`rows, this`audit, this`relinks, this`deleted
      ensures FoldsApplied(done + [merge], olds, r0, i0)
    {
      FoldsOfPlan(done, olds);
      IdsAppend(done, merge);
      EntriesHeldByFold(r0, olds, FoldsOf(done), rows, merge);
      FoldIngredient(merge, r0, olds, FoldsOf(done));
      AuditsStep(done, olds, i0, old(ingredients), old(audit), merge);
    }

    /** Applies the `i`-th fold of the plan. */
    method ApplyNext(merges: seq<Merge>, i: nat, ghost olds: set<nat>, ghost r0: Rows, ghost i0: Ingredients)
      requires i < |merges| && FoldsApplied(merges[..i], olds, r0, i0) && AllTyped(r0)
      requires Folding(merges, olds, i0)
      modifies this`ingredients, this`rows, this`audit, this`relinks, this`deleted
      ensures FoldsApplied(merges[..i + 1], olds, r0, i0)
    {
      NextFold(merges, i, olds);
      ApplyFold(merges[..i], merges[i], olds, r0, i0);
    }

    /** Applies every fold of the plan; returns the first audit of each survivor. */
    method ApplyFolds(merges: seq<Merge>, ghost olds: set<nat>) returns (auditIdByNew: map<nat, nat>)
      requires Constraints()
      requires Folding(merges, olds, ingredients)
      requires forall a :: a in aliases ==> aliases[a] !in olds
      requires audit == [] && relinks == [] && deleted == []
      modifies this`ingredients, this`rows, this`audit, this`relinks, this`deleted
      ensures FoldsApplied(merges, olds, old(rows), old(ingredients))
      ensures auditIdByNew.Keys == NewIds(merges)
    {
      auditIdByNew := map[];
      NothingApplied(olds);
      for i := 0 to |merges|
        invariant FoldsApplied(merges[..i], olds, old(rows), old(ingredients))
        invariant auditIdByNew.Keys == NewIds(merges[..i])
      {
        ApplyNext(merges, i, olds, old(rows), old(ingredients));
        PrefixStep(merges, i);
        IdsAppend(merges[..i], merges[i]);
        auditIdByNew := SetDefault<nat, nat>(auditIdByNew, merges[i].newId, i);
      }
      FullPrefix(merges);
    }

    /** The journal and the current rows record the upgrade `t`, so that it can be reverted. */
    ghost predicate Journals(t: Trace)
      reads this
    {
      && Constraints()
      && GoodTrace(t)
      && Explained(t, rows, relinks, deleted)
      && Audited(t.ingredients, ingredients, audit)
    }

    /** Records the aliases and applies the folds; the duplicated recipe lines are still there. */
    method FoldAll(plan: Plan) returns (auditIdByNew: map<nat, nat>, ghost t: Trace)
      requires Constraints() && Sound(plan, ingredients)
      requires aliases == map[] && audit == [] && relinks == [] && deleted == []
      modifies this
      ensures Journals(t) && rows == t.folded && Targets(deleted) == {}
      ensures t == Trace(old(ingredients), old(rows), OldIds(plan.merges), FoldsOf(plan.merges), rows)
      ensures ingredients == old(ingredients) - OldIds(plan.merges)
      ensures auditIdByNew.Keys == NewIds(plan.merges)
      ensures EntriesHeld(old(rows), t.folds, rows)
      ensures Recorded(plan.aliases, aliases)
    {
      SoundIds(plan, ingredients);
      RecordAliases(plan.aliases);
      auditIdByNew := ApplyFolds(plan.merges, OldIds(plan.merges));
      t := Trace(old(ingredients), old(rows), OldIds(plan.merges), FoldsOf(plan.merges), rows);
      FoldsOfPlan(plan.merges, OldIds(plan.merges));
      NothingDeduplicated(t, relinks, deleted);
    }

    /** Folds, then merges the recipe lines that cite a survivor twice in one recipe. */
    method FoldAndMerge(plan: Plan) returns (ghost t: Trace)
      requires Constraints() && Sound(plan, ingredients)
      requires aliases == map[] && audit == [] && relinks == [] && deleted == []
      modifies this
      ensures Journals(t)
      ensures t == Trace(old(ingredients), old(rows), OldIds(plan.merges), FoldsOf(plan.merges), t.folded)
      ensures ingredients == old(ingredients) - OldIds(plan.merges)
      ensures EntriesHeld(old(rows), t.folds, t.folded)
      ensures Recorded(plan.aliases, aliases)
      ensures LinesMerged(t.folded, rows, NewIds(plan.merges), LinesOfFolded(old(rows), OldIds(plan.merges)))
      ensures TotalQuantity(rows) == TotalQuantity(old(rows))
    {
      SoundIds(plan, ingredients);
      var auditIdByNew;
      auditIdByNew, t := FoldAll(plan);
      RepointedAreFolded(t.original, plan.merges, t.folded, relinks, deleted);
      FoldsConserve(t, relinks, deleted);
      MergeDuplicateLines(auditIdByNew, t);
    }

    /**
      The forward pass: no row refers to a folded ingredient any more, those that did refer to its survivor and a
      recipe line among them is called by the survivor's name, a recipe cites a survivor it
      was re-pointed to on one line only, no quantity is lost, and no mapping disappears unless a row
      holds its entry for the survivor.
     */
    method Upgrade(plan: Plan) returns (ghost t: Trace)
      requires Constraints() && Sound(plan, ingredients)
      requires aliases == map[] && audit == [] && relinks == [] && deleted == []
      modifies this
      ensures Journals(t)
      ensures t.original == old(rows) && t.ingredients == old(ingredients)
      ensures t.olds == OldIds(plan.merges) && t.folds == FoldsOf(plan.merges)
      ensures ingredients == old(ingredients) - OldIds(plan.merges)
      ensures forall k :: k in rows && rows[k].ingredientId.Some? ==> rows[k].ingredientId.value !in OldIds(plan.merges)
      ensures LinesMerged(t.folded, rows, NewIds(plan.merges), LinesOfFolded(old(rows), OldIds(plan.merges)))
      ensures TotalQuantity(rows) == TotalQuantity(old(rows))
      ensures MappingsKept(old(rows), t.folds, rows)
      ensures MovedBy(plan.merges, old(rows), rows)
      ensures Recorded(plan.aliases, aliases)
    {
      SoundIds(plan, ingredients);
      t := FoldAndMerge(plan);
      NoFoldedReference(t, plan.merges, rows, relinks, deleted);
      AllMappingsKept(t, plan.merges, rows, relinks, deleted);
      AllMovedBy(t, plan.merges, rows, relinks, deleted);
    }

    // ----- Downgrade -----

    method RestoreIngredients(ghost before: Ingredients)
      requires Constraints() && Audited(before, ingredients, audit)
      modifies this`ingredients
      ensures Constraints() && ingredients == before
    {
      for j := 0 to |audit|
        invariant Constraints()
        invariant IngredientsComingBack(before, old(ingredients), ingredients, audit, j)
      {
        SnapshotBack(before, old(ingredients), ingredients, audit, j);
        InsertIngredient(audit[j].snapshotId, audit[j].snapshot);
      }
      AllIngredientsBack(before, old(ingredients), ingredients, audit);
    }

    /** Re-inserts what the `j`-th deletion took away, if it was a mapping. */
    method RestoreMapping(ghost t: Trace, ghost after: Rows, j: nat)
      requires Constraints() && GoodTrace(t) && Explained(t, after, relinks, deleted)
      requires ingredients == t.ingredients
      requires j < |deleted| && MappingsComingBack(t, after, rows, deleted, j)
      modifies this`rows
      ensures Constraints()
      ensures MappingsComingBack(t, after, rows, deleted, j + 1)
    {
      MappingStep(t, after, rows, relinks, deleted, j);
      if !IsLine(deleted[j]) {
        MixedInsert(t, after, rows, relinks, deleted, j);
        InsertRow(deleted[j].key, deleted[j].row);
      }
    }

    /** Re-inserts the mappings that the upgrade dropped. */
    method RestoreMappings(ghost t: Trace)
      requires Constraints() && GoodTrace(t) && Explained(t, rows, relinks, deleted)
      requires ingredients == t.ingredients
      modifies this`rows
      ensures Constraints()
      ensures MappingsRestored(t, old(rows), rows)
    {
      for j := 0 to |deleted|
        invariant Constraints()
        invariant MappingsComingBack(t, old(rows), rows, deleted, j)
      {
        RestoreMapping(t, old(rows), j);
      }
      AllMappingsBack(t, old(rows), rows, relinks, deleted);
    }

    /** Re-inserts what the `j`-th deletion took away, if it was a recipe line. */
    method RestoreLine(ghost t: Trace, ghost after: Rows, j: nat)
      requires Constraints() && GoodTrace(t) && Explained(t, after, relinks, deleted)
      requires ingredients == t.ingredients
      requires j < |deleted| && LinesComingBack(t, after, rows) && Reinserted(deleted, j, rows)
      modifies this`rows
      ensures Constraints()
      ensures LinesComingBack(t, after, rows) && Reinserted(deleted, j + 1, rows)
    {
      if IsLine(deleted[j]) {
        LineStep(t, after, rows, deleted, j);
        LineInsert(t, after, rows, relinks, deleted, j);
        InsertRow(deleted[j].key, deleted[j].row);
      }
    }

    /** Takes the absorbed quantities back and re-inserts the merged recipe lines. */
    method RestoreLines(ghost t: Trace, ghost after: Rows)
      requires Constraints() && GoodTrace(t) && Explained(t, after, relinks, deleted)
      requires ingredients == t.ingredients && MappingsRestored(t, after, rows)
      modifies this`rows
      ensures Constraints()
      ensures DeletionsUndone(t, rows)
    {
      SubtractAbsorbed();
      KeptLinesRestored(t, after, old(rows), relinks, deleted);
      for j := 0 to |deleted|
        invariant Constraints()
        invariant LinesComingBack(t, after, rows)
        invariant Reinserted(deleted, j, rows)
      {
        RestoreLine(t, after, j);
      }
      AllLinesBack(t, after, rows, relinks, deleted);
    }

    /** Reverts every relink by row id. */
    method RevertRelinks(ghost t: Trace, ghost after: Rows)
      requires Constraints() && GoodTrace(t) && Explained(t, after, relinks, deleted)
      requires ingredients == t.ingredients && DeletionsUndone(t, rows)
      modifies this`rows
      ensures Constraints() && rows == t.original
    {
      for j := 0 to |relinks|
        invariant Constraints()
        invariant Reverting(t, rows, relinks, j)
      {
        if relinks[j].key in rows {
          RevertOne(t, after, rows, relinks, deleted, j);
          RevertStep(t, rows, relinks, j);
          UpdateRow(relinks[j].key, Unrepoint(rows[relinks[j].key], relinks[j]));
        }
      }
      AllReverted(t, rows, relinks, deleted);
    }

    /** The downgrade restores the database to what it was before the upgrade `t`, row for row. */
    method Downgrade(ghost t: Trace)
      requires Journals(t)
      modifies this`ingredients, this`rows
      ensures Constraints()
      ensures ingredients == t.ingredients && rows == t.original
    {
      ghost var after := rows;
      RestoreIngredients(t.ingredients);
      RestoreMappings(t);
      RestoreLines(t, after);
      RevertRelinks(t, after);
    }
  }

  /** A downgrade right after an upgrade undoes it exactly, for every database and every sound plan. */
  method RoundTrip(db: Connection, plan: Plan)
    requires db.Constraints() && Sound(plan, db.ingredients)
    requires db.aliases == map[] && db.audit == [] && db.relinks == [] && db.deleted == []
    modifies db
    ensures db.ingredients == old(db.ingredients) && db.rows == old(db.rows)
  {
    ghost var t := db.Upgrade(plan);
    db.Downgrade(t);
  }
}
