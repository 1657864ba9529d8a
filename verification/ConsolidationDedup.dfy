/**
  The recipe lines that a fold made duplicates of one another: their groups, what merging one group
  does, and how the journal explains it.
 */
module ConsolidationDedup {
  import opened Collections
  import opened Wrappers
  import opened ConsolidationJournal

  /** The recipe lines of one recipe that cite one ingredient. */
  datatype Group = Group(recipeId: nat, ingredientId: nat)

  predicate InGroup(key: RowKey, row: Row, g: Group) {
    && key.table == RecipeIngredient
    && row.payload.Line?
    && row.payload.recipeId == g.recipeId
    && row.ingredientId == Some(g.ingredientId)
  }

  function Members(rows: Rows, g: Group): set<nat> {
    set k | k in rows && InGroup(k, rows[k], g) :: k.id
  }

  function LineKey(id: nat): RowKey {
    RowKey(RecipeIngredient, id)
  }

  function Quantity(rows: Rows, id: nat): real {
    if LineKey(id) in rows && rows[LineKey(id)].payload.Line? then rows[LineKey(id)].payload.quantity else 0.0
  }

  lemma {:induction false} Least(s: set<nat>) returns (m: nat)
    requires s != {}
    ensures m in s && forall x :: x in s ==> m <= x
  {
    m := Pick(s);
    if s != {m} {
      var rest := s - {m};
      assert forall x :: x in s ==> x == m || x in rest;
      var m' := Least(rest);
      m := if m <= m' then m else m';
    } else {
      assert forall x :: x in s ==> x == m;
    }
  }

  function Min(s: set<nat>): (m: nat)
    requires s != {}
    ensures m in s && forall x :: x in s ==> m <= x
  {
    assert exists m :: m in s && forall x :: x in s ==> m <= x by {
      var m := Least(s);
    }
    var m :| m in s && forall x | x in s :: m <= x;
    m
  }

  ghost function SumQuantity(rows: Rows, ids: set<nat>): real {
    if ids == {} then 0.0 else Quantity(rows, Min(ids)) + SumQuantity(rows, ids - {Min(ids)})
  }

  /** Any member can be split off the sum, not just the least one. */
  lemma {:induction false} SumQuantityRemove(rows: Rows, ids: set<nat>, id: nat)
    requires id in ids
    ensures SumQuantity(rows, ids) == Quantity(rows, id) + SumQuantity(rows, ids - {id})
    decreases ids
  {
    var m := Min(ids);
    if m != id {
      SumQuantityRemove(rows, ids - {m}, id);
      assert ids - {m} - {id} == ids - {id} - {m};
      assert m in ids - {id} && forall x :: x in ids - {id} ==> m <= x;
    }
  }

  lemma {:induction false} SumQuantitySame(r: Rows, r': Rows, ids: set<nat>)
    requires forall id :: id in ids ==> Quantity(r, id) == Quantity(r', id)
    ensures SumQuantity(r, ids) == SumQuantity(r', ids)
    decreases ids
  {
    if ids != {} {
      SumQuantitySame(r, r', ids - {Min(ids)});
    }
  }

  /** The lines of the recipe table. */
  ghost function LineIds(rows: Rows): set<nat> {
    set k | k in rows && k.table == RecipeIngredient :: k.id
  }

  ghost function TotalQuantity(rows: Rows): real {
    SumQuantity(rows, LineIds(rows))
  }

  // ----- Merging one line into another ----------------------------------------------------------

  /** The three statements that merge the line `dup` into the line `kept`. */
  function MergeInto(rows: Rows, kept: nat, dup: nat): Rows
    requires LineKey(kept) in rows && LineKey(dup) in rows && kept != dup
  {
    rows[LineKey(kept) := AddQuantity(rows[LineKey(kept)], Quantity(rows, dup))] - {LineKey(dup)}
  }

  lemma {:induction false} AbsorbedAppend(deleted: seq<Deleted>, d: Deleted, key: RowKey)
    ensures Absorbed(deleted + [d], key) == Absorbed(deleted, key)
      + if IsLine(d) && key.table == RecipeIngredient
           && d.mergedInto == Some(key.id) && d.row.payload.Line?
        then d.row.payload.quantity else 0.0
  {
    assert (deleted + [d])[..|deleted|] == deleted;
  }

  /** The lines that others were merged into. */
  ghost function Targets(deleted: seq<Deleted>): set<nat> {
    set j | 0 <= j < |deleted| && deleted[j].mergedInto.Some? :: deleted[j].mergedInto.value
  }

  lemma {:induction false} TargetsAppend(deleted: seq<Deleted>, d: Deleted)
    requires d.mergedInto.Some?
    ensures Targets(deleted + [d]) == Targets(deleted) + {d.mergedInto.value}
  {
    var all := deleted + [d];
    assert all[|deleted|] == d;
    forall id | id in Targets(deleted) ensures id in Targets(all) {
      var j :| 0 <= j < |deleted| && deleted[j].mergedInto == Some(id);
      assert all[j] == deleted[j];
    }
  }

  lemma {:induction false} MergeDeduplicated(r1: Rows, rows: Rows, deleted: seq<Deleted>, kept: nat, dup: nat, d: Deleted)
    requires AllTyped(r1) && Deduplicated(r1, rows, deleted)
    requires LineKey(kept) in rows && LineKey(dup) in rows && kept != dup
    requires rows[LineKey(dup)] == r1[LineKey(dup)]
    requires dup !in Targets(deleted)
    requires d == Deleted(d.auditId, LineKey(dup), rows[LineKey(dup)], Some(kept))
    ensures Deduplicated(r1, MergeInto(rows, kept, dup), deleted + [d])
  {
    var rows' := MergeInto(rows, kept, dup);
    assert Typed(RecipeIngredient, r1[LineKey(dup)]) && Typed(RecipeIngredient, r1[LineKey(kept)]);
    DeletedKeysAppend(deleted, d, true);
    forall k | k in rows' ensures rows'[k] == AddQuantity(r1[k], Absorbed(deleted + [d], k)) {
      AbsorbedAppend(deleted, d, k);
    }
    forall j | 0 <= j < |deleted + [d]| && IsLine((deleted + [d])[j])
      ensures LineKey((deleted + [d])[j].mergedInto.value) in rows'
    {
      if j < |deleted| {
        assert deleted[j].mergedInto.value in Targets(deleted);
      }
    }
  }

  lemma {:induction false} MergeConserves(rows: Rows, kept: nat, dup: nat)
    requires AllTyped(rows)
    requires LineKey(kept) in rows && LineKey(dup) in rows && kept != dup
    ensures TotalQuantity(MergeInto(rows, kept, dup)) == TotalQuantity(rows)
  {
    var rows' := MergeInto(rows, kept, dup);
    var ids := LineIds(rows);
    assert Typed(RecipeIngredient, rows[LineKey(dup)]) && Typed(RecipeIngredient, rows[LineKey(kept)]);
    assert kept in ids && dup in ids;
    assert LineIds(rows') == ids - {dup};
    SumQuantityRemove(rows, ids, dup);
    SumQuantityRemove(rows, ids - {dup}, kept);
    SumQuantityRemove(rows', ids - {dup}, kept);
    SumQuantitySame(rows, rows', ids - {dup} - {kept});
  }

  /** One upgrade: what it started from, the folds it applied and the rows right after the folds. */
  datatype Trace = Trace(ingredients: Ingredients, original: Rows, olds: set<nat>, folds: Folds, folded: Rows)

  /** The journal accounts for every difference between the rows before the upgrade and `rows`. */
  ghost predicate Explained(t: Trace, rows: Rows, relinks: seq<Relink>, deleted: seq<Deleted>) {
    && AllTyped(t.original) && AllTyped(t.folded)
    && Within(t.folds, t.olds)
    && Folded(t.original, t.olds, t.folds, t.folded, relinks, deleted)
    && Deduplicated(t.folded, rows, deleted)
  }

  lemma {:induction false} MergeExplained(t: Trace, rows: Rows, relinks: seq<Relink>, deleted: seq<Deleted>, kept: nat, dup: nat, d: Deleted)
    requires Explained(t, rows, relinks, deleted)
    requires LineKey(kept) in rows && kept != dup
    requires Untouched(t.folded, rows, deleted, {dup})
    requires d == Deleted(d.auditId, LineKey(dup), rows[LineKey(dup)], Some(kept))
    ensures Explained(t, MergeInto(rows, kept, dup), relinks, deleted + [d])
  {
    MergeDeduplicated(t.folded, rows, deleted, kept, dup, d);
    FoldedAppendLine(t.original, t.olds, t.folds, t.folded, relinks, deleted, d);
  }

  /** No line of `ids` has been removed, changed or used as the target of a merge. */
  ghost predicate Untouched(r1: Rows, rows: Rows, deleted: seq<Deleted>, ids: set<nat>) {
    && (forall id :: id in ids ==> LineKey(id) in rows && LineKey(id) in r1 && rows[LineKey(id)] == r1[LineKey(id)])
    && (forall id :: id in ids ==> id !in Targets(deleted))
  }

  /** The line that stands for the lines `ids`: the first of them, with the sum of their quantities. */
  ghost function MergedLine(r1: Rows, ids: set<nat>): Row
    requires ids != {} && LineKey(Min(ids)) in r1 && r1[LineKey(Min(ids))].payload.Line?
  {
    var row := r1[LineKey(Min(ids))];
    row.(payload := row.payload.(quantity := SumQuantity(r1, ids)))
  }

  /** Midway through a group: the lines of `ids` except `kept` and `rest` are gone, their quantity moved. */
  ghost predicate Merging(r1: Rows, before: Rows, rows: Rows, ids: set<nat>, rest: set<nat>) {
    && ids != {} && rest <= ids - {Min(ids)}
    && LineKey(Min(ids)) in r1 && r1[LineKey(Min(ids))].payload.Line?
    && (forall k :: k in before ==>
          (k in rows <==> k.table != RecipeIngredient || k.id !in ids || k.id == Min(ids) || k.id in rest))
    && (forall k :: k in rows && k != LineKey(Min(ids)) ==> k in before && rows[k] == before[k])
    && LineKey(Min(ids)) in rows
    && rows[LineKey(Min(ids))] == AddQuantity(MergedLine(r1, ids), -SumQuantity(r1, rest))
  }

  lemma {:induction false} MergingStart(r1: Rows, rows: Rows, deleted: seq<Deleted>, ids: set<nat>)
    requires AllTyped(r1) && ids != {} && Untouched(r1, rows, deleted, ids)
    ensures Merging(r1, rows, rows, ids, ids - {Min(ids)})
    ensures Untouched(r1, rows, deleted, ids - {Min(ids)})
  {
    assert Typed(RecipeIngredient, r1[LineKey(Min(ids))]);
  }

  lemma {:induction false} MergingStep(r1: Rows, before: Rows, rows: Rows, deleted: seq<Deleted>, ids: set<nat>, rest: set<nat>, d: Deleted)
    requires AllTyped(r1) && Merging(r1, before, rows, ids, rest)
    requires rest != {} && Untouched(r1, rows, deleted, rest)
    requires d.mergedInto == Some(Min(ids))
    ensures LineKey(Min(rest)) in rows && Min(ids) != Min(rest)
    ensures Merging(r1, before, MergeInto(rows, Min(ids), Min(rest)), ids, rest - {Min(rest)})
    ensures Untouched(r1, MergeInto(rows, Min(ids), Min(rest)), deleted + [d], rest - {Min(rest)})
  {
    assert Typed(RecipeIngredient, r1[LineKey(Min(rest))]);
    TargetsAppend(deleted, d);
  }

  // ----- Merging every duplicated group ---------------------------------------------------------

  /** The group has a line that a fold re-pointed onto one of the survivors. */
  ghost predicate Repeats(r1: Rows, survivors: set<nat>, repointed: set<nat>, g: Group) {
    g.ingredientId in survivors && Members(r1, g) * repointed != {}
  }

  function RepointedLines(relinks: seq<Relink>): set<nat> {
    set r | r in relinks && r.key.table == RecipeIngredient :: r.key.id
  }

  /** The GROUP BY of the dedup: the groups of several lines that cite a survivor, with their ids. */
  function DuplicateGroups(rows: Rows, survivors: set<nat>): map<Group, set<nat>> {
    var groups := set k | k in rows && k.table == RecipeIngredient && rows[k].payload.Line? && rows[k].ingredientId.Some?
                            && rows[k].ingredientId.value in survivors
                            && |Members(rows, GroupOf(rows[k]))| > 1 :: GroupOf(rows[k]);
    map g | g in groups :: Members(rows, g)
  }

  function GroupOf(row: Row): Group
    requires row.payload.Line? && row.ingredientId.Some?
  {
    Group(row.payload.recipeId, row.ingredientId.value)
  }

  /** Of the group only the first line is left, and it carries the sum of the group's quantities. */
  ghost predicate IsMerged(r1: Rows, rows: Rows, g: Group) {
    var ids := Members(r1, g);
    && (forall id :: id in ids ==> (LineKey(id) in rows <==> id == Min(ids)))
    && (ids != {} ==> rows[LineKey(Min(ids))] == MergedLine(r1, ids))
  }

  /** The groups of `merged` are merged and every other row is as the folds left it. */
  ghost predicate Progress(r1: Rows, rows: Rows, targets: set<nat>, merged: set<Group>)
    requires AllTyped(r1)
  {
    && (forall k :: k in rows ==> k in r1)
    && (forall k | k in r1 ::
          && Typed(k.table, r1[k])
          && ((k.table == RecipeIngredient && GroupOf(r1[k]) in merged) || (k in rows && rows[k] == r1[k])))
    && (forall g :: g in merged ==> IsMerged(r1, rows, g))
    && (forall id :: id in targets ==>
          LineKey(id) in r1 && Typed(RecipeIngredient, r1[LineKey(id)]) && GroupOf(r1[LineKey(id)]) in merged)
  }

  lemma {:induction false} GroupUntouched(r1: Rows, rows: Rows, deleted: seq<Deleted>, merged: set<Group>, g: Group)
    requires AllTyped(r1) && Progress(r1, rows, Targets(deleted), merged) && g !in merged
    ensures Untouched(r1, rows, deleted, Members(r1, g))
  {
    forall id | id in Members(r1, g)
      ensures LineKey(id) in rows && LineKey(id) in r1 && rows[LineKey(id)] == r1[LineKey(id)]
      ensures id !in Targets(deleted)
    {
      assert Typed(RecipeIngredient, r1[LineKey(id)]);
      assert GroupOf(r1[LineKey(id)]) == g;
    }
  }

  lemma {:induction false} GroupDone(r1: Rows, before: Rows, rows: Rows, targets: set<nat>, targets': set<nat>, merged: set<Group>, g: Group)
    requires AllTyped(r1) && Progress(r1, before, targets, merged)
    requires g !in merged && Members(r1, g) != {}
    requires forall k :: k in rows ==> k in before
    requires Merging(r1, before, rows, Members(r1, g), {})
    requires targets' <= targets + {Min(Members(r1, g))}
    ensures Progress(r1, rows, targets', merged + {g})
  {
    var ids := Members(r1, g);
    forall k | k in r1 && k.table == RecipeIngredient
      ensures GroupOf(r1[k]) == g <==> k.id in ids
    {
      assert Typed(RecipeIngredient, r1[k]) && k == LineKey(k.id);
    }
    assert AddQuantity(MergedLine(r1, ids), -SumQuantity(r1, {})) == MergedLine(r1, ids);
    forall h | h in merged ensures IsMerged(r1, rows, h) {
      OtherStaysMerged(r1, before, rows, g, h);
    }
  }

  /** Merging one group leaves another one merged. */
  lemma {:induction false} OtherStaysMerged(r1: Rows, before: Rows, rows: Rows, g: Group, h: Group)
    requires AllTyped(r1) && IsMerged(r1, before, h) && g != h
    requires forall id :: id in Members(r1, h) ==> LineKey(id) in before || id != Min(Members(r1, h))
    requires forall k :: k in rows ==> k in before
    requires Merging(r1, before, rows, Members(r1, g), {})
    ensures IsMerged(r1, rows, h)
  {
    forall id | id in Members(r1, h) ensures id !in Members(r1, g) {
      assert GroupOf(r1[LineKey(id)]) == h;
    }
  }

  /** Every group with a re-pointed line is merged into one line; every other row is as it was. */
  ghost predicate LinesMerged(r1: Rows, rows: Rows, survivors: set<nat>, repointed: set<nat>) {
    && (forall g :: Repeats(r1, survivors, repointed, g) ==> IsMerged(r1, rows, g))
    && (forall k | k in r1 ::
          && Typed(k.table, r1[k])
          && ((k.table == RecipeIngredient && Repeats(r1, survivors, repointed, GroupOf(r1[k])))
           || (k in rows && rows[k] == r1[k])))
  }

  lemma {:induction false} AllMerged(r1: Rows, rows: Rows, targets: set<nat>, merged: set<Group>, survivors: set<nat>, repointed: set<nat>)
    requires AllTyped(r1) && Progress(r1, rows, targets, merged)
    requires forall g :: g in merged ==> Repeats(r1, survivors, repointed, g)
    requires forall g :: g in DuplicateGroups(r1, survivors) && Repeats(r1, survivors, repointed, g) ==> g in merged
    ensures LinesMerged(r1, rows, survivors, repointed)
  {
    forall g | Repeats(r1, survivors, repointed, g) ensures IsMerged(r1, rows, g) {
      if g !in merged {
        OnlyLine(r1, survivors, repointed, g);
        var id := Min(Members(r1, g));
        assert Members(r1, g) - {id} == {};
        assert SumQuantity(r1, Members(r1, g)) == Quantity(r1, id) + 0.0;
        assert GroupOf(r1[LineKey(id)]) == g;
      }
    }
  }

  lemma {:induction false} OnlyLine(r1: Rows, survivors: set<nat>, repointed: set<nat>, g: Group)
    requires AllTyped(r1)
    requires Repeats(r1, survivors, repointed, g) && g !in DuplicateGroups(r1, survivors)
    ensures Members(r1, g) == {Min(Members(r1, g))}
  {
    var ids := Members(r1, g);
    var id := Min(ids);
    assert Typed(RecipeIngredient, r1[LineKey(id)]) && GroupOf(r1[LineKey(id)]) == g;
    assert |ids| <= 1;
    assert |ids - {id}| == 0;
    assert forall x :: x in ids ==> x == id || x in ids - {id};
  }
}
