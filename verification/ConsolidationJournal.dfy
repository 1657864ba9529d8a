/**
  The rows, the merge plan and the journal of the ingredient-identity consolidation migration, and
  how a journal explains the rows a migration left behind.  A row is identified by its table and its
  row id; every table of the migration is a part of one map.
 */
module ConsolidationJournal {
  import opened Wrappers

  // ----- Rows ---------------------------------------------------------------------------------

  datatype Table =
    | RecipeIngredient
    | PantryItem
    | GroceryListItem
    | IngredientProductMapping
    | ProviderIngredientMapping

  datatype RowKey = RowKey(table: Table, id: nat)

  /** The columns of a unique mapping index other than `ingredient_id`. */
  datatype MappingKey =
    | ProductKey(productId: nat)
    | ProviderKey(providerCode: string, externalProductId: string, mappingVersion: string)

  /** The columns the migration reads or writes; `other` stands for the rest of the row. */
  datatype Payload =
    | Line(recipeId: nat, canonicalName: string, quantity: real, other: string)
    | Holding(other: string)
    | Mapping(key: MappingKey, approved: bool, other: string)

  datatype Row = Row(ingredientId: Option<nat>, payload: Payload)

  datatype Ingredient = Ingredient(canonicalName: string, other: string)

  type Rows = map<RowKey, Row>
  type Ingredients = map<nat, Ingredient>

  predicate IsMappingTable(table: Table) {
    table == IngredientProductMapping || table == ProviderIngredientMapping
  }

  /** The row has the columns of its table, with `ingredient_id` nullable in two tables only. */
  predicate Typed(table: Table, row: Row) {
    match table
    case RecipeIngredient => row.payload.Line? && row.ingredientId.Some?
    case PantryItem => row.payload.Holding?
    case GroceryListItem => row.payload.Holding?
    case IngredientProductMapping => row.payload.Mapping? && row.payload.key.ProductKey? && row.ingredientId.Some?
    case ProviderIngredientMapping => row.payload.Mapping? && row.payload.key.ProviderKey? && row.ingredientId.Some?
  }

  ghost predicate AllTyped(rows: Rows) {
    forall k :: k in rows ==> Typed(k.table, rows[k])
  }

  predicate Refers(table: Table, id: nat, key: RowKey, row: Row) {
    key.table == table && row.ingredientId == Some(id)
  }

  /** Both rows would occupy the same entry of `ux_ing_product` or of `ux_provider_ing_map`. */
  predicate SameEntry(a: RowKey, ra: Row, b: RowKey, rb: Row) {
    && a.table == b.table
    && ra.payload.Mapping? && rb.payload.Mapping?
    && ra.ingredientId == rb.ingredientId
    && ra.payload.key == rb.payload.key
  }

  /** Both rows are approved for one provider product: the partial index `ux_provider_approved_product`. */
  predicate SameApproval(a: RowKey, ra: Row, b: RowKey, rb: Row) {
    && a.table == b.table
    && ra.payload.Mapping? && rb.payload.Mapping?
    && ra.payload.approved && rb.payload.approved
    && ra.payload.key.ProviderKey? && rb.payload.key.ProviderKey?
    && ra.payload.key.providerCode == rb.payload.key.providerCode
    && ra.payload.key.externalProductId == rb.payload.key.externalProductId
  }

  predicate Clash(a: RowKey, ra: Row, b: RowKey, rb: Row) {
    SameEntry(a, ra, b, rb) || SameApproval(a, ra, b, rb)
  }

  ghost predicate UniqueIndexes(rows: Rows) {
    forall a, b | a in rows && b in rows && Clash(a, rows[a], b, rows[b]) :: a == b
  }

  /** The unique indexes are checked row by row, so they must hold whichever rows were visited. */
  ghost predicate AlwaysUnique(rows: Rows, table: Table, merge: Merge) {
    forall visited :: UniqueIndexes(RepointedSome(rows, visited, table, merge))
  }

  ghost predicate ForeignKeys(rows: Rows, ingredients: Ingredients) {
    forall k :: k in rows && rows[k].ingredientId.Some? ==> rows[k].ingredientId.value in ingredients
  }

  // ----- The merge plan and the journal -------------------------------------------------------

  datatype Merge = Merge(oldId: nat, newId: nat, oldName: string, newName: string)
  datatype Alias = Alias(text: string, ingredientId: nat)
  datatype Plan = Plan(merges: seq<Merge>, aliases: seq<Alias>)

  /** Every planned text is an alias, of the ingredient it was planned for first. */
  ghost predicate Recorded(planned: seq<Alias>, aliases: map<string, nat>) {
    && (forall i | 0 <= i < |planned| :: planned[i].text in aliases)
    && (forall a :: a in aliases ==> FirstPlanned(planned, Alias(a, aliases[a])))
  }

  ghost predicate FirstPlanned(planned: seq<Alias>, alias: Alias) {
    exists i: nat | i < |planned| :: planned[i] == alias && forall j | 0 <= j < i :: planned[j].text != alias.text
  }

  datatype Audit = Audit(oldId: nat, newId: nat, oldName: string, snapshotId: nat, snapshot: Ingredient)
  datatype Relink = Relink(auditId: nat, key: RowKey, oldIngredientId: nat, oldName: Option<string>)
  datatype Deleted = Deleted(auditId: nat, key: RowKey, row: Row, mergedInto: Option<nat>)

  /** The plan folds existing ingredients, each at most once, and never folds a survivor. */
  ghost predicate Sound(plan: Plan, ingredients: Ingredients) {
    && (forall i | 0 <= i < |plan.merges| :: plan.merges[i].oldId in ingredients && plan.merges[i].newId in ingredients)
    && (forall i, j | 0 <= i < j < |plan.merges| :: plan.merges[i].oldId != plan.merges[j].oldId)
    && (forall i, j | 0 <= i < |plan.merges| && 0 <= j < |plan.merges| :: plan.merges[i].oldId != plan.merges[j].newId)
    && (forall i | 0 <= i < |plan.aliases| :: plan.aliases[i].ingredientId in ingredients)
    && (forall i, j | 0 <= i < |plan.aliases| && 0 <= j < |plan.merges| ::
          plan.aliases[i].ingredientId != plan.merges[j].oldId)
  }

  // ----- What folding does to one row ---------------------------------------------------------

  /** Which folds have been applied to which table: (table, folded id) to the merge. */
  type Folds = map<(Table, nat), Merge>

  /** Every fold of `f` takes an id of `olds` to an id outside it, so no row is folded twice. */
  ghost predicate Within(f: Folds, olds: set<nat>) {
    forall p :: p in f ==> p.1 in olds && f[p].newId !in olds
  }

  ghost predicate IsFolded(f: Folds, key: RowKey, row: Row) {
    row.ingredientId.Some? && (key.table, row.ingredientId.value) in f
  }

  function Repoint(row: Row, newId: nat, newName: string): Row {
    row.(ingredientId := Some(newId),
         payload := if row.payload.Line? then row.payload.(canonicalName := newName) else row.payload)
  }

  function Repointed(rows: Rows, table: Table, merge: Merge): Rows {
    RepointedSome(rows, rows.Keys, table, merge)
  }

  /** The rows after an UPDATE has visited the keys of `visited`. */
  function RepointedSome(rows: Rows, visited: set<RowKey>, table: Table, merge: Merge): Rows {
    map k | k in rows ::
      if k in visited && Refers(table, merge.oldId, k, rows[k])
      then Repoint(rows[k], merge.newId, merge.newName) else rows[k]
  }

  ghost function Fold(f: Folds, key: RowKey, row: Row): Row {
    if IsFolded(f, key, row) then
      var merge := f[(key.table, row.ingredientId.value)];
      Repoint(row, merge.newId, merge.newName)
    else row
  }

  /** What a relink row remembers besides the id: the overwritten name of a recipe line. */
  function RecordedName(row: Row): Option<string> {
    if row.payload.Line? then Some(row.payload.canonicalName) else None
  }

  function AddQuantity(row: Row, q: real): Row {
    if row.payload.Line? then row.(payload := row.payload.(quantity := row.payload.quantity + q)) else row
  }

  predicate IsLine(d: Deleted) {
    d.key.table == RecipeIngredient
  }

  /** No recipe line has been journalled as deleted. */
  ghost predicate NoLines(deleted: seq<Deleted>) {
    forall j | 0 <= j < |deleted| :: !IsLine(deleted[j])
  }

  /** The quantity that journalled recipe lines handed over to the line `key`. */
  function Absorbed(deleted: seq<Deleted>, key: RowKey): real {
    if deleted == [] then 0.0
    else
      var d := deleted[|deleted| - 1];
      Absorbed(deleted[..|deleted| - 1], key)
      + if IsLine(d) && key.table == RecipeIngredient
           && d.mergedInto == Some(key.id) && d.row.payload.Line?
        then d.row.payload.quantity else 0.0
  }

  /** The keys journalled as deleted: recipe lines (by the dedup) or mappings (by a collision). */
  ghost function DeletedKeys(deleted: seq<Deleted>, lines: bool): set<RowKey> {
    set j | 0 <= j < |deleted| && IsLine(deleted[j]) == lines :: deleted[j].key
  }

  ghost function RelinkKeys(relinks: seq<Relink>): set<RowKey> {
    set j | 0 <= j < |relinks| :: relinks[j].key
  }

  // ----- How the journal explains the current rows --------------------------------------------

  /** The relink entry `r` holds what the row `key` of `r0` had before it was re-pointed. */
  ghost predicate Remembers(r: Relink, r0: Rows) {
    && r.key in r0
    && r0[r.key].ingredientId == Some(r.oldIngredientId)
    && r.oldName == RecordedName(r0[r.key])
  }

  /** `rows` is `r0` with the folds `f` applied and the journalled collision rows removed. */
  ghost predicate Folded(r0: Rows, olds: set<nat>, f: Folds, rows: Rows, relinks: seq<Relink>, deleted: seq<Deleted>) {
    && rows.Keys <= r0.Keys
    && DeletedKeys(deleted, false) == r0.Keys - rows.Keys
    && (forall k :: k in rows ==> rows[k] == Fold(f, k, r0[k]))
    && (forall j | 0 <= j < |deleted| && !IsLine(deleted[j]) ::
          && IsMappingTable(deleted[j].key.table)
          && deleted[j].key in r0
          && deleted[j].row == r0[deleted[j].key]
          && deleted[j].mergedInto == None
          && deleted[j].row.ingredientId.Some?
          && deleted[j].row.ingredientId.value in olds)
    && (forall j | 0 <= j < |relinks| :: Remembers(relinks[j], r0))
    && RelinkKeys(relinks) == set k | k in rows && IsFolded(f, k, r0[k])
  }

  /** `rows` is `r1` with the journalled recipe lines removed and their quantities absorbed. */
  ghost predicate Deduplicated(r1: Rows, rows: Rows, deleted: seq<Deleted>) {
    && rows.Keys <= r1.Keys
    && DeletedKeys(deleted, true) == r1.Keys - rows.Keys
    && (forall k :: k in rows ==> rows[k] == AddQuantity(r1[k], Absorbed(deleted, k)))
    && (forall j | 0 <= j < |deleted| && IsLine(deleted[j]) ::
          && deleted[j].key in r1
          && deleted[j].row == r1[deleted[j].key]
          && deleted[j].mergedInto.Some?
          && RowKey(RecipeIngredient, deleted[j].mergedInto.value) in rows)
  }

  // ----- Steps of the forward pass ----

  function AuditOf(merge: Merge, ingredients: Ingredients): Audit
    requires merge.oldId in ingredients
  {
    Audit(merge.oldId, merge.newId, merge.oldName, merge.oldId, ingredients[merge.oldId])
  }

  ghost function AddSimpleFold(f: Folds, merge: Merge): Folds {
    f[(RecipeIngredient, merge.oldId) := merge]
     [(PantryItem, merge.oldId) := merge]
     [(GroceryListItem, merge.oldId) := merge]
  }

  ghost function AddMappingFold(f: Folds, merge: Merge): Folds {
    f[(IngredientProductMapping, merge.oldId) := merge]
     [(ProviderIngredientMapping, merge.oldId) := merge]
  }

  ghost function AddFold(f: Folds, merge: Merge): Folds {
    AddMappingFold(AddSimpleFold(f, merge), merge)
  }

  lemma {:induction false} SimpleTablesStayUnique(rows: Rows, table: Table, merge: Merge)
    requires AllTyped(rows) && UniqueIndexes(rows) && !IsMappingTable(table)
    ensures AlwaysUnique(rows, table, merge)
  {
    forall visited, a, b | a in rows && b in rows
      && Clash(a, RepointedSome(rows, visited, table, merge)[a], b, RepointedSome(rows, visited, table, merge)[b])
      ensures a == b
    {
      assert Typed(a.table, rows[a]) && Typed(b.table, rows[b]);
      assert Clash(a, rows[a], b, rows[b]);
    }
  }

  lemma {:induction false} NoReferenceLeft(r0: Rows, olds: set<nat>, f: Folds, rows: Rows, relinks: seq<Relink>, deleted: seq<Deleted>,
                        merge: Merge)
    requires Within(f, olds) && merge.oldId in olds && merge.newId !in olds
    requires Folded(r0, olds, AddFold(f, merge), rows, relinks, deleted)
    ensures forall k :: k in rows ==> rows[k].ingredientId != Some(merge.oldId)
  {
    forall k | k in rows ensures rows[k].ingredientId != Some(merge.oldId) {
      assert rows[k] == Fold(AddFold(f, merge), k, r0[k]);
      match k.table {
        case RecipeIngredient => assert (k.table, merge.oldId) in AddFold(f, merge);
        case PantryItem => assert (k.table, merge.oldId) in AddFold(f, merge);
        case GroceryListItem => assert (k.table, merge.oldId) in AddFold(f, merge);
        case IngredientProductMapping => assert (k.table, merge.oldId) in AddFold(f, merge);
        case ProviderIngredientMapping => assert (k.table, merge.oldId) in AddFold(f, merge);
      }
    }
  }

  /** The survivor has a mapping with the same unique key (the EXISTS of the migration). */
  predicate Collides(rows: Rows, key: RowKey, newId: nat)
    requires key in rows
  {
    exists n | n in rows ::
      && Refers(key.table, newId, n, rows[n])
      && rows[n].payload.Mapping? && rows[key].payload.Mapping?
      && rows[n].payload.key == rows[key].payload.key
  }

  /** The row is a mapping of the folded ingredient whose entry the survivor holds already. */
  predicate Drops(rows: Rows, table: Table, merge: Merge, key: RowKey)
    requires key in rows
  {
    Refers(table, merge.oldId, key, rows[key]) && Collides(rows, key, merge.newId)
  }

  /** The rows after a fold has reconciled a mapping table: colliding mappings are gone, the others re-pointed. */
  function WithoutCollisions(rows: Rows, table: Table, merge: Merge): Rows {
    map k | k in rows && !Drops(rows, table, merge, k) :: rows[k]
  }

  function Reconciled(rows: Rows, table: Table, merge: Merge): Rows {
    Repointed(WithoutCollisions(rows, table, merge), table, merge)
  }

  function RelinkedSimple(rows: Rows, merge: Merge): Rows {
    Repointed(Repointed(Repointed(rows, RecipeIngredient, merge), PantryItem, merge), GroceryListItem, merge)
  }

  function ReconciledMappings(rows: Rows, merge: Merge): Rows {
    Reconciled(Reconciled(rows, IngredientProductMapping, merge), ProviderIngredientMapping, merge)
  }

  /** The whole effect of one fold on the rows. */
  function AfterFold(rows: Rows, merge: Merge): Rows {
    ReconciledMappings(RelinkedSimple(rows, merge), merge)
  }

  lemma {:induction false} DropRow(r0: Rows, olds: set<nat>, f: Folds, rows: Rows, relinks: seq<Relink>, deleted: seq<Deleted>,
                table: Table, oldId: nat, d: Deleted)
    requires Folded(r0, olds, f, rows, relinks, deleted) && Within(f, olds)
    requires IsMappingTable(table) && oldId in olds && (table, oldId) !in f
    requires d.key in rows && d.row == rows[d.key] && d.mergedInto == None
    requires Refers(table, oldId, d.key, d.row)
    ensures Folded(r0, olds, f, rows - {d.key}, relinks, deleted + [d])
  {
    UnfoldedRow(r0, olds, f, rows, relinks, deleted, table, oldId, d.key);
    DeletedKeysAppend(deleted, d, false);
  }

  lemma {:induction false} DeletedKeysAppend(deleted: seq<Deleted>, d: Deleted, lines: bool)
    ensures DeletedKeys(deleted + [d], lines) == DeletedKeys(deleted, lines) + if IsLine(d) == lines then {d.key} else {}
  {
    var all := deleted + [d];
    assert all[|deleted|] == d;
    forall k | k in DeletedKeys(deleted, lines) ensures k in DeletedKeys(all, lines) {
      var j :| 0 <= j < |deleted| && IsLine(deleted[j]) == lines && deleted[j].key == k;
      assert all[j] == deleted[j];
    }
  }

  /** Journalling a merged recipe line leaves the record of the folds as it was. */
  lemma {:induction false} FoldedAppendLine(r0: Rows, olds: set<nat>, f: Folds, r1: Rows, relinks: seq<Relink>, deleted: seq<Deleted>,
                         d: Deleted)
    requires Folded(r0, olds, f, r1, relinks, deleted) && IsLine(d)
    ensures Folded(r0, olds, f, r1, relinks, deleted + [d])
  {
    DeletedKeysAppend(deleted, d, false);
  }

  /** Once the collisions are gone, re-pointing the remaining mappings never breaks a unique index. */
  lemma {:induction false} NoCollisionLeft(before: Rows, rows: Rows, table: Table, merge: Merge)
    requires UniqueIndexes(before) && rows.Keys <= before.Keys && merge.oldId != merge.newId
    requires forall k :: k in rows ==> rows[k] == before[k]
    requires forall k :: k in rows && Refers(table, merge.oldId, k, rows[k]) ==> !Collides(before, k, merge.newId)
    ensures AlwaysUnique(rows, table, merge)
  {
    forall visited, a, b | a in rows && b in rows
      && Clash(a, RepointedSome(rows, visited, table, merge)[a], b, RepointedSome(rows, visited, table, merge)[b])
      ensures a == b
    {
      NoClashLeft(before, rows, visited, table, merge, a, b);
    }
  }

  lemma {:induction false} NoClashLeft(before: Rows, rows: Rows, visited: set<RowKey>, table: Table, merge: Merge, a: RowKey, b: RowKey)
    requires UniqueIndexes(before) && rows.Keys <= before.Keys && merge.oldId != merge.newId
    requires forall k :: k in rows ==> rows[k] == before[k]
    requires forall k :: k in rows && Refers(table, merge.oldId, k, rows[k]) ==> !Collides(before, k, merge.newId)
    requires a in rows && b in rows
    requires Clash(a, RepointedSome(rows, visited, table, merge)[a], b, RepointedSome(rows, visited, table, merge)[b])
    ensures a == b
  {
    var rs := RepointedSome(rows, visited, table, merge);
    if SameApproval(a, rs[a], b, rs[b]) {
      assert SameApproval(a, rows[a], b, rows[b]);
    } else if rs[a] != rows[a] && rs[b] == rows[b] && rs[a].ingredientId == rows[b].ingredientId {
      assert Refers(table, merge.newId, b, before[b]);
    } else if rs[b] != rows[b] && rs[a] == rows[a] && rs[b].ingredientId == rows[a].ingredientId {
      assert Refers(table, merge.newId, a, before[a]);
    } else {
      assert SameEntry(a, rows[a], b, rows[b]);
    }
  }

  lemma {:induction false} RelinkKeysAppend(relinks: seq<Relink>, r: Relink)
    ensures RelinkKeys(relinks + [r]) == RelinkKeys(relinks) + {r.key}
  {
    var all := relinks + [r];
    assert all[|relinks|] == r;
    forall k | k in RelinkKeys(relinks) ensures k in RelinkKeys(all) {
      var j :| 0 <= j < |relinks| && relinks[j].key == k;
      assert all[j] == relinks[j];
    }
  }

  /** A row that still refers to a folded id has not been touched yet. */
  lemma {:induction false} UnfoldedRow(r0: Rows, olds: set<nat>, f: Folds, rows: Rows, relinks: seq<Relink>, deleted: seq<Deleted>,
                    table: Table, oldId: nat, key: RowKey)
    requires Folded(r0, olds, f, rows, relinks, deleted) && Within(f, olds)
    requires oldId in olds && (table, oldId) !in f
    requires key in rows && key.table == table
    ensures Refers(table, oldId, key, rows[key]) <==> Refers(table, oldId, key, r0[key])
    ensures Refers(table, oldId, key, rows[key]) ==> rows[key] == r0[key]
  {
  }

  lemma {:induction false} SelectedUnfolded(r0: Rows, olds: set<nat>, f: Folds, rows: Rows, relinks: seq<Relink>, deleted: seq<Deleted>,
                         table: Table, oldId: nat)
    requires Folded(r0, olds, f, rows, relinks, deleted) && Within(f, olds)
    requires oldId in olds && (table, oldId) !in f
    ensures forall k :: k in rows && Refers(table, oldId, k, rows[k]) ==> k in r0 && rows[k] == r0[k]
  {
    forall k | k in rows && Refers(table, oldId, k, rows[k]) ensures k in r0 && rows[k] == r0[k] {
      UnfoldedRow(r0, olds, f, rows, relinks, deleted, table, oldId, k);
    }
  }

  lemma {:induction false} FoldStep(r0: Rows, olds: set<nat>, f: Folds, rows: Rows, relinks: seq<Relink>, relinks': seq<Relink>,
                 deleted: seq<Deleted>, table: Table, merge: Merge)
    requires Folded(r0, olds, f, rows, relinks, deleted) && Within(f, olds)
    requires merge.oldId in olds && merge.newId !in olds
    requires (table, merge.oldId) !in f
    requires RelinkKeys(relinks') == RelinkKeys(relinks) + set k | k in rows && Refers(table, merge.oldId, k, rows[k])
    requires forall j | 0 <= j < |relinks'| :: Remembers(relinks'[j], r0)
    ensures Folded(r0, olds, f[(table, merge.oldId) := merge],
                   Repointed(rows, table, merge), relinks', deleted)
  {
    var f' := f[(table, merge.oldId) := merge];
    forall k | k in rows
      ensures Repointed(rows, table, merge)[k] == Fold(f', k, r0[k])
      ensures IsFolded(f', k, r0[k]) <==> IsFolded(f, k, r0[k]) || Refers(table, merge.oldId, k, rows[k])
    {
      if k.table == table {
        UnfoldedRow(r0, olds, f, rows, relinks, deleted, table, merge.oldId, k);
      }
    }
  }

  /** One more planned alias: `ON CONFLICT DO NOTHING` keeps the one recorded first. */
  lemma {:induction false} RecordedStep(planned: seq<Alias>, aliases: map<string, nat>, alias: Alias)
    requires Recorded(planned, aliases)
    ensures Recorded(planned + [alias], if alias.text in aliases then aliases else aliases[alias.text := alias.ingredientId])
  {
    var planned' := planned + [alias];
    var aliases' := if alias.text in aliases then aliases else aliases[alias.text := alias.ingredientId];
    forall a | a in aliases' ensures FirstPlanned(planned', Alias(a, aliases'[a])) {
      if a in aliases {
        assert FirstPlanned(planned, Alias(a, aliases[a]));
        var i: nat :| i < |planned| && planned[i] == Alias(a, aliases[a]) && forall j | 0 <= j < i :: planned[j].text != a;
        assert planned'[i] == Alias(a, aliases'[a]);
      } else {
        assert planned'[|planned|] == Alias(a, aliases'[a]);
      }
    }
    assert planned'[|planned|] == alias;
  }

  lemma {:induction false} NothingToRepoint(rows: Rows, table: Table, merge: Merge)
    requires forall k :: k in rows ==> !Refers(table, merge.oldId, k, rows[k])
    ensures Repointed(rows, table, merge) == rows
  {
  }

  // ----- Where a row goes ---------------------------------------------------------------------

  /** The row refers to the survivor, a recipe line is called by the survivor's name, and nothing else of it changed. */
  ghost predicate Moved(before: Row, after: Row, merge: Merge) {
    && after.ingredientId == Some(merge.newId)
    && match before.payload
       case Line(recipeId, _, quantity, other) => after.payload == Line(recipeId, merge.newName, quantity, other)
       case Holding(_) => after.payload == before.payload
       case Mapping(_, _, _) => after.payload == before.payload
  }

  /** Exactly the rows of the table that refer to the folded ingredient move to the survivor. */
  ghost predicate MovedIn(before: Rows, after: Rows, table: Table, merge: Merge) {
    forall k :: k in after ==>
      && k in before
      && (if Refers(table, merge.oldId, k, before[k]) then Moved(before[k], after[k], merge) else after[k] == before[k])
  }

  lemma {:induction false} RepointedMoves(rows: Rows, table: Table, merge: Merge)
    ensures MovedIn(rows, Repointed(rows, table, merge), table, merge)
    ensures MovedIn(rows, Reconciled(rows, table, merge), table, merge)
  {
  }

  /** One fold moves every row that refers to the folded ingredient, in whichever table, and no other. */
  ghost predicate MovedEverywhere(before: Rows, after: Rows, merge: Merge) {
    forall k :: k in after ==>
      && k in before
      && (if before[k].ingredientId == Some(merge.oldId) then Moved(before[k], after[k], merge) else after[k] == before[k])
  }

  lemma {:induction false} AfterFoldMoves(rows: Rows, merge: Merge)
    requires merge.oldId != merge.newId
    ensures MovedEverywhere(rows, AfterFold(rows, merge), merge)
  {
    var r1 := Repointed(rows, RecipeIngredient, merge);
    var r2 := Repointed(r1, PantryItem, merge);
    var r3 := RelinkedSimple(rows, merge);
    var r4 := Reconciled(r3, IngredientProductMapping, merge);
    RepointedMoves(rows, RecipeIngredient, merge);
    RepointedMoves(r1, PantryItem, merge);
    RepointedMoves(r2, GroceryListItem, merge);
    RepointedMoves(r3, IngredientProductMapping, merge);
    RepointedMoves(r4, ProviderIngredientMapping, merge);
    forall k | k in AfterFold(rows, merge)
      ensures k in rows
      ensures if rows[k].ingredientId == Some(merge.oldId) then Moved(rows[k], AfterFold(rows, merge)[k], merge)
              else AfterFold(rows, merge)[k] == rows[k]
    {
      MovesOnce(rows, r1, r2, r3, r4, AfterFold(rows, merge), merge, k);
    }
  }

  /** A row is moved by the table it is in. */
  lemma {:induction false} MovesOnce(r0: Rows, r1: Rows, r2: Rows, r3: Rows, r4: Rows, r5: Rows, merge: Merge, k: RowKey)
    requires MovedIn(r0, r1, RecipeIngredient, merge) && MovedIn(r1, r2, PantryItem, merge) && MovedIn(r2, r3, GroceryListItem, merge)
    requires MovedIn(r3, r4, IngredientProductMapping, merge) && MovedIn(r4, r5, ProviderIngredientMapping, merge)
    requires merge.oldId != merge.newId && k in r5
    ensures k in r0
    ensures if r0[k].ingredientId == Some(merge.oldId) then Moved(r0[k], r5[k], merge) else r5[k] == r0[k]
  {
    assert k in r4 && k in r3 && k in r2 && k in r1;
  }

  // ----- No mapping is lost -------------------------------------------------------------------

  /** Some row holds the entry that the mapping `key` has after the folds. */
  ghost predicate EntryHeld(f: Folds, rows: Rows, key: RowKey, row: Row) {
    exists n :: n in rows && SameEntry(n, rows[n], key, Fold(f, key, row))
  }

  ghost predicate EntriesHeld(r0: Rows, f: Folds, rows: Rows) {
    forall k :: k in r0 && IsMappingTable(k.table) ==> EntryHeld(f, rows, k, r0[k])
  }

  lemma {:induction false} EntriesHeldAtFirst(rows: Rows)
    requires AllTyped(rows)
    ensures EntriesHeld(rows, map[], rows)
  {
    forall k | k in rows && IsMappingTable(k.table) ensures EntryHeld(map[], rows, k, rows[k]) {
      assert Typed(k.table, rows[k]);
      assert SameEntry(k, rows[k], k, Fold(map[], k, rows[k]));
    }
  }

  /** A relinked table without mappings holds no entry. */
  lemma {:induction false} EntriesHeldBySimple(r0: Rows, f: Folds, rows: Rows, table: Table, merge: Merge)
    requires EntriesHeld(r0, f, rows) && !IsMappingTable(table)
    ensures EntriesHeld(r0, f[(table, merge.oldId) := merge], Repointed(rows, table, merge))
  {
    var f', rows' := f[(table, merge.oldId) := merge], Repointed(rows, table, merge);
    forall k | k in r0 && IsMappingTable(k.table) ensures EntryHeld(f', rows', k, r0[k]) {
      assert EntryHeld(f, rows, k, r0[k]);
      var n :| n in rows && SameEntry(n, rows[n], k, Fold(f, k, r0[k]));
      assert n in rows' && SameEntry(n, rows'[n], k, Fold(f', k, r0[k]));
    }
  }

  /** Reconciling a mapping table: the survivor's mapping holds the entry of one that is dropped. */
  lemma {:induction false} EntryHeldByMapping(r0: Rows, olds: set<nat>, f: Folds, rows: Rows, table: Table, merge: Merge, k: RowKey)
    requires Within(f, olds) && merge.oldId in olds && merge.newId !in olds && (table, merge.oldId) !in f
    requires k in r0 && EntryHeld(f, rows, k, r0[k])
    ensures EntryHeld(f[(table, merge.oldId) := merge], Reconciled(rows, table, merge), k, r0[k])
  {
    var f', rows' := f[(table, merge.oldId) := merge], Reconciled(rows, table, merge);
    var n :| n in rows && SameEntry(n, rows[n], k, Fold(f, k, r0[k]));
    if Drops(rows, table, merge, n) {
      var m :| m in rows && Refers(table, merge.newId, m, rows[m])
        && rows[m].payload.Mapping? && rows[n].payload.Mapping? && rows[m].payload.key == rows[n].payload.key;
      assert m in rows' && rows'[m] == rows[m];
      assert SameEntry(m, rows'[m], k, Fold(f', k, r0[k]));
    } else {
      assert n in rows' && SameEntry(n, rows'[n], k, Fold(f', k, r0[k]));
    }
  }

  lemma {:induction false} EntriesHeldByMapping(r0: Rows, olds: set<nat>, f: Folds, rows: Rows, table: Table, merge: Merge)
    requires Within(f, olds) && merge.oldId in olds && merge.newId !in olds && (table, merge.oldId) !in f
    requires EntriesHeld(r0, f, rows)
    ensures EntriesHeld(r0, f[(table, merge.oldId) := merge], Reconciled(rows, table, merge))
  {
    forall k | k in r0 && IsMappingTable(k.table)
      ensures EntryHeld(f[(table, merge.oldId) := merge], Reconciled(rows, table, merge), k, r0[k])
    {
      EntryHeldByMapping(r0, olds, f, rows, table, merge, k);
    }
  }

  /** One fold of the plan keeps every entry held. */
  lemma {:induction false} EntriesHeldByFold(r0: Rows, olds: set<nat>, f: Folds, rows: Rows, merge: Merge)
    requires Within(f, olds) && merge.oldId in olds && merge.newId !in olds
    requires forall p :: p in f ==> p.1 != merge.oldId
    requires EntriesHeld(r0, f, rows)
    ensures EntriesHeld(r0, AddFold(f, merge), AfterFold(rows, merge))
  {
    var id := merge.oldId;
    EntriesHeldBySimple(r0, f, rows, RecipeIngredient, merge);
    var f1, r1 := f[(RecipeIngredient, id) := merge], Repointed(rows, RecipeIngredient, merge);
    EntriesHeldBySimple(r0, f1, r1, PantryItem, merge);
    var f2, r2 := f1[(PantryItem, id) := merge], Repointed(r1, PantryItem, merge);
    EntriesHeldBySimple(r0, f2, r2, GroceryListItem, merge);
    var f3, r3 := AddSimpleFold(f, merge), RelinkedSimple(rows, merge);
    EntriesHeldByMapping(r0, olds, f3, r3, IngredientProductMapping, merge);
    var f4, r4 := f3[(IngredientProductMapping, id) := merge], Reconciled(r3, IngredientProductMapping, merge);
    EntriesHeldByMapping(r0, olds, f4, r4, ProviderIngredientMapping, merge);
  }
}
