# CestaPlan: verified models

CestaPlan plans meals for a household and keeps the prices it plans with.  This project models its four
parts that hold the hardest guarantees, and proves those guarantees in Dafny 4.11.

* **Ingredient consolidation.** The migration folds variant ingredients into survivors across five tables,
  two of them with unique indexes, and journals what it does; the revert rebuilds the database from the
  journal.  Modules `ConsolidationJournal`, `ConsolidationDedup`, `ConsolidationRevert` and `Consolidation`
  (the tables as one map from (table, row id) to row, each SQL statement a method that must keep the
  indexes and foreign keys), `DisjointSets` and `ConsolidationPlan` (the merge plan, built by an in-place
  union-find), `ConsolidationRun` (plan, upgrade and downgrade together).
* **The planning engine.** `Units`, `Matching`, `Pantry`, `Packaging` and `Demand` feed `Provisioning`;
  `PackageUnits` says when packages suffice, `Servings` how demand follows the servings; `Costs` and
  `CostOrder` hold the laws of cost; `Scheduling` makes the slots; `PlanScore`, `SearchSpace` and
  `Optimizer` score and search; `OptimizerLimits` shows where the budget is not decisive; `Validators` are the
  safety gates; `Facade` puts everything together.
* **Price history.** `PriceHistory` is the compressed interval history and its refinement of a plain log;
  `PriceAnomalies` judges a batch; `PriceSync` is one pass of the pipeline and runs of passes; `PriceJumps` says
  exactly which batches can let a price jump.
* **Queues, scheduler, limiter.** `GenerationJobs` and `GenerationRuns`, `CrawlQueue`, `CrawlScheduler` and
  `RateLimiting` are state machines whose claims range over every run.

Code that updates rows, fields or dictionaries is a class with methods and loops; each method is proved against
specification functions over values, and the laws are lemmas about these.  A method that is one loop in the
source is sometimes several here (`Pass`, `TrySlot`, `TrySwap` for the local search), one per nesting level.
Every lemma carries `{:induction false}`, so that each proof is the one that is written.

`Wrappers`, `Collections`, `Sums`, `Sorting` and `Contracts` hold shared types and the few facts about built-in
collections that the proofs need.

Conventions: money and quantities are exact reals, so the 28 digits of `Decimal` and the scale of a stored
`NUMERIC(12, 4)` are not modelled.  Dates are ordinal numbers, instants are numbers, and identifiers that only need
an order (recipes, products, retailers, workers) are natural numbers.  Code outside the four parts enters as a
parameter: the text functions of the merge plan and of the validators, the nutrition term of the score, the
outcome of processing a job, the observations a connector parsed, the jitter of a backoff.

## Where the code differs from its comments

* The optimizer's comments say that over budget is reported only when no plan fits.  That holds of the plans
  that were evaluated when the budget penalty dominates (`Optimizer.OvershootDominates`).  With one slot and two
  candidates on either side of the limit it fails if and only if the one over the limit has the smaller
  (score, id) (`Optimizer.OverBudgetOfTwo`); `OptimizerLimits.RejectionOutweighsBudget` is an input: the weight of a
  rejected recipe is a thousand times the budget penalty per unit of money.
* A comment in `_track_cheapest` says that a partial plan is always cheaper than the full one.
  `CostOrder.AddingCanCheapen` is an input with two formats of a product for which it is not.  One format per product
  is sufficient (`CostOrder.AddingNeverCheapens`), not necessary: formats that are alike suffice too when waste has no
  weight, and over all formats only then (`CostOrder.NeverCheaperExactly`).
* The formats of a product are compared without converting their units, so a format in a smaller unit than the need's
  can be bought in far too small a quantity (`PackageUnits.GramsForKilograms`; `PackageUnits.SufficesExactly` says when not).
* A limit of 0 in `domain_limits` is not a ban: a claim exceeds it (`CrawlQueue.ZeroLimitIsExceeded`), and claims keep
  within limits if and only if these are at least one (`CrawlQueue.ClaimWithinLimits`).
* A product bought as a substitute is not checked for allergens: it is safe for everybody only if it has none
  (`Validators.SubstituteIsNotChecked`, both directions; `Validators.CakeWithAlmonds` is an input).
* Within a single pass a price can move by a factor of three or more without a finding if and only if some identifier
  occurs twice in the batch (`PriceJumps.SafeExactly`): in one lane, because both observations are judged against the price
  before the pass, or in two lanes, because the open prices are kept by identifier and the later lane's overwrites.
* An observation that is recorded late can leave the history in disagreement with the log: between older ones
  (`PriceHistory.LateObservationOverlaps`) or by overriding a newer one (`PriceHistory.LateOverridesNewer`).  It does so
  exactly when it carries the open price but that is not the price at its instant, or carries another price and an accepted
  observation of its lane is later (`PriceHistory.RecordedExactly`).
* A forced crawl run whose key exists already reports a job that does not exist (`CrawlScheduler.ForcedRunsWithoutJob`); a
  forced run gets a job if and only if its key is new (`CrawlScheduler.Scheduler.ScheduleStore`).
* A worker that fails a job late, after it was completed, cancelled or given to another, puts it back into the crawl
  queue if attempts are left (`CrawlQueue.LateFailureRequeues`): `fail_job` has no condition on the status.
* The order of package formats matters if and only if the cost weight is zero (`Packaging.OrderIndependentExactly`).

## Model

| member | source | states |
|---|---|---|
| Consolidation.RoundTrip | apps/api/migrations/versions/20260808_1000-c7f4a1b9e2d3_ingredient_identity_consolidation.py:172-489 | for every database that meets the unique indexes and foreign keys and every plan whose folded ids are distinct and whose survivors are never folded, the revert after the upgrade restores the ingredients and every row of all five tables, including overwritten names, absorbed quantities and dropped mappings |
| ConsolidationRun.MigrateAndBack | apps/api/migrations/versions/20260808_1000-c7f4a1b9e2d3_ingredient_identity_consolidation.py:172-489 | the same with the plan the migration builds for itself: no condition on the plan is left |
| ConsolidationRun.Migrate | apps/api/migrations/versions/20260808_1000-c7f4a1b9e2d3_ingredient_identity_consolidation.py:172-289 | the upgrade with the plan of its own ingredient table: exactly the non-survivors of the groups are gone, no two of those left share a lemma or an entry, no row refers to a folded one, every row of a folded ingredient refers to its survivor and a recipe line then carries the name the survivor has in the ingredient table, lines are merged with their quantities kept, every mapping keeps its entry, every planned alias is recorded, and the journal explains the rest |
| Consolidation.Connection.Upgrade | apps/api/migrations/versions/20260808_1000-c7f4a1b9e2d3_ingredient_identity_consolidation.py:172-289 | the unique indexes hold after every statement; a row that is left and referred to a folded ingredient refers to that fold's survivor, a recipe line also carries the survivor's name, and every other row keeps its ingredient and its name; no row refers to a folded ingredient; each re-pointed (recipe, survivor) pair has one line with the summed quantity; no quantity is lost; a mapping is still there, or was one of a folded ingredient and a row for the survivor holds its entry; the journal explains every row that is left |
| Consolidation.Connection.Downgrade | apps/api/migrations/versions/20260808_1000-c7f4a1b9e2d3_ingredient_identity_consolidation.py:422-489 | from any database that the journal of an upgrade explains, the four phases of the revert restore ingredients and rows exactly, with the unique indexes intact after every statement |
| Consolidation.Connection.FoldIngredient | apps/api/migrations/versions/20260808_1000-c7f4a1b9e2d3_ingredient_identity_consolidation.py:206-289 | every row of the folded ingredient that is left refers to the survivor, a recipe line under the survivor's name, and no other row changes; only colliding mappings are gone; the audit row keeps the ingredient, everything is journalled, and the ingredient is gone |
| Consolidation.Connection.RelinkReferences | apps/api/migrations/versions/20260808_1000-c7f4a1b9e2d3_ingredient_identity_consolidation.py:258-289 | the rows of one table that refer to the folded ingredient now refer to the survivor, recipe lines under its name, and every other row is as it was; each re-pointed one is journalled with its old ingredient, a recipe line also with its old name |
| Consolidation.Connection.ReconcileMapping | apps/api/migrations/versions/20260808_1000-c7f4a1b9e2d3_ingredient_identity_consolidation.py:292-318 | exactly the mappings that would collide are journalled and dropped, all others of the folded ingredient re-pointed, the rest left alone; the unique indexes never break |
| Consolidation.Connection.DropCollisions | apps/api/migrations/versions/20260808_1000-c7f4a1b9e2d3_ingredient_identity_consolidation.py:296-306 | a row is dropped if and only if it is a mapping of the folded ingredient whose entry the survivor holds already; each one is journalled verbatim |
| Consolidation.Connection.MergeDuplicateLines | apps/api/migrations/versions/20260808_1000-c7f4a1b9e2d3_ingredient_identity_consolidation.py:321-362 | every re-pointed (recipe, survivor) group becomes one line that keeps the least id and the sum of the quantities; untouched groups stay |
| Consolidation.Connection.MergeGroup | apps/api/migrations/versions/20260808_1000-c7f4a1b9e2d3_ingredient_identity_consolidation.py:343-362 | one group of any number of lines is merged into its least id; each removed line is journalled with the line that absorbed it |
| Consolidation.Connection.RecordAliases | apps/api/migrations/versions/20260808_1000-c7f4a1b9e2d3_ingredient_identity_consolidation.py:194-203 | each planned alias text is recorded once, for the ingredient it was planned for first |
| Consolidation.Connection.RestoreIngredients | apps/api/migrations/versions/20260808_1000-c7f4a1b9e2d3_ingredient_identity_consolidation.py:429-440 | the audit snapshots restore exactly the ingredients from before the upgrade |
| Consolidation.Connection.RestoreMappings | apps/api/migrations/versions/20260808_1000-c7f4a1b9e2d3_ingredient_identity_consolidation.py:442-447 | the dropped mappings come back and the unique indexes hold after each insertion |
| Consolidation.Connection.RestoreLines | apps/api/migrations/versions/20260808_1000-c7f4a1b9e2d3_ingredient_identity_consolidation.py:449-465 | the absorbed quantities are subtracted and every removed recipe line returns verbatim |
| Consolidation.Connection.RevertRelinks | apps/api/migrations/versions/20260808_1000-c7f4a1b9e2d3_ingredient_identity_consolidation.py:467-489 | replaying the relinks by row id returns every reference and every overwritten name to its origin |
| ConsolidationJournal.NoReferenceLeft | apps/api/migrations/versions/20260808_1000-c7f4a1b9e2d3_ingredient_identity_consolidation.py:223-252 | once all tables are re-pointed nothing refers to the folded ingredient, so it can be deleted under the foreign keys |
| ConsolidationJournal.AfterFoldMoves | apps/api/migrations/versions/20260808_1000-c7f4a1b9e2d3_ingredient_identity_consolidation.py:206-289 | folding moves each row that referred to the ingredient to the survivor, in all five tables, with the survivor's name in recipe lines and only in those |
| ConsolidationJournal.NoCollisionLeft | apps/api/migrations/versions/20260808_1000-c7f4a1b9e2d3_ingredient_identity_consolidation.py:292-318 | after the drops, re-pointing the remaining mappings in any order keeps every unique index after each statement |
| ConsolidationJournal.SimpleTablesStayUnique | apps/api/migrations/versions/20260808_1000-c7f4a1b9e2d3_ingredient_identity_consolidation.py:258-289 | re-pointing recipe, pantry and grocery rows never touches a mapping index |
| ConsolidationJournal.FoldStep | apps/api/migrations/versions/20260808_1000-c7f4a1b9e2d3_ingredient_identity_consolidation.py:206-252 | journalled re-pointing of one table extends the explanation of the rows by that fold |
| ConsolidationJournal.DropRow | apps/api/migrations/versions/20260808_1000-c7f4a1b9e2d3_ingredient_identity_consolidation.py:304-306 | dropping a mapping with its snapshot keeps the rows explained by the journal |
| ConsolidationJournal.EntriesHeldByFold | apps/api/migrations/versions/20260808_1000-c7f4a1b9e2d3_ingredient_identity_consolidation.py:292-318 | a fold leaves every original mapping's entry, as the folds move it, with some row of the table |
| ConsolidationJournal.RecordedStep | apps/api/migrations/versions/20260808_1000-c7f4a1b9e2d3_ingredient_identity_consolidation.py:194-203 | one more planned alias leaves the ones recorded before as they were |
| ConsolidationDedup.MergeConserves | apps/api/migrations/versions/20260808_1000-c7f4a1b9e2d3_ingredient_identity_consolidation.py:349-362 | merging one line into another keeps the total quantity of all lines |
| ConsolidationDedup.MergeExplained | apps/api/migrations/versions/20260808_1000-c7f4a1b9e2d3_ingredient_identity_consolidation.py:349-362 | a merged line stays explained: its quantity is its own plus all it absorbed |
| ConsolidationDedup.AllMerged | apps/api/migrations/versions/20260808_1000-c7f4a1b9e2d3_ingredient_identity_consolidation.py:334-362 | when every group is done, each re-pointed pair has one line with the sum of the lines it replaced |
| ConsolidationDedup.OnlyLine | apps/api/migrations/versions/20260808_1000-c7f4a1b9e2d3_ingredient_identity_consolidation.py:343-362 | what is left of a merged group is a single line |
| ConsolidationRevert.NoFoldedReference | apps/api/migrations/versions/20260808_1000-c7f4a1b9e2d3_ingredient_identity_consolidation.py:206-255 | no row of the database after the upgrade refers to a folded id |
| ConsolidationRevert.AllMappingsKept | apps/api/migrations/versions/20260808_1000-c7f4a1b9e2d3_ingredient_identity_consolidation.py:206-255 | after the whole upgrade every original mapping is there, re-pointed as its fold says, or it was folded and a row for the survivor holds its entry |
| ConsolidationRevert.AllMovedBy | apps/api/migrations/versions/20260808_1000-c7f4a1b9e2d3_ingredient_identity_consolidation.py:206-289 | in any database that the journal of folds explains, each row is moved by the one fold of its ingredient, to that fold's survivor and name, or is not moved at all |
| ConsolidationRevert.MixedUnique | apps/api/migrations/versions/20260808_1000-c7f4a1b9e2d3_ingredient_identity_consolidation.py:442-465 | any mixture of restored and still re-pointed rows meets the unique indexes, so no statement of the revert can fail on them |
| ConsolidationRevert.AllMappingsBack | apps/api/migrations/versions/20260808_1000-c7f4a1b9e2d3_ingredient_identity_consolidation.py:442-447 | after the last insertion all mappings are present again |
| ConsolidationRevert.AllLinesBack | apps/api/migrations/versions/20260808_1000-c7f4a1b9e2d3_ingredient_identity_consolidation.py:449-465 | after the last insertion all lines are present with their own quantities, also for groups of three or more |
| ConsolidationRevert.AllReverted | apps/api/migrations/versions/20260808_1000-c7f4a1b9e2d3_ingredient_identity_consolidation.py:467-489 | after the last relink the rows are the original rows |
| ConsolidationRevert.FoldsConserve | apps/api/migrations/versions/20260808_1000-c7f4a1b9e2d3_ingredient_identity_consolidation.py:206-252 | re-pointing alone changes no quantity |
| ConsolidationPlan.BuildPlan | apps/api/src/cestaplan_api/services/ingredient_consolidation.py:175-268 | two ingredients are in one group if and only if a chain of shared lemmas and entries leads from one to the other; the folds are exactly those of the groups: each member except the survivor, once, into the survivor; aliases are the texts the folds leave, each once; what remains is unlinked |
| ConsolidationPlan.Group | apps/api/src/cestaplan_api/services/ingredient_consolidation.py:200-216 | linked ingredients end in one set, and no set crosses a classing that respects the links |
| ConsolidationPlan.FinestAreGroups | apps/api/src/cestaplan_api/services/ingredient_consolidation.py:200-216 | sets that keep linked ingredients together and cross no class of the finest classing are exactly the chains of links |
| ConsolidationPlan.LabelsAreClassing | apps/api/src/cestaplan_api/services/ingredient_consolidation.py:200-216 | labelling each ingredient by the least one a chain of links reaches is a classing that no link crosses |
| ConsolidationPlan.PickSurvivor | apps/api/src/cestaplan_api/services/ingredient_consolidation.py:149-172 | every other member either has no dictionary name where the survivor has one, or with equal standing no active mapping, or is no canonical form, or has the larger id, in this order |
| ConsolidationPlan.PlanIsWellFormed | apps/api/src/cestaplan_api/services/ingredient_consolidation.py:223-268 | each ingredient is folded at most once, into a survivor that is never folded itself, and aliases name survivors |
| ConsolidationPlan.AliasesAreOldNames | apps/api/src/cestaplan_api/services/ingredient_consolidation.py:249-262 | every alias is the normalised name of a folded ingredient, for its survivor, and every such name that is not empty and not the survivor's is an alias |
| ConsolidationPlan.PlanIsSound | apps/api/src/cestaplan_api/services/ingredient_consolidation.py:223-268 | such a plan of the ingredient table meets the conditions the migration relies on |
| ConsolidationPlan.RemainingUnlinked | apps/api/src/cestaplan_api/services/ingredient_consolidation.py:1-20 | the ingredients that remain after the folds are pairwise unlinked |
| ConsolidationPlan.NothingToFold | apps/api/src/cestaplan_api/services/ingredient_consolidation.py:1-20 | a snapshot without links has an empty plan |
| ConsolidationPlan.PlanAgain | apps/api/src/cestaplan_api/services/ingredient_consolidation.py:16-20 | the second plan, of what the first plan of the snapshot leaves, folds nothing and records no alias, whatever mappings are active by then |
| DisjointSets.DisjointSet.Find | apps/api/src/cestaplan_api/services/ingredient_consolidation.py:129-136 | returns the root; path compression, in place, changes no root |
| DisjointSets.DisjointSet.Union | apps/api/src/cestaplan_api/services/ingredient_consolidation.py:138-143 | joins exactly the two sets, under the smaller root |
| DisjointSets.DisjointSet.Add | apps/api/src/cestaplan_api/services/ingredient_consolidation.py:126-127 | a new item is a set of its own and no other set changes |
| DisjointSets.CompressKeepsRoots | apps/api/src/cestaplan_api/services/ingredient_consolidation.py:133-136 | pointing an item at its root changes the root of no item |
| DisjointSets.LinkJoins | apps/api/src/cestaplan_api/services/ingredient_consolidation.py:138-143 | linking a root to a smaller one moves exactly its own set |
| Units.ConversionInvertible | apps/api/src/cestaplan_engine/units.py:80-142 | with nonzero declared factors, converting f to t succeeds exactly when t to f does, and the two compose to the identity, also across declared densities |
| Units.SingleInvertible | apps/api/src/cestaplan_engine/units.py:69-142 | for one declared conversion, the round trip is the identity if and only if its factor is nonzero |
| Units.PlainRoundTrip | apps/api/src/cestaplan_engine/units.py:88-101 | a conversion without an ingredient succeeds exactly within one dimension and is undone by the reverse one |
| Units.PlainKeepsBase | apps/api/src/cestaplan_engine/units.py:52-63 | a fixed conversion does not change the quantity in the base unit |
| Units.DeclaredPaired | apps/api/src/cestaplan_engine/units.py:69-78 | after any list of nonzero declarations the two directions of each pair stand next to each other and are mutually inverse |
| Units.DirectBothWays | apps/api/src/cestaplan_engine/units.py:105-108 | a declared pair is found in both directions, with inverse factors |
| Units.FirstBridgesMirror | apps/api/src/cestaplan_engine/units.py:125-142 | the first entry that bridges f to t and the first that bridges t to f are the two directions of one declaration |
| Units.CrossBack | apps/api/src/cestaplan_engine/units.py:128-141 | crossing an entry and crossing back its mirror is the identity |
| Units.DeclaredForwards | apps/api/src/cestaplan_engine/units.py:69-123 | in any list of declarations, the last one of a pair of units, in whichever direction, multiplies a quantity by its factor forwards and by the reciprocal backwards |
| Units.LastIsFound | apps/api/src/cestaplan_engine/units.py:69-78 | the last declaration of a pair is what is found for it: its factor forwards, the reciprocal backwards |
| Units.DensityForwards | apps/api/src/cestaplan_engine/units.py:105-142 | where it is all that is declared for an ingredient, a density multiplies the quantity in the units of its declaration, whatever units of the two dimensions are given and asked for |
| Units.UnitConverter.constructor | apps/api/src/cestaplan_engine/units.py:69-78 | of the declarations of a pair of units, in whichever direction, the last is what is found: its factor forwards and, unless it is zero, the reciprocal backwards; a zero factor has no reverse |
| Units.UnitConverter.Convert | apps/api/src/cestaplan_engine/units.py:80-123 | computes the conversion that DeclaredForwards, DensityForwards and ConversionInvertible are about: in-dimension factors first, then a direct factor, then a bridge, else an error |
| Units.UnitConverter.Bridge | apps/api/src/cestaplan_engine/units.py:125-142 | the first entry of the ingredient that connects the two units decides |
| Packaging.CeilDivLeast | apps/api/src/cestaplan_engine/packaging.py:18-25 | the number of packages is the least that covers the pending quantity, and the excess is less than one package |
| Packaging.CeilDivMonotone | apps/api/src/cestaplan_engine/packaging.py:18-25 | a larger need never takes fewer packages |
| Packaging.WholePackages | apps/api/src/cestaplan_engine/packaging.py:43-74 | pantry and pending make up the need, purchased is whole packages, 0 <= leftover < package, the cost is packages times price |
| Packaging.Choose | apps/api/src/cestaplan_engine/packaging.py:98-144 | nothing is chosen exactly when no format is usable; otherwise no usable format has a smaller key than the chosen one |
| Packaging.BestIsLeast | apps/api/src/cestaplan_engine/packaging.py:117-144 | the running best of the loop is the lexicographic minimum of the keys |
| Packaging.BestIsFavoured | apps/api/src/cestaplan_engine/packaging.py:98-144 | a format in stock is chosen over one out of stock, then one with a valid price over one without, then the lower weighted burden of leftover and cost, then the smaller id and size |
| Packaging.ChoiceOrderIndependent | apps/api/src/cestaplan_engine/packaging.py:98-144 | with a nonzero cost weight every order of the options gives the same packages, leftover, cost and price status |
| Packaging.ChoiceOrderMatters | apps/api/src/cestaplan_engine/packaging.py:98-144 | whenever the cost weight is zero, two formats of one size and different prices are bought at different costs in the two orders |
| Packaging.OrderIndependentExactly | apps/api/src/cestaplan_engine/packaging.py:98-144 | the order of the formats is without effect on every purchase if and only if the cost weight is not zero |
| PackageUnits.SufficesExactly | apps/api/src/cestaplan_engine/packaging.py:18-74 | the packages counted for a need hold it in its own unit, for every need, if and only if the unit of the format converts to that of the need and is no smaller |
| PackageUnits.ChosenSuffices | apps/api/src/cestaplan_engine/packaging.py:98-144 | when all formats of a product come in one unit, the chosen packages cover what is to be bought |
| PackageUnits.GramsForKilograms | apps/api/src/cestaplan_engine/packaging.py:98-144 | with one format in kilograms and one in grams, three grams are bought for two kilograms |
| Matching.IndexCatalog | apps/api/src/cestaplan_engine/matching.py:16-26 | the first product of each name is the one that is found |
| Matching.MatchIngredient | apps/api/src/cestaplan_engine/matching.py:28-45 | the product of the ingredient's own name, else the first product of its substitution group |
| Matching.GroupsExactly | apps/api/src/cestaplan_engine/facade.py:42-50 | a substitution group holds exactly the ingredients that some candidate calls for as members of it |
| Matching.FirstNamedIn | apps/api/src/cestaplan_engine/matching.py:21-24 | a matched product is in the catalogue under the name asked for |
| Pantry.IndexPantry | apps/api/src/cestaplan_engine/pantry.py:20-33 | per ingredient, exactly the items that have not expired, in their order |
| Pantry.FreshExactly | apps/api/src/cestaplan_engine/pantry.py:20-33 | of an ingredient exactly the items count that do not expire before the day |
| Pantry.Available | apps/api/src/cestaplan_engine/pantry.py:35-46 | the convertible items, converted and added; the others are skipped |
| Pantry.PendingSplits | apps/api/src/cestaplan_engine/pantry.py:48-60 | what the pantry gives is at most what it has and what is needed, and the rest is pending |
| Pantry.AvailableNonNegative | apps/api/src/cestaplan_engine/pantry.py:35-46 | non-negative items and factors never give a negative pantry |
| Pantry.ConvertNonNegative | apps/api/src/cestaplan_engine/units.py:80-123 | non-negative factors convert non-negative quantities into non-negative ones |
| Demand.Aggregate | apps/api/src/cestaplan_engine/provisioning.py:93-135 | the three dictionaries hold, for every line, its total demand, its demand per slot, and the first product and unit it was seen with |
| Demand.ContributeIngredient | apps/api/src/cestaplan_engine/provisioning.py:96-128 | a line without a product is asked for the recipe's quantity in the proportion of the servings: quantity times recipe servings is the recipe's quantity times the servings of the meal; otherwise the product's line, in the product's unit |
| Demand.NotYetDemanded | apps/api/src/cestaplan_engine/provisioning.py:130-133 | a line that is not demanded has no total, and a demanded one has a first product and unit |
| Provisioning.Provide | apps/api/src/cestaplan_engine/provisioning.py:83-250 | one line per demanded key that needs what the recipes need of it, scaled to the servings of each meal, with the pantry, packages and cost of that demand; the known and estimated costs are the subtotals; each meal is charged its share of every line |
| Provisioning.OneIngredientLine | apps/api/src/cestaplan_engine/provisioning.py:93-112 | a meal of one ingredient that no product covers has a line whose need times the recipe's servings is the ingredient's quantity times the servings of the meal |
| Provisioning.LinesAreServed | apps/api/src/cestaplan_engine/provisioning.py:93-135 | every line of every provision needs the sum over the meals of what the recipe needs by itself times meal servings over recipe servings |
| Servings.ContributesPart | apps/api/src/cestaplan_engine/provisioning.py:93-128 | scaling to the servings commutes with the conversion into the product's unit, for every line |
| Servings.ConvertScales | apps/api/src/cestaplan_engine/units.py:80-142 | whether a quantity converts does not depend on how much it is, and the conversion is proportional to it |
| Servings.DemandIsServed | apps/api/src/cestaplan_engine/provisioning.py:93-135 | the total demand of a line is what the recipes need by themselves, scaled to the servings of their meals |
| Servings.OwnServings | apps/api/src/cestaplan_engine/provisioning.py:95-112 | a meal with the recipe's own servings adds the recipe's own quantities to every line |
| Servings.ServingsAdd | apps/api/src/cestaplan_engine/provisioning.py:95-112 | a meal for a + b servings needs what one for a and one for b need together, on every line |
| Provisioning.MakeLine | apps/api/src/cestaplan_engine/provisioning.py:137-218 | the line of a demand: without a product, packages or a usable format it has no price |
| Provisioning.Allocate | apps/api/src/cestaplan_engine/provisioning.py:239-248 | a line with a need and a cost is charged to the slots in proportion to their demand, any other line to none |
| Costs.CostIsUnique | apps/api/src/cestaplan_engine/provisioning.py:53-55 | the total cost is one amount, whatever order the lines were made in |
| Costs.MealsDemandTotal | apps/api/src/cestaplan_engine/provisioning.py:130-135 | with distinct slots, the demand per meal adds up to the demand, for every line |
| Costs.ImputedIsBilled | apps/api/src/cestaplan_engine/provisioning.py:239-248 | with distinct slots, the imputable costs add up to exactly the lines that are needed and cost something |
| Costs.CostConserved | apps/api/src/cestaplan_engine/provisioning.py:185-250 | with non-negative prices, pantry and factors, the imputable costs add up to the total cost |
| Costs.LineIsBilled | apps/api/src/cestaplan_engine/provisioning.py:159-248 | then no line has a negative subtotal and every line that costs something is imputed |
| CostOrder.AddingNeverCheapens | apps/api/src/cestaplan_engine/provisioning.py:83-250 | with one format per product and non-negative inputs, another meal never lowers the cost (a sufficient condition) |
| CostOrder.SteadyNeverCheapens | apps/api/src/cestaplan_engine/provisioning.py:83-250 | nor with any number of formats that are alike in stock and price status when cost alone has a weight |
| CostOrder.NeverCheaperExactly | apps/api/src/cestaplan_engine/packaging.py:98-144 | with a positive cost weight, needing more of a product with alike formats never costs less, for all formats, if and only if waste has no weight |
| CostOrder.AddingCanCheapen | apps/api/src/cestaplan_engine/provisioning.py:83-250 | with two formats of one product it can, although a comment in the optimizer says a partial plan is always cheaper |
| CostOrder.CostOrderFree | apps/api/src/cestaplan_engine/provisioning.py:83-250 | with unique product ids and no substitution groups, the cost does not depend on the order of the meals |
| CostOrder.LineMonotone | apps/api/src/cestaplan_engine/provisioning.py:159-187 | needing more of a product with one format never costs less |
| Scheduling.AutoDistributeIsEven | apps/api/src/cestaplan_engine/scheduling.py:42-63 | automatic distribution goes through the range in date order and gives every day floor(count/n) or ceil(count/n) meals |
| Scheduling.EvenSpread | apps/api/src/cestaplan_engine/scheduling.py:57-60 | the same for any ascending pool of days |
| Scheduling.PickDatesCount | apps/api/src/cestaplan_engine/scheduling.py:42-63 | every way of picking dates gives exactly the requested count |
| Scheduling.PreferredDaysOnly | apps/api/src/cestaplan_engine/scheduling.py:36-56 | with preferred weekdays of which the range has some, only dates of the range on these weekdays get meals, and each of them does if there are enough meals |
| Scheduling.SelectedDatesOnly | apps/api/src/cestaplan_engine/scheduling.py:42-50 | with selected dates only these get meals, and each of them does if there are enough meals |
| Scheduling.WeekdaysCycle | apps/api/src/cestaplan_engine/scheduling.py:51-55 | the first day of the calendar is a Monday and weekdays follow one another in sevens |
| Scheduling.Schedule | apps/api/src/cestaplan_engine/scheduling.py:69-104 | exactly the sum of the requested counts, indexed 0 to N-1, sorted by date and meal, with the requested slots as a multiset and in their order where they tie |
| Scheduling.ScheduledIsAsked | apps/api/src/cestaplan_engine/scheduling.py:69-104 | every slot of a schedule is for one of the requirements: its meal, servings, time limit and reheating, on a date picked for it |
| Scheduling.SlotKeyOrders | apps/api/src/cestaplan_engine/scheduling.py:92-92 | the sort key orders by date and then by meal |
| Sorting.SortByCorrect | apps/api/src/cestaplan_engine/scheduling.py:92-92 | the sort is a sorted permutation and stable |
| PlanScore.Score | apps/api/src/cestaplan_engine/optimizer.py:129-194 | the score of a provision is a function of the assignment alone |
| PlanScore.Repetition | apps/api/src/cestaplan_engine/optimizer.py:156-157 | the triangular numbers of the counts add up to the number of pairs of slots with one recipe |
| PlanScore.TrianglesArePairs | apps/api/src/cestaplan_engine/optimizer.py:146-157 | the j-th reuse of a recipe adds j |
| PlanScore.LimitIsBudget | apps/api/src/cestaplan_engine/optimizer.py:81-85 | a cost is within the limit if and only if it is at most the amount for a strict budget, and at most the amount and its margin for any other |
| PlanScore.BudgetIsPenalised | apps/api/src/cestaplan_engine/optimizer.py:187-193 | within the budget nothing is added to the score, and beyond a strict one a million per unit of money in excess |
| PlanScore.FavouriteIsRewarded | apps/api/src/cestaplan_engine/optimizer.py:161-173 | making a recipe a favourite lowers the score by the weight for each of its uses |
| PlanScore.RejectionIsPenalised | apps/api/src/cestaplan_engine/optimizer.py:162-173 | rejecting a recipe raises the score by the weight for each of its uses |
| PlanScore.ViolationIsPenalised | apps/api/src/cestaplan_engine/optimizer.py:163-173 | each unmet preference of a recipe raises the score by the weight for each of its uses |
| PlanScore.WasteIsLeftover | apps/api/src/cestaplan_engine/optimizer.py:138-142 | the waste of a line is what its leftover costs at the price per unit of the format that is bought |
| PlanScore.WasteIsPenalised | apps/api/src/cestaplan_engine/optimizer.py:138-173 | a greater weight on waste raises the score, by what the leftovers of the plan cost |
| PlanScore.RepetitionIsPenalised | apps/api/src/cestaplan_engine/optimizer.py:146-173 | a greater weight on repetition raises the score, by the number of pairs of slots with one recipe |
| PlanScore.TimeIsPenalised | apps/api/src/cestaplan_engine/optimizer.py:158-173 | a greater weight on time raises the score, by the hours of preparation and cooking |
| PlanScore.PantryIsRewarded | apps/api/src/cestaplan_engine/optimizer.py:138-173 | a greater weight on the pantry lowers the score, by the number of lines the pantry serves |
| PlanScore.CostCounts | apps/api/src/cestaplan_engine/optimizer.py:180-186 | the cost itself counts only for a household whose priority is the price |
| SearchSpace.SwapDescends | apps/api/src/cestaplan_engine/optimizer.py:271-275 | an accepted swap lowers (score, vector of recipe ids) lexicographically |
| SearchSpace.NoneRevisited | apps/api/src/cestaplan_engine/optimizer.py:259-278 | no assignment is accepted twice |
| SearchSpace.DescentIsShort | apps/api/src/cestaplan_engine/optimizer.py:259-278 | a search accepts no more plans than there are assignments, so it ends even without a pass limit |
| Optimizer.PlanOptimizer.LocalSearch | apps/api/src/cestaplan_engine/optimizer.py:245-279 | the result is the last plan of a descending run from the start in which each step swaps one slot, its score and provision are its own and it is among the evaluated plans; either more plans than the pass limit were visited, or no single swap has a smaller (score, id) and all of them were evaluated |
| Optimizer.PlanOptimizer.Pass | apps/api/src/cestaplan_engine/optimizer.py:259-278 | one pass keeps score and provision those of the chosen plan; a pass without improvement leaves a plan that no swap improves |
| Optimizer.PlanOptimizer.TrySlot | apps/api/src/cestaplan_engine/optimizer.py:261-276 | the first option with a smaller key is taken; otherwise every option of the slot was evaluated and none is better |
| Optimizer.PlanOptimizer.TrackCheapest | apps/api/src/cestaplan_engine/optimizer.py:201-212 | the tracked plan is the cheapest of all whole plans evaluated so far |
| Optimizer.PlanOptimizer.Greedy | apps/api/src/cestaplan_engine/optimizer.py:215-243 | every slot gets the option with the least (metric, id) given the slots before it |
| Optimizer.Ordered | apps/api/src/cestaplan_engine/optimizer.py:329-336 | any permutation of the options |
| Optimizer.GreedyIsUnique | apps/api/src/cestaplan_engine/optimizer.py:215-243 | with distinct ids the greedy plan is the same for every order of exploration |
| Optimizer.PlanOptimizer.Optimize | apps/api/src/cestaplan_engine/optimizer.py:281-327 | no plan exactly when some slot has no candidate; otherwise the variety-seeded result if it fits, else the cost-seeded one if that fits, else over budget with both searches made, each from its evaluated greedy start; if the penalty dominates, over budget means that no evaluated plan fits |
| Optimizer.OvershootDominates | apps/api/src/cestaplan_engine/optimizer.py:187-193 | the penalty dominates when the smallest overshoot costs more than the rest of the score can vary |
| Optimizer.SearchFailed | apps/api/src/cestaplan_engine/optimizer.py:302-316 | under a dominating penalty, a search that ends over the limit met no plan within it |
| Optimizer.NoGreedyPlanFits | apps/api/src/cestaplan_engine/optimizer.py:281-327 | over budget under a dominating penalty means that no greedy plan fits, neither by variety nor by cost |
| Optimizer.EnoughPasses | apps/api/src/cestaplan_engine/optimizer.py:245-279 | with as many passes as there are assignments the result of a search is locally optimal and all its swaps were evaluated |
| Optimizer.OverBudgetOfTwo | apps/api/src/cestaplan_engine/optimizer.py:187-193 | for one slot with a candidate over the limit and one within it, the outcome is over budget if and only if the one over the limit has the smaller (score, id) |
| Optimizer.OptimalEverywhere | apps/api/src/cestaplan_engine/optimizer.py:277-279 | a plan that is optimal at every slot is locally optimal, and all its swaps were evaluated |
| OptimizerLimits.RejectionOutweighsBudget | apps/api/src/cestaplan_engine/optimizer.py:187-193 | with the default weights every run on a slot with a rejected recipe within the limit and another one above it is over budget, although the plan that fits was evaluated |
| OptimizerLimits.RunRejected | apps/api/src/cestaplan_engine/optimizer.py:281-327 | the optimizer on that input: over budget, while the cheapest cost it reports is within the limit |
| Validators.ValidateAllergens | apps/api/src/cestaplan_engine/validators.py:132-176 | a recipe passes exactly when it shares no allergen with any member and, if any member has a strict allergy, has no unassessed ingredient |
| Validators.CollectAllergens | apps/api/src/cestaplan_engine/validators.py:125-130 | the declared codes and those of every ingredient, canonicalised |
| Validators.IndexAllergens | apps/api/src/cestaplan_engine/validators.py:117-123 | the allergens of all products of a name, and only those |
| Validators.ValidateDiet | apps/api/src/cestaplan_engine/validators.py:205-240 | a recipe passes exactly when no hard restriction of any member is hit; unmet soft preferences are counted |
| Validators.TokensExactly | apps/api/src/cestaplan_engine/validators.py:182-203 | the words a recipe is judged by are exactly those that it, its ingredients or the products of their names say of themselves |
| Validators.HitsExactly | apps/api/src/cestaplan_engine/validators.py:178-240 | a restriction is violated exactly when one of these words is forbidden by its diet or, if it names no diet, is the restriction itself |
| Validators.DirectMatchIsSafe | apps/api/src/cestaplan_engine/validators.py:114-176 | a product matched by the ingredient's own name carries no allergen of any member |
| Validators.FreeExactly | apps/api/src/cestaplan_engine/validators.py:125-176 | everybody who may eat a recipe may eat a product if and only if the gate knew all its allergens from the recipe |
| Validators.SubstituteIsNotChecked | apps/api/src/cestaplan_engine/validators.py:114-176 | the product matched to an ingredient is free for everybody in every recipe with the ingredient if and only if it is sold under the ingredient's own name or has no allergen |
| Validators.CakeWithAlmonds | apps/api/src/cestaplan_engine/matching.py:28-45 | with the groups of two candidate recipes, almond flour is bought for a cake that passes the gate for someone allergic to nuts |
| Facade.GeneratePlan | apps/api/src/cestaplan_engine/facade.py:53-172 | unassignable exactly when some slot has no admissible candidate; otherwise what the optimizer decided on the feasible candidates: its plan, with exactly the requested slots and with reconciled costs, at most the amount of a strict budget that is not negative and at most the amount and its margin for any other, or over budget with the least cost of the whole feasible plans it evaluated |
| Facade.PlanWithinLimit | apps/api/src/cestaplan_engine/facade.py:146-172 | with a budget that is not negative, a returned plan costs at most its amount if it is strict, else at most amount and margin, also when no meal was asked for |
| Facade.FilterRecipes | apps/api/src/cestaplan_engine/facade.py:77-87 | exactly the candidates that are safe for everybody and can be cooked with the equipment |
| Facade.FeasibleFor | apps/api/src/cestaplan_engine/facade.py:91-102 | per slot, the admissible recipes of its meal type and within its time |
| Facade.Solve | apps/api/src/cestaplan_engine/facade.py:117-172 | the optimizer's plan is returned exactly when it fits; otherwise the over-budget number is the cost of a whole feasible assignment and the least among the evaluated ones |
| Facade.OverMeansOver | apps/api/src/cestaplan_engine/facade.py:146-172 | under a dominating penalty the reported least cost is above the amount of a strict budget, or above amount and margin of any other |
| Facade.ReportedCostIsAPlan | apps/api/src/cestaplan_engine/facade.py:146-172 | the reported number is the cost of a feasible assignment |
| Facade.FittingGreedyIsPlanned | apps/api/src/cestaplan_engine/facade.py:117-172 | under a dominating penalty, if a greedy plan of either metric costs at most the amount of a strict budget, or amount and margin of any other, the answer is a plan |
| Facade.NoChoiceExactly | apps/api/src/cestaplan_engine/facade.py:117-172 | when every slot admits a single recipe there is a plan if and only if these recipes cost at most the amount of a strict budget, or amount and margin of any other |
| Facade.PlannedMealsFit | apps/api/src/cestaplan_engine/facade.py:77-102 | every planned meal is a candidate of its slot's type, quick enough for it, cookable with the equipment, and for the date and servings of the slot |
| Facade.PlanSlots | apps/api/src/cestaplan_engine/facade.py:117-172 | slots with candidates are planned or reported over budget as the optimizer decided |
| Facade.BuildResult | apps/api/src/cestaplan_engine/facade.py:191-249 | each meal carries its imputable share and what it adds to the meals before it; the days add up to the meals |
| Facade.MarginalsTelescope | apps/api/src/cestaplan_engine/facade.py:216-226 | the marginal costs add up to the cost of the meals |
| Facade.MarginalsNonNegative | apps/api/src/cestaplan_engine/facade.py:223-226 | with one format per product no marginal cost is negative |
| Facade.ResultReconciles | apps/api/src/cestaplan_engine/facade.py:216-249 | imputable, marginal, daily and line costs are one amount |
| Facade.PlanReconciles | apps/api/src/cestaplan_engine/facade.py:191-289 | the same for every returned plan of an input without negative prices, stock or factors |
| Facade.PlannedProductsAreSafe | apps/api/src/cestaplan_engine/facade.py:70-102 | every directly matched product of a returned plan is free of every member's allergens |
| PriceHistory.History.Record | apps/api/src/cestaplan_api/ingestion/price_history.py:112-202 | the whole new history: a quarantined call appends a disputed row and an anomaly, an unchanged price refreshes the open row, any other closes it and opens a new one; no stored price changes; no lane ever has two open rows and the open one carries the price recorded last; history and log stay in agreement if and only if the observation is quarantined or fits in, also when it comes late |
| PriceHistory.HistoryRefinesLog | apps/api/src/cestaplan_api/ingestion/price_history.py:112-202 | at every instant the valid row carries the price of the accepted observation that is latest at or before it, and one is valid exactly when there is such an observation |
| PriceHistory.ValidRowIsUnique | apps/api/src/cestaplan_api/ingestion/price_history.py:184-202 | at any instant at most one row of a lane is valid |
| PriceHistory.OpenRowIsUnique | apps/api/src/cestaplan_api/ingestion/price_history.py:39-64 | a lane has at most one open row, and it is its last |
| PriceHistory.QuarantineStep | apps/api/src/cestaplan_api/ingestion/price_history.py:147-175 | a quarantined observation alters nothing of what the history says |
| PriceHistory.UnchangedStep | apps/api/src/cestaplan_api/ingestion/price_history.py:177-182 | refreshing the open row agrees with logging its price at an instant that has this price already |
| PriceHistory.ChangeStep | apps/api/src/cestaplan_api/ingestion/price_history.py:184-202 | closing and reopening agrees with logging the new price when nothing of the lane is later; intervals abut, none is inverted and exactly one is open |
| PriceHistory.RecordedExactly | apps/api/src/cestaplan_api/ingestion/price_history.py:177-202 | an accepted observation with the price of the open row keeps the history in agreement with the log in time if and only if that is the price at its instant already, any other one if and only if no accepted observation of its lane is later |
| PriceHistory.InOrderFits | apps/api/src/cestaplan_api/ingestion/price_history.py:112-202 | an observation that is no older than the latest accepted one of its lane always does |
| PriceHistory.LateObservationOverlaps | apps/api/src/cestaplan_api/ingestion/price_history.py:184-202 | after two different prices, any observation older than the second breaks the agreement |
| PriceHistory.LateOverridesNewer | apps/api/src/cestaplan_api/ingestion/price_history.py:184-202 | after one price, a late observation of another one inverts the interval of the newer price and is what the history says from then on, against the log |
| PriceHistory.RecordedCarries | apps/api/src/cestaplan_api/ingestion/price_history.py:39-64 | the open row of a lane carries the price recorded last, however late observations come |
| PriceHistory.RecordedOneOpen | apps/api/src/cestaplan_api/ingestion/price_history.py:39-64 | no lane ever has two open rows, however late observations come |
| PriceHistory.CurrentIsOpenRow | apps/api/src/cestaplan_api/ingestion/current_price.py:238-285 | for a named store and scope with one type of price, the production selection is the open row: the price of the latest accepted observation |
| PriceAnomalies.Detect | apps/api/src/cestaplan_api/ingestion/anomaly.py:112-154 | there is a finding about the whole batch if and only if it is a block page, empty, much smaller or larger than the open catalogue or almost uniform in price, and one about an identifier if and only if an observation of it has no positive amount, another currency, an extreme move from its open price, or another unit |
| PriceAnomalies.CleanIsNear | apps/api/src/cestaplan_api/ingestion/anomaly.py:210-223 | an observation without findings is positive and, with a positive prior price, within a factor below three of it |
| PriceAnomalies.NearIsClean | apps/api/src/cestaplan_api/ingestion/anomaly.py:250-267 | a price move is flagged if and only if it is by a factor of three or more, either way |
| PriceAnomalies.OverBatchExactly | apps/api/src/cestaplan_api/ingestion/anomaly.py:112-196 | there is a finding about the batch if and only if one of the batch signals holds |
| PriceAnomalies.MoveExactly | apps/api/src/cestaplan_api/ingestion/anomaly.py:250-267 | there is a finding about a move if and only if it reaches the extreme factor either way or is within tolerance of a slip of two decimals |
| PriceAnomalies.SuspiciousExactly | apps/api/src/cestaplan_api/ingestion/anomaly.py:197-248 | an observation has a finding, about its currency or itself, if and only if one of its signals holds |
| PriceAnomalies.DefaultAlarms | apps/api/src/cestaplan_api/ingestion/anomaly.py:112-196 | the default thresholds in whole numbers: a tenth of the catalogue or less, more than ten times of it, 95 of 100 amounts alike among five or more |
| PriceAnomalies.DetectsExactly | apps/api/src/cestaplan_api/ingestion/anomaly.py:112-248 | both directions, for every batch: findings about the batch and about each identifier exactly when their signals hold |
| PriceAnomalies.FoundInBatch | apps/api/src/cestaplan_api/ingestion/anomaly.py:210-248 | a finding about an observation names its variant and is severe |
| PriceAnomalies.FindingsNameTheirVariant | apps/api/src/cestaplan_api/ingestion/anomaly.py:197-248 | every finding about a currency or an observation is about an observation of the batch |
| PriceAnomalies.OverBatchIsAboutBatch | apps/api/src/cestaplan_api/ingestion/anomaly.py:112-196 | every finding about the batch as a whole is severe and names no variant |
| PriceSync.RunPriceSync | apps/api/src/cestaplan_api/ingestion/orchestration.py:99-233 | the whole pass: what is parsed is resolved, judged against the open prices as they were, and recorded once each; a block page among the fetches, or any other condemned batch, means that nothing is accepted and the log stays; rows and log are what recording gives, accepted + quarantined = parsed, rejected stays 0; a pass that no accepted observation is later than keeps history and log in agreement |
| PriceSync.Catalog.Resolve | apps/api/src/cestaplan_api/ingestion/orchestration.py:343-415 | one variant per identifier, created once |
| PriceSync.BuildPriorStats | apps/api/src/cestaplan_api/ingestion/orchestration.py:450-483 | the open prices and units of the lanes of the batch, by identifier |
| PriceSync.QuarantineTargets | apps/api/src/cestaplan_api/ingestion/orchestration.py:529-541 | the severe findings, split into those that condemn the batch and those that condemn a variant |
| PriceSync.DecideQuarantine | apps/api/src/cestaplan_api/ingestion/orchestration.py:544-559 | quarantined exactly when the batch, the variant or the validation fails |
| PriceSync.RecordAll | apps/api/src/cestaplan_api/ingestion/orchestration.py:191-213 | each observation is recorded once and counted as accepted or quarantined |
| PriceSync.AcceptedExactly | apps/api/src/cestaplan_api/ingestion/orchestration.py:529-559 | with one observation per variant, one is accepted if and only if the batch, the observation and its validation are clean |
| PriceSync.CondemnedExactly | apps/api/src/cestaplan_api/ingestion/orchestration.py:178-190 | a whole batch is condemned if and only if a fetch is a block page, nothing was parsed, it is much smaller or larger than what is open, its amounts are almost uniform, or an observation without an identifier is suspect |
| PriceSync.VerdictExactly | apps/api/src/cestaplan_api/ingestion/orchestration.py:529-559 | for any batch, an observation is accepted if and only if the batch is not condemned, it is valid, and no observation of its identifier is suspect |
| PriceSync.PassStaysTame | apps/api/src/cestaplan_api/ingestion/orchestration.py:178-213 | a pass of the default detector with one observation per variant keeps all accepted amounts positive and consecutive ones near |
| PriceSync.RunPasses | apps/api/src/cestaplan_api/ingestion/orchestration.py:99-233 | any sequence of passes from an empty history: each is a pass on what the one before left, and rows and log are what the last one left; in time order history and log agree, and in any order, without an identifier twice in a pass, the accepted amounts stay positive and near |
| PriceSync.TameMeansBounded | apps/api/src/cestaplan_api/ingestion/anomaly.py:250-267 | consecutive accepted amounts of a lane differ by a factor strictly between 1/3 and 3 |
| PriceSync.RunStaysTame | apps/api/src/cestaplan_api/ingestion/orchestration.py:178-213 | a pass with one observation per identifier on a history with bounded moves leaves one |
| PriceJumps.SafeExactly | apps/api/src/cestaplan_api/ingestion/orchestration.py:450-483 | a batch keeps price moves bounded for all prices and all histories, late ones included, if and only if no identifier occurs twice in it, in whichever lanes |
| PriceJumps.JumpInOneLane | apps/api/src/cestaplan_api/ingestion/orchestration.py:450-483 | for every batch with an identifier twice in one lane there is a pass without any finding, on a history that agrees with its log, in which that lane goes up by a factor of four or more from one accepted price to the next |
| PriceJumps.JumpAcrossLanes | apps/api/src/cestaplan_api/ingestion/orchestration.py:473-475 | for every batch with an identifier in two lanes there is such a pass in which the earlier of the lanes goes up by a factor of ten or more: the open price of the later lane overwrote its own |
| GenerationJobs.NextJob | apps/api/src/cestaplan_worker/main.py:188-199 | the runnable job of the highest priority and then the least id |
| GenerationJobs.Queue.Claim | apps/api/src/cestaplan_worker/main.py:179-206 | takes the next runnable job out of the queue and changes nothing else |
| GenerationJobs.Queue.Process | apps/api/src/cestaplan_worker/processor.py:42-57 | the whole effect of processing on job, run and plan for every outcome; nothing of a run that raised survives except the failed attempt |
| GenerationJobs.Queue.Execute | apps/api/src/cestaplan_worker/processor.py:60-102 | completes or fails job, run and plan together; an exception undoes every change |
| GenerationJobs.Queue.HandleFailure | apps/api/src/cestaplan_worker/processor.py:129-150 | an attempt is counted; the last one fails the run and the plan, any other requeues with a delay |
| GenerationJobs.BackoffGrows | apps/api/src/cestaplan_worker/processor.py:153-156 | a later attempt never waits less, and never more than 300 seconds |
| GenerationJobs.BackoffDoubles | apps/api/src/cestaplan_worker/processor.py:153-156 | the delay starts at the poll interval and doubles with each attempt, up to 300 seconds |
| GenerationJobs.RetryWaits | apps/api/src/cestaplan_worker/processor.py:129-150 | a job given back is runnable again exactly from its delay on |
| GenerationJobs.Queue.Recover | apps/api/src/cestaplan_worker/main.py:129-176 | exactly the abandoned jobs are taken back, each for one attempt; a job failed by exhaustion has its run and plan failed |
| GenerationJobs.Queue.Reap | apps/api/src/cestaplan_worker/main.py:161-172 | one abandoned job: requeued, or failed together with its run and plan |
| GenerationRuns.Run | apps/api/src/cestaplan_worker/main.py:129-289 | any run of claims, processing, crashes and recoveries of dead holders, with the states in between, each step with exactly its effect: attempts and claims stay within the maximum, terminal jobs never change, finished jobs agree with their runs, the number of steps that change a job is bounded by the work there was, and while a job is unfinished some step leaves less work |
| GenerationRuns.UnfinishedHasStep | apps/api/src/cestaplan_worker/main.py:129-206 | every unfinished job can be taken on: claimed by an idle worker, processed by the one that holds it, or recovered once its holder is dead |
| GenerationRuns.UnfinishedMeansProgress | apps/api/src/cestaplan_worker/main.py:129-206 | while a job is unfinished there is a step that, whatever exactly it does, uses up work |
| GenerationRuns.ClaimsAreBounded | apps/api/src/cestaplan_worker/main.py:179-206 | no job is claimed or attempted more often than allowed, and a queued job has attempts left |
| GenerationRuns.WorkDone | apps/api/src/cestaplan_worker/main.py:161-206 | each effective step uses up one of the steps a job has left |
| GenerationRuns.RecoveryWorks | apps/api/src/cestaplan_worker/main.py:161-172 | a recovery that changes something uses up a step |
| CrawlQueue.Queue.Claim | apps/api/src/cestaplan_api/ingestion/queue.py:163-212 | locks the runnable job of a retailer below its limit that is first by (priority, available_at, id), or none if there is none |
| CrawlQueue.RetailersAtCapacity | apps/api/src/cestaplan_api/ingestion/queue.py:215-230 | exactly the limited retailers whose locked jobs, at least one, reach the limit |
| CrawlQueue.ClaimWithinLimits | apps/api/src/cestaplan_api/ingestion/queue.py:163-230 | a claim keeps every limited retailer within its limit if and only if its own retailer has no limit or one of at least one |
| CrawlQueue.Run | apps/api/src/cestaplan_api/ingestion/queue.py:163-341 | any interleaving of steps, with the states in between, each step with exactly its effect: with limits of at least one the locked jobs of a limited retailer never exceed its limit, and the attempts end in bounds if and only if no step failed a job whose attempts were used up, which no worker in time does |
| CrawlQueue.EffectWithinLimits | apps/api/src/cestaplan_api/ingestion/queue.py:163-341 | no step of any kind takes a limited retailer over a limit of at least one |
| CrawlQueue.EffectInBounds | apps/api/src/cestaplan_api/ingestion/queue.py:243-341 | a step of any kind keeps the attempts in bounds if and only if it does not fail a job whose attempts are used up |
| CrawlQueue.ZeroLimitIsExceeded | apps/api/src/cestaplan_api/ingestion/queue.py:215-230 | for a retailer with limit zero and one queued job, the claim is allowed and leaves the limit exceeded |
| CrawlQueue.Queue.Enqueue | apps/api/src/cestaplan_api/ingestion/queue.py:103-148 | a key that was enqueued before gives the existing job and creates nothing; otherwise one fresh queued job |
| CrawlQueue.Queue.FindByKey | apps/api/src/cestaplan_api/ingestion/queue.py:151-157 | finds the job with the key if there is one |
| CrawlQueue.Queue.Fail | apps/api/src/cestaplan_api/ingestion/queue.py:257-292 | whatever its status, an attempt is counted; the job becomes a dead letter or is queued again after the backoff, and nothing else changes |
| CrawlQueue.Queue.Complete | apps/api/src/cestaplan_api/ingestion/queue.py:243-254 | whatever its status, the job is completed and unlocked, and nothing else changes |
| CrawlQueue.Queue.Cancel | apps/api/src/cestaplan_api/ingestion/queue.py:295-303 | the job is cancelled and unlocked, and nothing else changes |
| CrawlQueue.Queue.Beat | apps/api/src/cestaplan_api/ingestion/queue.py:236-240 | only the heartbeat of the job changes |
| CrawlQueue.Queue.RecoverStuck | apps/api/src/cestaplan_api/ingestion/queue.py:306-341 | exactly the stuck jobs are queued again, without an attempt |
| CrawlQueue.FailuresAreBounded | apps/api/src/cestaplan_api/ingestion/queue.py:257-292 | a job fails at most its maximum of times (once if the maximum is zero), and the last failure is the dead letter |
| CrawlQueue.RecoveredRuns | apps/api/src/cestaplan_api/ingestion/queue.py:306-341 | a recovered job can run again at once, with the attempts it had |
| CrawlQueue.BackoffBounds | apps/api/src/cestaplan_api/ingestion/queue.py:347-364 | the delay is between 30 and 3630 seconds, the jitter added on top |
| CrawlQueue.BackoffDoubles | apps/api/src/cestaplan_api/ingestion/queue.py:347-364 | the first retry waits 30 seconds, each further one twice as long up to an hour, the jitter on top |
| CrawlQueue.RetryWaits | apps/api/src/cestaplan_api/ingestion/queue.py:257-292 | a failed job with attempts left is runnable again exactly from the delay for its attempts on, never within 30 seconds |
| CrawlScheduler.NotRecentIsSpaced | apps/api/src/cestaplan_api/ingestion/scheduler.py:250-271 | a run blocks a new one if and only if it is less than max(1, cadence) calendar days before |
| CrawlScheduler.UnforcedRun | apps/api/src/cestaplan_api/ingestion/scheduler.py:206-248 | every run created without force is its spacing of days after every earlier run of its retailer, store and type, and has exactly one job |
| CrawlScheduler.NewRunsApart | apps/api/src/cestaplan_api/ingestion/scheduler.py:206-271 | every new run of a daily pass belongs to an unblocked retailer of the pass and is at least as many days after every earlier run of its retailer, store and type as the configuration asks for that type |
| CrawlScheduler.KeyIsFresh | apps/api/src/cestaplan_api/ingestion/scheduler.py:326-329 | when no recent run exists, no job has the key of the new run |
| CrawlScheduler.Scheduler.CreateWithJob | apps/api/src/cestaplan_api/ingestion/scheduler.py:226-248 | one new run, recorded as unforced exactly without force; without force its job is always new, with force only if the key is |
| CrawlScheduler.Scheduler.ScheduleStore | apps/api/src/cestaplan_api/ingestion/scheduler.py:206-248 | exactly the due run types get a run, every one recorded as unforced with its cadence unless forced; afterwards every type has a recent run; a forced run gets a job exactly when its key is new; the report counts what was added |
| CrawlScheduler.Scheduler.ScheduleRetailer | apps/api/src/cestaplan_api/ingestion/scheduler.py:171-185 | the same for all stores of a retailer, or for the retailer as a whole if it has none |
| CrawlScheduler.Scheduler.ScheduleDaily | apps/api/src/cestaplan_api/ingestion/scheduler.py:151-168 | the same for every unblocked retailer, all new runs unforced; the report accounts for every configured run type and every blocked retailer; without the lock nothing is created or counted |
| CrawlScheduler.Scheduler.ScheduleTwice | apps/api/src/cestaplan_api/ingestion/scheduler.py:1-20 | a second pass on the same day and configuration reports every configured run type as existing and leaves runs and jobs as the first left them |
| CrawlScheduler.SecondPassAddsNothing | apps/api/src/cestaplan_api/ingestion/scheduler.py:1-20 | whenever one daily pass follows another of the same day and configuration, it adds no run and no job |
| CrawlScheduler.Scheduler.RunPasses | apps/api/src/cestaplan_api/ingestion/scheduler.py:151-203 | any sequence of daily and forced passes at any instants, with the books in between: each pass has its effect, so daily runs are recorded as unforced, and spacing and jobs hold throughout |
| CrawlScheduler.ForcedRunsWithoutJob | apps/api/src/cestaplan_api/ingestion/scheduler.py:226-248 | a forced pass over a store whose keys of the day are all enqueued creates one run per type and reports as many jobs, but no run has a job and none is added |
| RateLimiting.RateLimiter.IsLimited | apps/api/src/cestaplan_api/security.py:123-127 | with a clock that never goes back, the answer is that of a count over all events since the last reset within the window |
| RateLimiting.RateLimiter.Prune | apps/api/src/cestaplan_api/security.py:114-121 | what is stored of a key afterwards is its log after the cutoff; other keys are untouched |
| RateLimiting.RateLimiter.Record | apps/api/src/cestaplan_api/security.py:129-135 | the log grows by the event and the stored list is the log within the window |
| RateLimiting.RateLimiter.Reset | apps/api/src/cestaplan_api/security.py:137-140 | the key starts afresh and no other changes |
| RateLimiting.RateLimiter.ResetAll | apps/api/src/cestaplan_api/security.py:142-145 | every key starts afresh |
| RateLimiting.RateLimiter.Admit | apps/api/src/cestaplan_api/deps.py:211-217 | a caller that checks and then records keeps every window within the maximum and every stored list bounded |
| RateLimiting.Serve | apps/api/src/cestaplan_api/deps.py:211-217 | for any sequence of requests of any keys: each is admitted exactly when the window before it was not full, the log grows by exactly the admitted ones, and every window and stored list stays bounded |
| RateLimiting.AfterTwice | apps/api/src/cestaplan_api/security.py:114-121 | pruning twice is pruning by the later cutoff |
| RateLimiting.AdmitStep | apps/api/src/cestaplan_api/deps.py:211-217 | one more event in a window that is not full fits every window |

## Left out

* Consolidation: timestamps, public ids and identity sequences written by the database; the journal rows keep the
  row itself, not its JSON text; concurrent transactions; overflow of a summed quantity.
* Consolidation plan: the order of merges and aliases, the list of unmerged groups, and the text rules behind lemma,
  dictionary entry, normal form and slug, which are arbitrary functions.
* Provisioning: warnings, leftovers and the pantry list of a provision, display names and the order of the lines (the
  source sorts them by key).  Units are taken in normalised form.
* `IngredientNormalizer`, coverage grading, explanations and the nutrition summary: they only report.
- CostOrder.CostOrderFree: asks for no substitution groups, because with them the first ingredient of a line decides which pantry entry counts.
- Optimizer.PlanOptimizer.Optimize: completeness speaks of the plans that the two local searches evaluated, not of all plans, because the search is not exhaustive.
- Optimizer.PlanOptimizer.LocalSearch: local optimality holds when the pass limit is not used up, always so when it is at least the number of assignments; with the limit of four the search may stop before it.
* Validators: the texts of violations and warnings; the alias, restriction and category tables are arbitrary.
* Price history: staging rows, rolled-back rows, confidence, source and URL columns; the freshness grade and the
  projection into `ProductPrice`.
* Price sync: raw captures, run counters, coverage snapshot, the `Product` and `ExternalProduct` rows; letters are raised
  to upper case for ASCII only; coverage and package findings, which a sync pass never has data for.
* Generation jobs: a job whose run exists but whose plan does not (foreign keys exclude it); the heartbeat during processing is not committed before the end, so a crash leaves the claimed
  state; last_error, started_at and finished_at; the price refresh and the audit purge of the worker loop.
- GenerationRuns.Run: recovery happens only when no live worker holds an abandoned job, as the source's comments assume; nothing in the code enforces it.
* Crawl queue: a claim is one atomic step; two claims that count at the same time could both pass a limit.  Logging and
  redaction.
* Crawl scheduler: which connectors are blocked and whether the advisory lock was taken are inputs; an idempotency key is
  its four parts, not their text.
* Rate limiter: the process-wide lock (calls run one after the other), hashing, tokens and sessions.
