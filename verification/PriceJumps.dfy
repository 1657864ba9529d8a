/**
  When a pass can let a price jump.  Every observation of a batch is judged against the open price of its
  identifier as it was before the pass, so an identifier that occurs twice escapes the check of price moves:
  in one lane because the second is not judged against the first, and in two lanes because the open price
  of the later lane stands in for that of the earlier one.
 */
module PriceJumps {
  import opened Wrappers
  import opened Collections
  import opened PriceHistory
  import opened PriceAnomalies
  import opened PriceSync

  /** What an observation is about, whatever its price. */
  datatype Shape = Shape(ref: string, scope: string, priceType: string)

  function ShapesOf(pending: seq<Pending>): seq<Shape> {
    seq(|pending|, k requires 0 <= k < |pending| => Shape(pending[k].obs.ref, pending[k].obs.scope, pending[k].obs.priceType))
  }

  /** Whatever the prices are and were, a pass over a batch of these shapes keeps the price moves bounded. */
  ghost predicate Safe(shapes: seq<Shape>) {
    forall r: Run :: IsBounded(r) && ShapesOf(r.pending) == shapes ==> Tame(LogAfter(r))
  }

  /** A pass of the default detector over any history with bounded price moves. */
  ghost predicate IsBounded(r: Run) {
    IsRun(DEFAULT_DETECTOR, r) && OneOpen(r.rows) && CarriesLast(r.rows, r.log) && Tame(r.log)
  }

  /** Such a pass over a history that agrees with its log and holds nothing later than the pass. */
  ghost predicate IsOrderly(r: Run) {
    IsBounded(r) && Refines(r.rows, r.log) && Timely(r.log, r.asOf)
  }

  /** From one accepted amount of the lane to the next the price rises by the factor or more. */
  ghost predicate Jumps(log: seq<Entry>, lane: Lane, from: nat, to: nat, factor: real) {
    && from < to < |log| && log[from].lane == lane == log[to].lane
    && (forall k | from < k < to :: log[k].lane != lane)
    && 0.0 < log[from].price.amount && factor * log[from].price.amount <= log[to].price.amount
  }

  /** An orderly pass over the shapes finds nothing, and the lane of its `k`-th observation jumps. */
  ghost predicate LetsJump(r: Run, shapes: seq<Shape>, k: nat, factor: real) {
    && IsOrderly(r) && ShapesOf(r.pending) == shapes && r.findings == [] && k < |r.pending|
    && exists from: nat, to: nat :: Jumps(LogAfter(r), LaneOf(r.pending[k], r.store), from, to, factor)
  }

  lemma {:induction false} JumpIsNotTame(log: seq<Entry>, lane: Lane, from: nat, to: nat, factor: real)
    requires Jumps(log, lane, from, to, factor) && factor >= 3.0
    ensures !Tame(log)
  {
    var was, now := log[from].price.amount, log[to].price.amount;
    assert (factor - 3.0) * was >= 0.0;
    RatioBounds(was, now);
    if Tame(log) {
      TameMeansBounded(log, from, to);
    }
  }

  lemma {:induction false} LettingJumpIsUnsafe(r: Run, shapes: seq<Shape>, k: nat, factor: real)
    requires LetsJump(r, shapes, k, factor) && factor >= 3.0
    ensures !Safe(shapes)
  {
    var from: nat, to: nat :| Jumps(LogAfter(r), LaneOf(r.pending[k], r.store), from, to, factor);
    JumpIsNotTame(LogAfter(r), LaneOf(r.pending[k], r.store), from, to, factor);
  }

  ghost predicate NoneTwice(shapes: seq<Shape>) {
    forall i, j | 0 <= i < j < |shapes| :: shapes[i].ref != shapes[j].ref
  }

  /** A batch is safe for all prices exactly when no identifier occurs twice. */
  lemma {:induction false} SafeExactly(shapes: seq<Shape>)
    ensures Safe(shapes) <==> NoneTwice(shapes)
  {
    if NoneTwice(shapes) {
      forall r: Run | IsBounded(r) && ShapesOf(r.pending) == shapes ensures Tame(LogAfter(r)) {
        OnceIsSafe(r);
      }
    } else {
      var i: nat, j: nat :| i < j < |shapes| && shapes[i].ref == shapes[j].ref;
      if a: nat, b: nat :| a < b < |shapes| && shapes[a] == shapes[b] {
        JumpInOneLane(shapes, a, b);
        var r: Run :| LetsJump(r, shapes, b, 4.0);
        LettingJumpIsUnsafe(r, shapes, b, 4.0);
      } else {
        JumpAcrossLanes(shapes, i, j);
        var r: Run :| LetsJump(r, shapes, i, 10.0);
        LettingJumpIsUnsafe(r, shapes, i, 10.0);
      }
    }
  }

  lemma {:induction false} OnceIsSafe(r: Run)
    requires IsBounded(r) && NoneTwice(ShapesOf(r.pending))
    ensures Tame(LogAfter(r))
  {
    RunIsJudged(DEFAULT_DETECTOR, r);
    var shapes := ShapesOf(r.pending);
    forall i, j | 0 <= i < j < |r.pending| ensures r.pending[i].obs.ref != r.pending[j].obs.ref {
      assert shapes[i].ref != shapes[j].ref;
    }
    PassStaysTame(r.rows, r.log, r.store, r.pending, r.findings, r.asOf, r.variants, |r.pending|);
    FullPrefix(r.pending);
  }

  // ----- A batch with given prices --------------------------------------------------------------

  function Euro(amount: real): Price {
    Price(amount, "EUR", None, false)
  }

  function Observed(shape: Shape, amount: real): Observation {
    Observation(shape.ref, Euro(amount), shape.scope, shape.priceType, 0, None)
  }

  /** Each identifier is the variant numbered by its first place in the batch. */
  function FirstWith(shapes: seq<Shape>, ref: string): (i: nat)
    ensures i <= |shapes| && (i < |shapes| ==> shapes[i].ref == ref)
    ensures forall k | 0 <= k < i :: shapes[k].ref != ref
  {
    if shapes == [] then 0
    else
      var i := FirstWith(shapes[..|shapes| - 1], ref);
      if i < |shapes| - 1 || shapes[i].ref == ref then i else |shapes|
  }

  function VariantsOf(shapes: seq<Shape>): map<string, nat> {
    map ref | ref in (set k | 0 <= k < |shapes| :: shapes[k].ref) :: FirstWith(shapes, ref)
  }

  function Staged(shapes: seq<Shape>, amounts: seq<real>): seq<Pending>
    requires |amounts| == |shapes|
  {
    seq(|shapes|, k requires 0 <= k < |shapes| =>
      Pending(Observed(shapes[k], amounts[k]), FirstWith(shapes, shapes[k].ref), true))
  }

  function Fetched(shapes: seq<Shape>, amounts: seq<real>): Fetch
    requires |amounts| == |shapes|
  {
    Parsed(seq(|shapes|, k requires 0 <= k < |shapes| => (Observed(shapes[k], amounts[k]), true)))
  }

  /** The pass over that batch when every price of `entries` is open. */
  ghost function StagedRun(entries: seq<Entry>, shapes: seq<Shape>, amounts: seq<real>): Run
    requires |amounts| == |shapes|
  {
    Run(OpenRows(entries), entries, None, [Fetched(shapes, amounts)], 0, VariantsOf(shapes), Staged(shapes, amounts), [])
  }

  function LaneOfShape(shapes: seq<Shape>, k: nat): Lane
    requires k < |shapes|
  {
    Lane(FirstWith(shapes, shapes[k].ref), None, shapes[k].scope, shapes[k].priceType)
  }

  lemma {:induction false} SameLaneSameShape(shapes: seq<Shape>, i: nat, j: nat)
    requires i < |shapes| && j < |shapes|
    ensures LaneOfShape(shapes, i) == LaneOfShape(shapes, j) <==> shapes[i] == shapes[j]
  {
  }

  predicate Distinct(amounts: seq<real>) {
    forall i, j | 0 <= i < j < |amounts| :: amounts[i] != amounts[j]
  }

  lemma {:induction false} StagedResolved(shapes: seq<Shape>, amounts: seq<real>)
    requires |amounts| == |shapes|
    ensures Resolved(Staged(shapes, amounts), VariantsOf(shapes)) && OneEach(VariantsOf(shapes))
    ensures PlainOf(Staged(shapes, amounts)) == ParsedBy([Fetched(shapes, amounts)], 0)
    ensures ShapesOf(Staged(shapes, amounts)) == shapes
  {
    var fetch := Fetched(shapes, amounts);
    assert [fetch][..0] == [];
    assert ParsedBy([fetch], 0) == [] + Stamped(fetch.observations, 0);
  }

  // ----- No finding -----------------------------------------------------------------------------

  lemma {:induction false} CountsNone(observations: seq<Observation>, amount: real)
    requires forall i | 0 <= i < |observations| :: observations[i].price.amount != amount
    ensures CountAmount(observations, amount) == 0
  {
    if observations != [] {
      CountsNone(observations[..|observations| - 1], amount);
    }
  }

  lemma {:induction false} CountsOnce(observations: seq<Observation>, amount: real)
    requires forall i, j | 0 <= i < j < |observations| :: observations[i].price.amount != observations[j].price.amount
    ensures CountAmount(observations, amount) <= 1
  {
    if observations != [] {
      var last := |observations| - 1;
      if observations[last].price.amount == amount {
        CountsNone(observations[..last], amount);
      } else {
        CountsOnce(observations[..last], amount);
      }
    }
  }

  /** Prices that all differ are not uniform. */
  lemma {:induction false} NotUniform(observations: seq<Observation>)
    requires forall i, j | 0 <= i < j < |observations| :: observations[i].price.amount != observations[j].price.amount
    ensures !UniformPrices(DEFAULT_DETECTOR, observations)
  {
    forall i | 0 <= i < |observations| && 5 <= |observations|
      ensures CountAmount(observations, observations[i].price.amount) as real / |observations| as real < 0.95
    {
      CountsOnce(observations, observations[i].price.amount);
      FractionBelow(CountAmount(observations, observations[i].price.amount) as real, |observations| as real);
    }
  }

  lemma {:induction false} FractionBelow(part: real, whole: real)
    requires part <= 1.0 && 5.0 <= whole
    ensures part / whole < 0.95
  {
    var r := part / whole;
    assert r * whole == part;
  }

  /** Nothing is found in an observation in euros that is near the open price of its identifier. */
  predicate Unsuspicious(prior: Prior, o: Observation) {
    && o.price.amount > 0.0 && o.price.currency == "EUR" && o.unitCode.None?
    && (o.ref in prior.prices ==> prior.prices[o.ref] > 0.0 && Near(prior.prices[o.ref], o.price.amount))
  }

  lemma {:induction false} NothingOnObservations(prior: Prior, observations: seq<Observation>)
    requires prior.currency == "EUR" && forall k | 0 <= k < |observations| :: Unsuspicious(prior, observations[k])
    ensures OverObservations(DEFAULT_DETECTOR, prior, observations) == [] && OverCurrencies(prior, observations) == []
  {
    if observations != [] {
      var last := |observations| - 1;
      NothingOnObservations(prior, observations[..last]);
      var o := observations[last];
      assert Unsuspicious(prior, o);
      if o.ref in prior.prices {
        NearIsClean(o.ref, prior.prices[o.ref], o.price.amount);
      }
    }
  }

  lemma {:induction false} NothingFound(batch: Batch, prior: Prior)
    requires batch.observations != [] && !batch.isBlockPage && !batch.parserReturnedZero
    requires prior.currency == "EUR" && forall k | 0 <= k < |batch.observations| :: Unsuspicious(prior, batch.observations[k])
    requires CatalogSize(DEFAULT_DETECTOR, |batch.observations|, prior) == []
    requires forall i, j | 0 <= i < j < |batch.observations| ::
      batch.observations[i].price.amount != batch.observations[j].price.amount
    ensures FindingsOf(DEFAULT_DETECTOR, batch, prior) == []
  {
    NotUniform(batch.observations);
    NothingOnObservations(prior, batch.observations);
  }

  /** A staged batch against a snapshot in which nothing is suspicious is a pass that accepts everything. */
  lemma {:induction false} StagedIsRun(entries: seq<Entry>, shapes: seq<Shape>, amounts: seq<real>)
    requires |amounts| == |shapes| && shapes != [] && Distinct(amounts)
    requires var prior := PriorOf(OpenRows(entries), None, Staged(shapes, amounts));
      && CatalogSize(DEFAULT_DETECTOR, |shapes|, prior) == []
      && forall k | 0 <= k < |shapes| :: Unsuspicious(prior, Observed(shapes[k], amounts[k]))
    ensures IsRun(DEFAULT_DETECTOR, StagedRun(entries, shapes, amounts))
  {
    StagedResolved(shapes, amounts);
    StagedUnsuspected(PriorOf(OpenRows(entries), None, Staged(shapes, amounts)), shapes, amounts);
  }

  lemma {:induction false} StagedUnsuspected(prior: Prior, shapes: seq<Shape>, amounts: seq<real>)
    requires |amounts| == |shapes| && shapes != [] && Distinct(amounts)
    requires prior.currency == "EUR" && CatalogSize(DEFAULT_DETECTOR, |shapes|, prior) == []
    requires forall k | 0 <= k < |shapes| :: Unsuspicious(prior, Observed(shapes[k], amounts[k]))
    ensures FindingsOf(DEFAULT_DETECTOR, BatchOf(Staged(shapes, amounts), [Fetched(shapes, amounts)]), prior) == []
  {
    var batch := BatchOf(Staged(shapes, amounts), [Fetched(shapes, amounts)]);
    assert forall k | 0 <= k < |shapes| :: batch.observations[k] == Observed(shapes[k], amounts[k]);
    NothingFound(batch, prior);
  }

  /** What a pass without findings logs. */
  lemma {:induction false} LoggedAll(log: seq<Entry>, shapes: seq<Shape>, amounts: seq<real>, n: nat)
    requires |amounts| == |shapes| && n <= |shapes|
    ensures var logged := Logged(log, None, Staged(shapes, amounts)[..n], [], 0);
      && |logged| == |log| + n
      && (forall k | 0 <= k < |log| :: logged[k] == log[k])
      && (forall k | 0 <= k < n :: LogsAt(logged, |log| + k, shapes, k, amounts[k]))
  {
    if n > 0 {
      var pending := Staged(shapes, amounts);
      LoggedAll(log, shapes, amounts, n - 1);
      PrefixStep(pending, n - 1);
      LoggedStep(log, None, pending[..n - 1], [], 0, pending[n - 1]);
    }
  }

  // ----- A history of open prices ---------------------------------------------------------------

  function OpenRow(e: Entry): Row {
    Row(e.lane, e.price, None, e.asOf, e.asOf, e.asOf, None, false)
  }

  function OpenRows(entries: seq<Entry>): seq<Row> {
    seq(|entries|, k requires 0 <= k < |entries| => OpenRow(entries[k]))
  }

  /** One positive price in each of several lanes. */
  ghost predicate OneInEach(entries: seq<Entry>) {
    && (forall i, j | 0 <= i < j < |entries| :: entries[i].lane != entries[j].lane)
    && (forall i | 0 <= i < |entries| :: entries[i].price.amount > 0.0 && entries[i].asOf == 0)
  }

  lemma {:induction false} OpenRowsRefine(entries: seq<Entry>)
    requires OneInEach(entries)
    ensures Refines(OpenRows(entries), entries) && CarriesLast(OpenRows(entries), entries) && Tame(entries)
  {
    if entries == [] {
      NothingRefines();
    } else {
      OpenRowsRefine(entries[..|entries| - 1]);
      OneMoreOpenRow(entries);
    }
  }

  lemma {:induction false} OneMoreOpenRow(entries: seq<Entry>)
    requires OneInEach(entries) && entries != []
    requires var rest := entries[..|entries| - 1]; Refines(OpenRows(rest), rest) && CarriesLast(OpenRows(rest), rest) && Tame(rest)
    ensures Refines(OpenRows(entries), entries) && CarriesLast(OpenRows(entries), entries) && Tame(entries)
  {
    var rest, e := entries[..|entries| - 1], entries[|entries| - 1];
    SplitLast(entries);
    OpenRowsOneOpen(rest);
    OneMoreLane(rest, e);
    NotLogged(rest, e.lane);
    TameStep(rest, e);
  }

  lemma {:induction false} OneMoreLane(entries: seq<Entry>, e: Entry)
    requires Refines(OpenRows(entries), entries) && CarriesLast(OpenRows(entries), entries) && OneOpen(OpenRows(entries))
    requires forall i | 0 <= i < |entries| :: entries[i].lane != e.lane
    ensures Refines(OpenRows(entries + [e]), entries + [e]) && CarriesLast(OpenRows(entries + [e]), entries + [e])
  {
    var rows, row := OpenRows(entries), OpenRow(e);
    assert LatestOpen(rows, e.lane).None?;
    assert OpenRows(entries + [e]) == Changed(rows, row);
    ChangeStep(rows, entries, row, e);
    ChangedCarries(rows, entries, row, e);
  }

  lemma {:induction false} OpenRowsOneOpen(entries: seq<Entry>)
    requires OneInEach(entries)
    ensures OneOpen(OpenRows(entries))
  {
  }

  lemma {:induction false} NotLogged(log: seq<Entry>, lane: Lane)
    requires forall i | 0 <= i < |log| :: log[i].lane != lane
    ensures LastRecorded(log, lane).None?
  {
    if log != [] {
      NotLogged(log[..|log| - 1], lane);
    }
  }

  lemma {:induction false} OpenAt(entries: seq<Entry>, lane: Lane)
    requires OneInEach(entries)
    ensures forall i | 0 <= i < |entries| && entries[i].lane == lane :: LatestOpen(OpenRows(entries), lane) == Some(i)
    ensures (forall i | 0 <= i < |entries| :: entries[i].lane != lane) ==> LatestOpen(OpenRows(entries), lane).None?
  {
    var rows := OpenRows(entries);
    OpenRowsRefine(entries);
    forall i | 0 <= i < |entries| && entries[i].lane == lane ensures LatestOpen(rows, lane) == Some(i) {
      OpenRowIsUnique(rows, i, lane);
    }
  }

  lemma {:induction false} NoUnits(entries: seq<Entry>, pending: seq<Pending>)
    ensures OpenUnits(OpenRows(entries), None, pending) == map[]
  {
    if pending != [] {
      NoUnits(entries, pending[..|pending| - 1]);
    }
  }

  /** The open prices, followed by one entry for each observation. */
  ghost predicate LogsAll(log: seq<Entry>, entries: seq<Entry>, shapes: seq<Shape>, amounts: seq<real>)
    requires |amounts| == |shapes|
  {
    && |log| == |entries| + |shapes|
    && (forall k | 0 <= k < |entries| :: log[k] == entries[k])
    && (forall k | 0 <= k < |shapes| :: LogsAt(log, |entries| + k, shapes, k, amounts[k]))
  }

  ghost predicate LogsAt(log: seq<Entry>, at: nat, shapes: seq<Shape>, k: nat, amount: real)
    requires k < |shapes|
  {
    at < |log| && log[at] == Entry(LaneOfShape(shapes, k), 0, Euro(amount))
  }

  /** The pass is a bounded one over the shapes, and it logs every observation after the open prices. */
  lemma {:induction false} StagedOutcome(entries: seq<Entry>, shapes: seq<Shape>, amounts: seq<real>)
    requires |amounts| == |shapes| && OneInEach(entries) && IsRun(DEFAULT_DETECTOR, StagedRun(entries, shapes, amounts))
    ensures var r := StagedRun(entries, shapes, amounts);
      IsOrderly(r) && ShapesOf(r.pending) == shapes && LogsAll(LogAfter(r), entries, shapes, amounts)
  {
    OpenRowsRefine(entries);
    OpenRowsOneOpen(entries);
    StagedResolved(shapes, amounts);
    StagedLogs(entries, shapes, amounts);
  }

  lemma {:induction false} StagedLogs(entries: seq<Entry>, shapes: seq<Shape>, amounts: seq<real>)
    requires |amounts| == |shapes|
    ensures LogsAll(LogAfter(StagedRun(entries, shapes, amounts)), entries, shapes, amounts)
  {
    LoggedAll(entries, shapes, amounts, |shapes|);
    FullPrefix(Staged(shapes, amounts));
  }

  // ----- Twice in one lane ----------------------------------------------------------------------

  function PowersOfFour(n: nat): (s: seq<real>)
    ensures |s| == n
  {
    if n == 0 then [] else PowersOfFour(n - 1) + [Power(n - 1)]
  }

  function Power(k: nat): (p: real)
    ensures p > 0.0
  {
    if k == 0 then 1.0 else 4.0 * Power(k - 1)
  }

  lemma {:induction false} PowerGrows(i: nat, j: nat)
    requires i < j
    ensures Power(j) >= 4.0 * Power(i)
  {
    if i < j - 1 {
      PowerGrows(i, j - 1);
    }
  }

  lemma {:induction false} PowersDiffer(n: nat)
    ensures forall k | 0 <= k < n :: PowersOfFour(n)[k] == Power(k)
    ensures Distinct(PowersOfFour(n))
  {
    if n > 0 {
      PowersDiffer(n - 1);
      forall i | 0 <= i < n - 1 ensures Power(i) != Power(n - 1) {
        PowerGrows(i, n - 1);
      }
    }
  }

  lemma {:induction false} NothingOpen(pending: seq<Pending>)
    ensures PriorOf([], None, pending) == Prior(0, map[], map[], "EUR")
  {
    NoUnits([], pending);
    assert OpenRows([]) == [];
    NoPrices(pending);
    assert OpenCatalogSize([], None) == 0;
  }

  lemma {:induction false} NoPrices(pending: seq<Pending>)
    ensures OpenPrices([], None, pending) == map[]
  {
    if pending != [] {
      NoPrices(pending[..|pending| - 1]);
    }
  }

  /** The last place before `j` with the same shape. */
  lemma {:induction false} LastBefore(shapes: seq<Shape>, i: nat, j: nat) returns (k: nat)
    requires i < j < |shapes| && shapes[i] == shapes[j]
    ensures k < j && shapes[k] == shapes[j] && forall l | k < l < j :: shapes[l] != shapes[j]
  {
    k := j - 1;
    while shapes[k] != shapes[j]
      invariant i <= k < j && forall l | k < l < j :: shapes[l] != shapes[j]
      decreases k
    {
      k := k - 1;
    }
  }

  lemma {:induction false} PowersAreRun(shapes: seq<Shape>)
    requires shapes != []
    ensures IsRun(DEFAULT_DETECTOR, StagedRun([], shapes, PowersOfFour(|shapes|)))
  {
    var amounts := PowersOfFour(|shapes|);
    PowersDiffer(|shapes|);
    assert OpenRows([]) == [];
    NothingOpen(Staged(shapes, amounts));
    StagedIsRun([], shapes, amounts);
  }

  /** Two observations in one lane: on an empty history every price is accepted, however far from the one before. */
  lemma {:induction false} JumpInOneLane(shapes: seq<Shape>, i: nat, j: nat)
    requires i < j < |shapes| && shapes[i] == shapes[j]
    ensures exists r: Run :: LetsJump(r, shapes, j, 4.0)
  {
    var amounts := PowersOfFour(|shapes|);
    var r := StagedRun([], shapes, amounts);
    PowersAreRun(shapes);
    PowersDiffer(|shapes|);
    StagedOutcome([], shapes, amounts);
    StagedLane(shapes, amounts, j);
    var k := PowersJump(shapes, LogAfter(r), i, j);
    assert LetsJump(r, shapes, j, 4.0);
  }

  /** A log of ever larger prices jumps where a lane occurs again. */
  lemma {:induction false} PowersJump(shapes: seq<Shape>, log: seq<Entry>, i: nat, j: nat) returns (k: nat)
    requires i < j < |shapes| && shapes[i] == shapes[j] && LogsAll(log, [], shapes, PowersOfFour(|shapes|))
    ensures Jumps(log, LaneOfShape(shapes, j), k, j, 4.0)
  {
    var none: seq<Entry> := [];
    k := LastBefore(shapes, i, j);
    PowersDiffer(|shapes|);
    assert LogsAt(log, k, shapes, k, Power(k)) && LogsAt(log, j, shapes, j, Power(j)) by {
      assert LogsAt(log, |none| + k, shapes, k, PowersOfFour(|shapes|)[k]);
      assert LogsAt(log, |none| + j, shapes, j, PowersOfFour(|shapes|)[j]);
    }
    SameLaneSameShape(shapes, k, j);
    forall l | k < l < j ensures log[l].lane != LaneOfShape(shapes, j) {
      SameLaneSameShape(shapes, l, j);
      assert LogsAt(log, |none| + l, shapes, l, PowersOfFour(|shapes|)[l]);
    }
    PowerGrows(k, j);
  }

  // ----- Once in each of two lanes --------------------------------------------------------------

  /** Open prices of as many other variants as the batch has observations. */
  function Fillers(n: nat): seq<Entry> {
    seq(n, k requires 0 <= k < n => Entry(Lane(n + k, None, "", ""), 0, Euro(1.0)))
  }

  function LargePrice(n: nat): real {
    10.0 * n as real
  }

  /** The earlier lane was open at one euro, the later one at ten per observation. */
  function TwoLanes(shapes: seq<Shape>, i: nat, j: nat): seq<Entry>
    requires i < |shapes| && j < |shapes|
  {
    Fillers(|shapes|) + [
      Entry(LaneOfShape(shapes, i), 0, Euro(1.0)),
      Entry(LaneOfShape(shapes, j), 0, Euro(LargePrice(|shapes|)))]
  }

  /** All prices of the batch are near the open price of the later lane. */
  function NearTheLater(n: nat): seq<real> {
    seq(n, k requires 0 <= k < n => LargePrice(n) + k as real)
  }

  ghost predicate AllDiffer(shapes: seq<Shape>) {
    forall a, b | 0 <= a < b < |shapes| :: shapes[a] != shapes[b]
  }

  lemma {:induction false} TwoLanesOneInEach(shapes: seq<Shape>, i: nat, j: nat)
    requires i < j < |shapes| && shapes[i] != shapes[j]
    ensures OneInEach(TwoLanes(shapes, i, j))
  {
    SameLaneSameShape(shapes, i, j);
  }

  /** What the lookup of one observation finds. */
  lemma {:induction false} OpenInTwoLanes(shapes: seq<Shape>, i: nat, j: nat, k: nat)
    requires i < j < |shapes| && shapes[i].ref == shapes[j].ref && AllDiffer(shapes) && k < |shapes|
    ensures LatestOpen(OpenRows(TwoLanes(shapes, i, j)), LaneOfShape(shapes, k)) ==
      if k == i then Some(|shapes|) else if k == j then Some(|shapes| + 1) else None
  {
    var n, entries, lane := |shapes|, TwoLanes(shapes, i, j), LaneOfShape(shapes, k);
    TwoLanesOneInEach(shapes, i, j);
    OpenAt(entries, lane);
    SameLaneSameShape(shapes, k, i);
    SameLaneSameShape(shapes, k, j);
    assert entries[n].lane == LaneOfShape(shapes, i) && entries[n + 1].lane == LaneOfShape(shapes, j);
    assert k < i ==> shapes[k] != shapes[i];
    assert i < k ==> shapes[i] != shapes[k];
    assert k < j ==> shapes[k] != shapes[j];
    assert j < k ==> shapes[j] != shapes[k];
  }

  lemma {:induction false} PricesStep(rows: seq<Row>, pending: seq<Pending>, p: Pending)
    ensures var open, before := LatestOpen(rows, LaneOf(p, None)), OpenPrices(rows, None, pending);
      OpenPrices(rows, None, pending + [p]) == if open.Some? then before[p.obs.ref := rows[open.value].price.amount] else before
  {
    assert (pending + [p])[..|pending|] == pending;
  }

  lemma {:induction false} StagedLane(shapes: seq<Shape>, amounts: seq<real>, k: nat)
    requires |amounts| == |shapes| && k < |shapes|
    ensures var p := Staged(shapes, amounts)[k];
      LaneOf(p, None) == LaneOfShape(shapes, k) && p.obs.ref == shapes[k].ref
  {
  }

  lemma {:induction false} PricesInTwoLanes(shapes: seq<Shape>, i: nat, j: nat)
    requires i < |shapes| && j < |shapes|
    ensures var rows := OpenRows(TwoLanes(shapes, i, j));
      rows[|shapes|].price.amount == 1.0 && rows[|shapes| + 1].price.amount == LargePrice(|shapes|)
  {
  }

  /** The lookup of one observation puts the price of its lane in the snapshot. */
  lemma {:induction false} LookupStep(shapes: seq<Shape>, amounts: seq<real>, i: nat, j: nat, k: nat)
    requires |amounts| == |shapes| && i < j < |shapes| && shapes[i].ref == shapes[j].ref && AllDiffer(shapes) && k < |shapes|
    ensures LooksUp(OpenRows(TwoLanes(shapes, i, j)), Staged(shapes, amounts), shapes[i].ref, LargePrice(|shapes|), i, j, k)
  {
    var rows, pending := OpenRows(TwoLanes(shapes, i, j)), Staged(shapes, amounts);
    OpenInTwoLanes(shapes, i, j, k);
    PrefixStep(pending, k);
    PricesStep(rows, pending[..k], pending[k]);
    PricesInTwoLanes(shapes, i, j);
    StagedLane(shapes, amounts, k);
  }

  /** The open prices when the first `m` observations have been looked up: the later lane overwrites the earlier one. */
  function Overwritten(ref: string, large: real, i: nat, j: nat, m: nat): map<string, real> {
    if m <= i then map[] else map[ref := if m <= j then 1.0 else large]
  }

  lemma {:induction false} OverwrittenStep(ref: string, large: real, i: nat, j: nat, k: nat)
    requires i < j
    ensures var before := Overwritten(ref, large, i, j, k);
      Overwritten(ref, large, i, j, k + 1) == if k == i then before[ref := 1.0] else if k == j then before[ref := large] else before
  {
  }

  /** Looking up the `k`-th observation changes the snapshot only for the two lanes. */
  ghost predicate LooksUp(rows: seq<Row>, pending: seq<Pending>, ref: string, large: real, i: nat, j: nat, k: nat)
    requires k < |pending|
  {
    var before := OpenPrices(rows, None, pending[..k]);
    OpenPrices(rows, None, pending[..k + 1]) ==
      if k == i then before[ref := 1.0] else if k == j then before[ref := large] else before
  }

  ghost predicate AllLookedUp(rows: seq<Row>, pending: seq<Pending>, ref: string, large: real, i: nat, j: nat) {
    forall k | 0 <= k < |pending| :: LooksUp(rows, pending, ref, large, i, j, k)
  }

  lemma {:induction false} LaterOverwrites(rows: seq<Row>, pending: seq<Pending>, ref: string, large: real, i: nat, j: nat, m: nat)
    requires i < j && m <= |pending| && AllLookedUp(rows, pending, ref, large, i, j)
    ensures OpenPrices(rows, None, pending[..m]) == Overwritten(ref, large, i, j, m)
  {
    if m > 0 {
      LaterOverwrites(rows, pending, ref, large, i, j, m - 1);
      assert LooksUp(rows, pending, ref, large, i, j, m - 1);
      OverwrittenStep(ref, large, i, j, m - 1);
    } else {
      assert pending[..0] == [];
    }
  }

  lemma {:induction false} OnlyTheLater(rows: seq<Row>, pending: seq<Pending>, ref: string, large: real, i: nat, j: nat)
    requires i < j < |pending| && AllLookedUp(rows, pending, ref, large, i, j)
    ensures OpenPrices(rows, None, pending) == map[ref := large]
  {
    LaterOverwrites(rows, pending, ref, large, i, j, |pending|);
    FullPrefix(pending);
  }

  ghost function Between(from: nat, to: nat): (r: set<nat>)
    requires from <= to
    ensures |r| == to - from && forall x: nat :: x in r <==> from <= x < to
  {
    if from < to then Between(from, to - 1) + {to - 1} else {}
  }

  lemma {:induction false} SmallerSet(small: set<nat>, large: set<nat>)
    requires small <= large
    ensures |small| <= |large|
  {
    assert large == small + (large - small);
  }

  /** The catalogue is about as large as the batch. */
  lemma {:induction false} SizeOfTwoLanes(shapes: seq<Shape>, i: nat, j: nat)
    requires i < j < |shapes|
    ensures |shapes| <= OpenCatalogSize(OpenRows(TwoLanes(shapes, i, j)), None) <= 2 * |shapes|
  {
    var n, rows := |shapes|, OpenRows(TwoLanes(shapes, i, j));
    var open := set k | 0 <= k < |rows| && rows[k].validUntil.None? && !rows[k].disputed && rows[k].lane.store == None :: rows[k].lane.variant;
    forall x | x in Between(n, 2 * n) ensures x in open {
      assert rows[x - n].lane.variant == x;
    }
    SmallerSet(Between(n, 2 * n), open);
    SmallerSet(open, Between(0, 2 * n));
  }

  lemma {:induction false} HalfAtMost(part: real, whole: real)
    requires 0.0 < whole && 2.0 * part <= whole
    ensures part / whole < 0.9
  {
    var fraction := part / whole;
    assert fraction * whole == part;
  }

  lemma {:induction false} SimilarSize(size: nat, prior: Prior)
    requires 0 < size <= prior.catalogSize <= 2 * size
    ensures CatalogSize(DEFAULT_DETECTOR, size, prior) == []
  {
    HalfAtMost((prior.catalogSize - size) as real, prior.catalogSize as real);
    assert prior.catalogSize as real * 10.0 >= size as real;
  }

  /** Once in each of two lanes: everything is near the open price of the later lane, and the earlier one jumps. */
  lemma {:induction false} JumpAcrossLanes(shapes: seq<Shape>, i: nat, j: nat)
    requires i < j < |shapes| && shapes[i].ref == shapes[j].ref && AllDiffer(shapes)
    ensures exists r: Run :: LetsJump(r, shapes, i, 10.0)
  {
    var amounts, entries := NearTheLater(|shapes|), TwoLanes(shapes, i, j);
    var r := StagedRun(entries, shapes, amounts);
    TwoLanesOneInEach(shapes, i, j);
    AcrossIsRun(shapes, i, j);
    StagedOutcome(entries, shapes, amounts);
    StagedLane(shapes, amounts, i);
    LogAcrossJumps(shapes, i, j, LogAfter(r));
    assert LetsJump(r, shapes, i, 10.0);
  }

  /** The lane that was open at one euro goes to more than ten. */
  lemma {:induction false} LogAcrossJumps(shapes: seq<Shape>, i: nat, j: nat, log: seq<Entry>)
    requires i < j < |shapes| && AllDiffer(shapes)
    requires LogsAll(log, TwoLanes(shapes, i, j), shapes, NearTheLater(|shapes|))
    ensures Jumps(log, LaneOfShape(shapes, i), |shapes|, |shapes| + 2 + i, 10.0)
  {
    var n, entries := |shapes|, TwoLanes(shapes, i, j);
    assert log[n] == entries[n] && log[n + 1] == entries[n + 1];
    assert LogsAt(log, |entries| + i, shapes, i, NearTheLater(n)[i]);
    assert shapes[i] != shapes[j];
    SameLaneSameShape(shapes, i, j);
    forall l | n < l < n + 2 + i ensures log[l].lane != LaneOfShape(shapes, i) {
      if l > n + 1 {
        var k := l - n - 2;
        SameLaneSameShape(shapes, k, i);
        assert LogsAt(log, |entries| + k, shapes, k, NearTheLater(n)[k]);
        assert shapes[k] != shapes[i];
      }
    }
    assert log[n + 2 + i].price.amount >= 10.0;
  }

  lemma {:induction false} AllLookups(shapes: seq<Shape>, amounts: seq<real>, i: nat, j: nat)
    requires |amounts| == |shapes| && i < j < |shapes| && shapes[i].ref == shapes[j].ref && AllDiffer(shapes)
    ensures AllLookedUp(OpenRows(TwoLanes(shapes, i, j)), Staged(shapes, amounts), shapes[i].ref, LargePrice(|shapes|), i, j)
  {
    var rows, pending := OpenRows(TwoLanes(shapes, i, j)), Staged(shapes, amounts);
    var ref, large := shapes[i].ref, LargePrice(|shapes|);
    forall k | 0 <= k < |pending| ensures LooksUp(rows, pending, ref, large, i, j, k) {
      LookupStep(shapes, amounts, i, j, k);
    }
  }

  /** The snapshot holds the price of the later lane alone. */
  lemma {:induction false} SnapshotAcross(shapes: seq<Shape>, amounts: seq<real>, i: nat, j: nat)
    requires |amounts| == |shapes| && i < j < |shapes| && shapes[i].ref == shapes[j].ref && AllDiffer(shapes)
    ensures OpenPrices(OpenRows(TwoLanes(shapes, i, j)), None, Staged(shapes, amounts)) ==
      map[shapes[i].ref := LargePrice(|shapes|)]
  {
    var rows, pending := OpenRows(TwoLanes(shapes, i, j)), Staged(shapes, amounts);
    AllLookups(shapes, amounts, i, j);
    OnlyTheLater(rows, pending, shapes[i].ref, LargePrice(|shapes|), i, j);
  }

  lemma {:induction false} AcrossIsRun(shapes: seq<Shape>, i: nat, j: nat)
    requires i < j < |shapes| && shapes[i].ref == shapes[j].ref && AllDiffer(shapes)
    ensures IsRun(DEFAULT_DETECTOR, StagedRun(TwoLanes(shapes, i, j), shapes, NearTheLater(|shapes|)))
  {
    var amounts, entries := NearTheLater(|shapes|), TwoLanes(shapes, i, j);
    var prior := PriorOf(OpenRows(entries), None, Staged(shapes, amounts));
    SnapshotAcross(shapes, amounts, i, j);
    SizeOfTwoLanes(shapes, i, j);
    SimilarSize(|shapes|, prior);
    forall k | 0 <= k < |shapes| ensures Unsuspicious(prior, Observed(shapes[k], amounts[k])) {
      assert amounts[k] == LargePrice(|shapes|) + k as real;
    }
    StagedIsRun(entries, shapes, amounts);
  }
}
