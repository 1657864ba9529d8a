/**
  One pass of the price pipeline of a retailer: parse what was fetched, judge the batch against the open
  prices, and record every observation, quarantining the suspect ones.
 */
module PriceSync {
  import opened Wrappers
  import opened Collections
  import opened PriceHistory
  import opened PriceAnomalies

  /** What fetching and parsing one product gave; an observation comes with the verdict of its validation. */
  datatype Fetch =
    | BlockPage
    | Failed
    | Unparsable
    | Parsed(observations: seq<(Observation, bool)>)

  /** An observation resolved to its variant. */
  datatype Pending = Pending(obs: Observation, variant: nat, valid: bool)

  datatype Counters = Counters(
    discovered: nat, fetched: nat, parsed: nat, accepted: nat, quarantined: nat, rejected: int, errors: nat, captures: nat)

  function LaneOf(p: Pending, store: Option<nat>): Lane {
    Lane(p.variant, store, p.obs.scope, p.obs.priceType)
  }

  // ----- Variants -------------------------------------------------------------------------------

  /** The variants of a retailer, one per external identifier. */
  class Catalog {
    var variants: map<string, nat>
    var next: nat

    ghost predicate Valid()
      reads this
    {
      && (forall a | a in variants :: variants[a] < next)
      && (forall a, b | a in variants && b in variants && variants[a] == variants[b] :: a == b)
    }

    constructor ()
      ensures Valid() && variants == map[]
    {
      variants, next := map[], 0;
    }

    /** `_resolve_variant`: the variant of the identifier, created with a fresh number when it is new. */
    method Resolve(ref: string) returns (variant: nat)
      requires Valid()
      modifies this
      ensures Valid()
      ensures variants == if ref in old(variants) then old(variants) else old(variants)[ref := variant]
      ensures variants[ref] == variant
    {
      if ref in variants {
        return variants[ref];
      }
      variant := next;
      variants, next := variants[ref := variant], next + 1;
    }
  }

  /** Variants are kept. */
  ghost predicate Grown(before: map<string, nat>, after: map<string, nat>) {
    forall a :: a in before ==> a in after && after[a] == before[a]
  }

  // ----- Parsing --------------------------------------------------------------------------------

  /** Every pending observation belongs to the variant of its identifier. */
  ghost predicate Resolved(pending: seq<Pending>, variants: map<string, nat>) {
    forall i | 0 <= i < |pending| :: pending[i].obs.ref in variants && variants[pending[i].obs.ref] == pending[i].variant
  }

  /** The observations of a fetch, stamped with the instant of the pass. */
  function Stamped(observations: seq<(Observation, bool)>, asOf: int): seq<(Observation, bool)> {
    seq(|observations|, i requires 0 <= i < |observations| => (observations[i].0.(observedAt := asOf), observations[i].1))
  }

  function ParsedBy(fetches: seq<Fetch>, asOf: int): seq<(Observation, bool)> {
    if fetches == [] then []
    else
      ParsedBy(fetches[..|fetches| - 1], asOf)
      + if fetches[|fetches| - 1].Parsed? then Stamped(fetches[|fetches| - 1].observations, asOf) else []
  }

  function PlainOf(pending: seq<Pending>): seq<(Observation, bool)> {
    seq(|pending|, i requires 0 <= i < |pending| => (pending[i].obs, pending[i].valid))
  }

  method ResolveAll(observations: seq<(Observation, bool)>, asOf: int, catalog: Catalog, pending0: seq<Pending>)
    returns (pending: seq<Pending>)
    requires catalog.Valid() && Resolved(pending0, catalog.variants)
    modifies catalog
    ensures catalog.Valid() && Resolved(pending, catalog.variants)
    ensures Grown(old(catalog.variants), catalog.variants)
    ensures PlainOf(pending) == PlainOf(pending0) + Stamped(observations, asOf)
  {
    pending := pending0;
    for i := 0 to |observations|
      invariant catalog.Valid() && Resolved(pending, catalog.variants) && Grown(old(catalog.variants), catalog.variants)
      invariant PlainOf(pending) == PlainOf(pending0) + Stamped(observations, asOf)[..i]
    {
      var obs := observations[i].0.(observedAt := asOf);
      var variant := catalog.Resolve(obs.ref);
      PrefixStep(Stamped(observations, asOf), i);
      assert PlainOf(pending + [Pending(obs, variant, observations[i].1)]) == PlainOf(pending) + [(obs, observations[i].1)];
      pending := pending + [Pending(obs, variant, observations[i].1)];
    }
    FullPrefix(Stamped(observations, asOf));
  }

  function CountErrors(fetches: seq<Fetch>): nat {
    if fetches == [] then 0 else CountErrors(fetches[..|fetches| - 1]) + if fetches[|fetches| - 1].Parsed? then 0 else 1
  }

  function CountFetched(fetches: seq<Fetch>): nat {
    if fetches == [] then 0
    else CountFetched(fetches[..|fetches| - 1])
         + if fetches[|fetches| - 1].Parsed? || fetches[|fetches| - 1].Unparsable? then 1 else 0
  }

  method ParseAll(fetches: seq<Fetch>, asOf: int, catalog: Catalog)
    returns (pending: seq<Pending>, blocked: bool, counters: Counters)
    requires catalog.Valid()
    modifies catalog
    ensures catalog.Valid() && Grown(old(catalog.variants), catalog.variants)
    ensures Resolved(pending, catalog.variants) && PlainOf(pending) == ParsedBy(fetches, asOf)
    ensures blocked <==> BlockPage in fetches
    ensures counters == Counters(|fetches|, CountFetched(fetches), |pending|, 0, 0, 0, CountErrors(fetches), |fetches|)
  {
    pending, blocked := [], false;
    counters := Counters(|fetches|, 0, 0, 0, 0, 0, 0, 0);
    for i := 0 to |fetches|
      invariant catalog.Valid() && Grown(old(catalog.variants), catalog.variants)
      invariant Resolved(pending, catalog.variants) && PlainOf(pending) == ParsedBy(fetches[..i], asOf)
      invariant blocked <==> BlockPage in fetches[..i]
      invariant counters == Counters(|fetches|, CountFetched(fetches[..i]), |pending|, 0, 0, 0, CountErrors(fetches[..i]), i)
    {
      assert fetches[..i + 1][..i] == fetches[..i];
      counters := counters.(captures := counters.captures + 1);
      match fetches[i] {
        case BlockPage =>
          blocked := true;
          counters := counters.(errors := counters.errors + 1);
        case Failed =>
          counters := counters.(errors := counters.errors + 1);
        case Unparsable =>
          counters := counters.(fetched := counters.fetched + 1, errors := counters.errors + 1);
        case Parsed(observations) =>
          pending := ResolveAll(observations, asOf, catalog, pending);
          counters := counters.(fetched := counters.fetched + 1, parsed := |pending|);
      }
    }
    FullPrefix(fetches);
  }

  // ----- The snapshot and the verdict -----------------------------------------------------------

  /** The number of variants with an open price in the store. */
  function OpenCatalogSize(rows: seq<Row>, store: Option<nat>): nat {
    |set i | 0 <= i < |rows| && rows[i].validUntil.None? && !rows[i].disputed && rows[i].lane.store == store :: rows[i].lane.variant|
  }

  /** The open prices (and units) of the lanes of the batch, by identifier; later observations overwrite. */
  function OpenPrices(rows: seq<Row>, store: Option<nat>, pending: seq<Pending>): map<string, real> {
    if pending == [] then map[]
    else
      var p := pending[|pending| - 1];
      var before := OpenPrices(rows, store, pending[..|pending| - 1]);
      var open := LatestOpen(rows, LaneOf(p, store));
      if open.Some? then before[p.obs.ref := rows[open.value].price.amount] else before
  }

  function OpenUnits(rows: seq<Row>, store: Option<nat>, pending: seq<Pending>): map<string, string> {
    if pending == [] then map[]
    else
      var p := pending[|pending| - 1];
      var before := OpenUnits(rows, store, pending[..|pending| - 1]);
      var open := LatestOpen(rows, LaneOf(p, store));
      if open.Some? && rows[open.value].unitCode.Some? then before[p.obs.ref := rows[open.value].unitCode.value] else before
  }

  function PriorOf(rows: seq<Row>, store: Option<nat>, pending: seq<Pending>): Prior {
    Prior(OpenCatalogSize(rows, store), OpenPrices(rows, store, pending), OpenUnits(rows, store, pending), "EUR")
  }

  method BuildPriorStats(history: History, store: Option<nat>, pending: seq<Pending>) returns (prior: Prior)
    ensures prior == PriorOf(history.rows, store, pending)
  {
    var prices: map<string, real>, units: map<string, string> := map[], map[];
    for i := 0 to |pending|
      invariant prices == OpenPrices(history.rows, store, pending[..i]) && units == OpenUnits(history.rows, store, pending[..i])
    {
      assert pending[..i + 1][..i] == pending[..i];
      var open := LatestOpen(history.rows, LaneOf(pending[i], store));
      if open.Some? {
        prices := prices[pending[i].obs.ref := history.rows[open.value].price.amount];
        if history.rows[open.value].unitCode.Some? {
          units := units[pending[i].obs.ref := history.rows[open.value].unitCode.value];
        }
      }
    }
    FullPrefix(pending);
    prior := Prior(OpenCatalogSize(history.rows, store), prices, units, "EUR");
  }

  /** A severe finding about the batch as a whole; one about an unnamed variant counts as such. */
  predicate CondemnsBatch(f: Finding) {
    Severe(f.severity) && (f.ref.None? || f.ref.value == "")
  }

  predicate Condemns(f: Finding, ref: string) {
    Severe(f.severity) && f.ref == Some(ref) && ref != ""
  }

  /** `_decide_quarantine`. */
  predicate Quarantined(findings: seq<Finding>, p: Pending) {
    || (exists f | f in findings :: CondemnsBatch(f))
    || (exists f | f in findings :: Condemns(f, p.obs.ref))
    || !p.valid
  }

  method QuarantineTargets(findings: seq<Finding>) returns (batch: bool, refs: set<string>)
    ensures batch <==> exists f | f in findings :: CondemnsBatch(f)
    ensures forall r: string :: r in refs <==> exists f | f in findings :: Condemns(f, r)
  {
    batch, refs := false, {};
    for i := 0 to |findings|
      invariant batch <==> exists j | 0 <= j < i :: CondemnsBatch(findings[j])
      invariant forall r: string :: r in refs <==> exists j | 0 <= j < i :: Condemns(findings[j], r)
    {
      var f := findings[i];
      if !Severe(f.severity) {
        continue;
      }
      if f.ref.Some? && f.ref.value != "" {
        refs := refs + {f.ref.value};
      } else {
        batch := true;
      }
    }
  }

  /** The label of the first severe finding that condemns the batch, or else the observation. */
  function Reason(findings: seq<Finding>, batch: bool, p: Pending): string {
    if findings == [] then if batch then "batch_quarantined" else "quarantined"
    else if batch && CondemnsBatch(findings[0]) then findings[0].kind
    else if !batch && Condemns(findings[0], p.obs.ref) then findings[0].kind
    else Reason(findings[1..], batch, p)
  }

  method DecideQuarantine(p: Pending, findings: seq<Finding>, batch: bool, refs: set<string>) returns (quarantined: bool, kind: string)
    requires batch <==> exists f | f in findings :: CondemnsBatch(f)
    requires forall r: string :: r in refs <==> exists f | f in findings :: Condemns(f, r)
    ensures quarantined <==> Quarantined(findings, p)
  {
    if batch {
      return true, Reason(findings, true, p);
    }
    if p.obs.ref in refs {
      return true, Reason(findings, false, p);
    }
    if !p.valid {
      return true, "validation_failed";
    }
    return false, "quarantined";
  }

  // ----- The pass -------------------------------------------------------------------------------

  /** The log after recording the observations that are not quarantined. */
  ghost function Logged(log: seq<Entry>, store: Option<nat>, pending: seq<Pending>, findings: seq<Finding>, asOf: int): seq<Entry> {
    if pending == [] then log
    else
      var p := pending[|pending| - 1];
      var before := Logged(log, store, pending[..|pending| - 1], findings, asOf);
      if Quarantined(findings, p) then before else before + [Entry(LaneOf(p, store), asOf, p.obs.price)]
  }

  ghost function CountQuarantined(pending: seq<Pending>, findings: seq<Finding>): (n: nat)
    ensures n <= |pending|
  {
    if pending == [] then 0
    else CountQuarantined(pending[..|pending| - 1], findings) + if Quarantined(findings, pending[|pending| - 1]) then 1 else 0
  }

  /** The rows after recording every observation. */
  ghost function RowsRecorded(rows: seq<Row>, store: Option<nat>, pending: seq<Pending>, findings: seq<Finding>, asOf: int): seq<Row> {
    if pending == [] then rows
    else
      var p := pending[|pending| - 1];
      Recorded(RowsRecorded(rows, store, pending[..|pending| - 1], findings, asOf), p.obs, LaneOf(p, store), asOf, Quarantined(findings, p))
  }

  /** One observation of the record loop. */
  method RecordOne(history: History, store: Option<nat>, p: Pending, findings: seq<Finding>, batch: bool, refs: set<string>,
                   asOf: int, counters0: Counters)
    returns (counters: Counters, id: nat)
    requires history.Valid()
    requires batch <==> exists f | f in findings :: CondemnsBatch(f)
    requires forall r: string :: r in refs <==> exists f | f in findings :: Condemns(f, r)
    modifies history
    ensures history.Valid()
    ensures old(history.Faithful()) && Timely(old(history.log), asOf) ==> history.Faithful() && Timely(history.log, asOf)
    ensures history.rows == Recorded(old(history.rows), p.obs, LaneOf(p, store), asOf, Quarantined(findings, p))
    ensures OnlyClosed(old(history.rows), history.rows)
    ensures Quarantined(findings, p) ==>
      && history.log == old(history.log)
      && counters == counters0.(quarantined := counters0.quarantined + 1)
      && |history.anomalies| == |old(history.anomalies)| + 1
    ensures !Quarantined(findings, p) ==>
      && history.log == old(history.log) + [Entry(LaneOf(p, store), asOf, p.obs.price)]
      && counters == counters0.(accepted := counters0.accepted + 1)
      && |history.anomalies| == |old(history.anomalies)|
  {
    TimelyStep(history.rows, history.log, p, store, asOf);
    var quarantined, kind := DecideQuarantine(p, findings, batch, refs);
    id := history.Record(p.obs, p.variant, store, asOf, quarantined, kind);
    if quarantined {
      counters := counters0.(quarantined := counters0.quarantined + 1);
    } else if p.valid {
      counters := counters0.(accepted := counters0.accepted + 1);
    } else {
      counters := counters0.(rejected := counters0.rejected + 1);
    }
  }

  /** When nothing that was accepted is later, an observation fits in and is not later either. */
  lemma {:induction false} TimelyStep(rows: seq<Row>, log: seq<Entry>, p: Pending, store: Option<nat>, asOf: int)
    ensures Refines(rows, log) && Timely(log, asOf) ==> Fits(rows, log, LaneOf(p, store), asOf, p.obs.price)
    ensures Timely(log, asOf) ==> Timely(log + [Entry(LaneOf(p, store), asOf, p.obs.price)], asOf)
  {
    if Refines(rows, log) && Timely(log, asOf) {
      TimelyFits(rows, log, LaneOf(p, store), asOf, p.obs.price);
    }
  }

  lemma {:induction false} ClosedTwice(a: seq<Row>, b: seq<Row>, c: seq<Row>)
    requires OnlyClosed(a, b) && OnlyClosed(b, c)
    ensures OnlyClosed(a, c)
  {
  }

  /** The counters after recording the first observations. */
  ghost predicate Counted(counters: Counters, before: Counters, pending: seq<Pending>, findings: seq<Finding>) {
    var q := CountQuarantined(pending, findings);
    counters == before.(accepted := |pending| - q, quarantined := q, rejected := 0)
  }

  lemma {:induction false} CountedStep(counters: Counters, before: Counters, pending: seq<Pending>, findings: seq<Finding>, p: Pending)
    requires Counted(counters, before, pending, findings)
    ensures Counted(if Quarantined(findings, p) then counters.(quarantined := counters.quarantined + 1)
                    else counters.(accepted := counters.accepted + 1),
                    before, pending + [p], findings)
  {
    assert (pending + [p])[..|pending|] == pending;
  }

  lemma {:induction false} LoggedStep(log: seq<Entry>, store: Option<nat>, pending: seq<Pending>, findings: seq<Finding>, asOf: int, p: Pending)
    ensures Logged(log, store, pending + [p], findings, asOf) ==
      Logged(log, store, pending, findings, asOf) +
      if Quarantined(findings, p) then [] else [Entry(LaneOf(p, store), asOf, p.obs.price)]
  {
    assert (pending + [p])[..|pending|] == pending;
  }

  lemma {:induction false} RowsStep(rows: seq<Row>, store: Option<nat>, pending: seq<Pending>, findings: seq<Finding>, asOf: int, p: Pending)
    ensures RowsRecorded(rows, store, pending + [p], findings, asOf) ==
      Recorded(RowsRecorded(rows, store, pending, findings, asOf), p.obs, LaneOf(p, store), asOf, Quarantined(findings, p))
  {
    assert (pending + [p])[..|pending|] == pending;
  }

  /** The record loop: each observation once. */
  method RecordAll(history: History, store: Option<nat>, pending: seq<Pending>, findings: seq<Finding>, asOf: int, counters0: Counters)
    returns (counters: Counters, recorded: seq<nat>)
    requires history.Valid()
    requires counters0.accepted == counters0.quarantined == counters0.rejected == 0
    modifies history
    ensures history.Valid() && OnlyClosed(old(history.rows), history.rows)
    ensures old(history.Faithful()) && Timely(old(history.log), asOf) ==> history.Faithful() && Timely(history.log, asOf)
    ensures history.log == Logged(old(history.log), store, pending, findings, asOf)
    ensures history.rows == RowsRecorded(old(history.rows), store, pending, findings, asOf)
    ensures |recorded| == |pending|
    ensures |history.anomalies| == |old(history.anomalies)| + counters.quarantined
    ensures Counted(counters, counters0, pending, findings)
  {
    counters, recorded := counters0, [];
    var batch, refs := QuarantineTargets(findings);
    for i := 0 to |pending|
      invariant history.Valid() && OnlyClosed(old(history.rows), history.rows)
      invariant old(history.Faithful()) && Timely(old(history.log), asOf) ==> history.Faithful() && Timely(history.log, asOf)
      invariant history.log == Logged(old(history.log), store, pending[..i], findings, asOf)
      invariant history.rows == RowsRecorded(old(history.rows), store, pending[..i], findings, asOf)
      invariant |recorded| == i
      invariant |history.anomalies| == |old(history.anomalies)| + counters.quarantined
      invariant Counted(counters, counters0, pending[..i], findings)
    {
      PrefixStep(pending, i);
      LoggedStep(old(history.log), store, pending[..i], findings, asOf, pending[i]);
      RowsStep(old(history.rows), store, pending[..i], findings, asOf, pending[i]);
      CountedStep(counters, counters0, pending[..i], findings, pending[i]);
      ghost var before := history.rows;
      var id;
      counters, id := RecordOne(history, store, pending[i], findings, batch, refs, asOf, counters);
      ClosedTwice(old(history.rows), before, history.rows);
      recorded := recorded + [id];
    }
    FullPrefix(pending);
  }

  /** A pass: what it starts from, what it fetches, and how that is resolved and judged. */
  datatype Run = Run(
    rows: seq<Row>, log: seq<Entry>, store: Option<nat>, fetches: seq<Fetch>, asOf: int,
    variants: map<string, nat>, pending: seq<Pending>, findings: seq<Finding>)

  ghost predicate IsRun(d: Detector, r: Run)
    requires d.extremeFactor > 0.0
  {
    && Resolved(r.pending, r.variants) && OneEach(r.variants)
    && PlainOf(r.pending) == ParsedBy(r.fetches, r.asOf)
    && r.findings == FindingsOf(d, BatchOf(r.pending, r.fetches), PriorOf(r.rows, r.store, r.pending))
  }

  /** No two identifiers share a variant. */
  ghost predicate OneEach(variants: map<string, nat>) {
    forall a, b | a in variants && b in variants && variants[a] == variants[b] :: a == b
  }

  /** What the pass leaves. */
  ghost function LogAfter(r: Run): seq<Entry> {
    Logged(r.log, r.store, r.pending, r.findings, r.asOf)
  }

  ghost function RowsAfter(r: Run): seq<Row> {
    RowsRecorded(r.rows, r.store, r.pending, r.findings, r.asOf)
  }

  /**
    One pass: every parsed observation is recorded once, as accepted or as quarantined.  A pass that is
    no older than the open rows keeps history and log in agreement.
   */
  method RunPriceSync(history: History, catalog: Catalog, store: Option<nat>, fetches: seq<Fetch>, detector: Detector, asOf: int)
    returns (counters: Counters, recorded: seq<nat>, ghost run: Run)
    requires history.Valid() && catalog.Valid() && detector.extremeFactor > 0.0
    modifies history, catalog
    ensures history.Valid() && catalog.Valid() && Grown(old(catalog.variants), catalog.variants)
    ensures IsRun(detector, run)
    ensures run.rows == old(history.rows) && run.log == old(history.log) && run.variants == catalog.variants
    ensures run.store == store && run.fetches == fetches && run.asOf == asOf
    ensures history.log == LogAfter(run) && history.rows == RowsAfter(run)
    ensures old(history.Faithful()) && Timely(old(history.log), asOf) ==> history.Faithful() && Timely(history.log, asOf)
    ensures OnlyClosed(old(history.rows), history.rows)
    ensures counters.parsed == |ParsedBy(fetches, asOf)| == |recorded|
    ensures counters.accepted + counters.quarantined == counters.parsed && counters.rejected == 0
    ensures |history.anomalies| == |old(history.anomalies)| + counters.quarantined
    ensures counters.discovered == counters.captures == |fetches| && counters.errors == CountErrors(fetches)
    ensures Condemned(detector, run) ==> counters.accepted == 0 && history.log == old(history.log)
    ensures BlockPage in fetches ==> counters.accepted == 0 && history.log == old(history.log)
  {
    var pending, blocked, counted := ParseAll(fetches, asOf, catalog);
    var prior := BuildPriorStats(history, store, pending);
    var batch := Batch(Observations(pending), blocked, fetches != [] && pending == [] && !blocked);
    var findings := Detect(detector, batch, prior);
    assert |PlainOf(pending)| == |pending|;
    run := Run(history.rows, history.log, store, fetches, asOf, catalog.variants, pending, findings);
    counters, recorded := RecordAll(history, store, pending, findings, asOf, counted);
    CondemnedAccepts(detector, run);
  }

  lemma {:induction false} CondemnedAccepts(d: Detector, r: Run)
    requires d.extremeFactor > 0.0 && IsRun(d, r)
    ensures BlockPage in r.fetches ==> Condemned(d, r)
    ensures Condemned(d, r) ==> LogAfter(r) == r.log && CountQuarantined(r.pending, r.findings) == |r.pending|
  {
    if Condemned(d, r) {
      CondemnedExactly(d, r);
      NothingAccepted(r.log, r.store, r.pending, r.findings, r.asOf);
    }
  }

  function Observations(pending: seq<Pending>): seq<Observation> {
    seq(|pending|, i requires 0 <= i < |pending| => pending[i].obs)
  }

  /** The batch that is judged. */
  ghost function BatchOf(pending: seq<Pending>, fetches: seq<Fetch>): Batch {
    Batch(Observations(pending), BlockPage in fetches, fetches != [] && pending == [] && BlockPage !in fetches)
  }

  /** The findings contain all those about the observations of the batch, against the open prices. */
  ghost predicate Judged(d: Detector, rows: seq<Row>, store: Option<nat>, pending: seq<Pending>, findings: seq<Finding>)
    requires d.extremeFactor > 0.0
  {
    forall i, f | 0 <= i < |pending| && f in AboutObservation(d, PriorOf(rows, store, pending), pending[i].obs) ::
      f in findings && Severe(f.severity) && f.ref == Some(pending[i].obs.ref)
  }

  /** `Detect` gives all findings. */
  lemma {:induction false} DetectedAll(d: Detector, prior: Prior, batch: Batch)
    requires d.extremeFactor > 0.0
    ensures AllFindings(d, prior, batch, FindingsOf(d, batch, prior))
  {
  }

  lemma {:induction false} RunIsJudged(d: Detector, r: Run)
    requires d.extremeFactor > 0.0 && IsRun(d, r)
    ensures Judged(d, r.rows, r.store, r.pending, r.findings)
  {
    var prior, observations := PriorOf(r.rows, r.store, r.pending), Observations(r.pending);
    forall i, f | 0 <= i < |r.pending| && f in AboutObservation(d, prior, r.pending[i].obs)
      ensures f in r.findings && Severe(f.severity) && f.ref == Some(r.pending[i].obs.ref)
    {
      FoundInBatch(d, prior, observations, i, f);
    }
  }

  /** Nothing is wrong with the observation itself. */
  predicate Clean(d: Detector, prior: Prior, o: Observation)
    requires d.extremeFactor > 0.0
  {
    AboutCurrency(prior, o) == [] && AboutObservation(d, prior, o) == []
  }

  /** The findings are those about the batch, the currencies and the observations. */
  ghost predicate AllFindings(d: Detector, prior: Prior, batch: Batch, findings: seq<Finding>)
    requires d.extremeFactor > 0.0
  {
    forall f ::
      f in findings <==>
        || f in OverBatch(d, batch, prior)
        || f in OverCurrencies(prior, batch.observations)
        || f in OverObservations(d, prior, batch.observations)
  }

  lemma {:induction false} BatchFindingsCondemn(d: Detector, prior: Prior, batch: Batch, f: Finding)
    requires f in OverBatch(d, batch, prior)
    ensures CondemnsBatch(f)
  {
    OverBatchIsAboutBatch(d, batch, prior, f);
  }

  /** An observation is accepted exactly when the batch, the observation and its validation are all clean. */
  lemma {:induction false} AcceptedExactly(d: Detector, r: Run, i: nat)
    requires d.extremeFactor > 0.0 && IsRun(d, r) && OnePerVariant(r.pending) && i < |r.pending|
    requires forall k | 0 <= k < |r.pending| :: r.pending[k].obs.ref != ""
    ensures var prior := PriorOf(r.rows, r.store, r.pending);
      !Quarantined(r.findings, r.pending[i]) <==>
        && OverBatch(d, BatchOf(r.pending, r.fetches), prior) == []
        && Clean(d, prior, r.pending[i].obs)
        && r.pending[i].valid
  {
    var prior, batch := PriorOf(r.rows, r.store, r.pending), BatchOf(r.pending, r.fetches);
    DetectedAll(d, prior, batch);
    if OverBatch(d, batch, prior) != [] {
      var f := OverBatch(d, batch, prior)[0];
      BatchFindingsCondemn(d, prior, batch, f);
      assert f in r.findings;
    } else if !Clean(d, prior, r.pending[i].obs) {
      UncleanIsCondemned(d, prior, batch, r.findings, i);
    } else {
      CleanIsSpared(d, prior, r.pending, batch, r.findings, i);
    }
  }

  lemma {:induction false} UncleanIsCondemned(d: Detector, prior: Prior, batch: Batch, findings: seq<Finding>, i: nat)
    requires d.extremeFactor > 0.0 && i < |batch.observations| && batch.observations[i].ref != ""
    requires AllFindings(d, prior, batch, findings) && !Clean(d, prior, batch.observations[i])
    ensures exists f | f in findings :: Condemns(f, batch.observations[i].ref)
  {
    var o := batch.observations[i];
    var f := (AboutCurrency(prior, o) + AboutObservation(d, prior, o))[0];
    if f in AboutObservation(d, prior, o) {
      FoundInBatch(d, prior, batch.observations, i, f);
    } else {
      CurrencyFound(prior, batch.observations, i);
    }
    assert Condemns(f, o.ref);
  }

  lemma {:induction false} CleanIsSpared(d: Detector, prior: Prior, pending: seq<Pending>, batch: Batch, findings: seq<Finding>, i: nat)
    requires d.extremeFactor > 0.0 && OnePerVariant(pending) && i < |pending| && batch.observations == Observations(pending)
    requires forall k | 0 <= k < |pending| :: pending[k].obs.ref != ""
    requires AllFindings(d, prior, batch, findings) && OverBatch(d, batch, prior) == []
    requires Clean(d, prior, pending[i].obs)
    ensures forall f | f in findings :: !CondemnsBatch(f) && !Condemns(f, pending[i].obs.ref)
  {
    forall f | f in findings ensures !CondemnsBatch(f) && !Condemns(f, pending[i].obs.ref) {
      assert f in OverCurrencies(prior, batch.observations) || f in OverObservations(d, prior, batch.observations);
      NamesAnother(d, prior, pending, batch, f, i);
    }
  }

  lemma {:induction false} NamesAnother(d: Detector, prior: Prior, pending: seq<Pending>, batch: Batch, f: Finding, i: nat)
    requires d.extremeFactor > 0.0 && OnePerVariant(pending) && i < |pending| && batch.observations == Observations(pending)
    requires forall k | 0 <= k < |pending| :: pending[k].obs.ref != ""
    requires f in OverCurrencies(prior, batch.observations) || f in OverObservations(d, prior, batch.observations)
    requires Clean(d, prior, pending[i].obs)
    ensures f.ref.Some? && f.ref.value != "" && f.ref.value != pending[i].obs.ref
  {
    FindingsNameTheirVariant(d, prior, batch.observations, f);
    var k :| 0 <= k < |batch.observations| && f.ref == Some(batch.observations[k].ref) && Makes(d, prior, batch.observations[k], f);
    assert pending[k].obs == batch.observations[k];
    assert k != i;
  }

  // ----- Verdicts from the inputs ---------------------------------------------------------------

  /** The price of the open row of a pending observation's lane, if there is one. */
  function OpenRowOf(rows: seq<Row>, store: Option<nat>, p: Pending): Option<Row> {
    var open := LatestOpen(rows, LaneOf(p, store));
    if open.Some? then Some(rows[open.value]) else None
  }

  /** The open price that an identifier is judged against: that of its last observation whose lane has an open row. */
  ghost predicate JudgedAgainst(rows: seq<Row>, store: Option<nat>, pending: seq<Pending>, ref: string, price: real) {
    exists k: nat | k < |pending| && pending[k].obs.ref == ref ::
      && OpenRowOf(rows, store, pending[k]).Some? && OpenRowOf(rows, store, pending[k]).value.price.amount == price
      && forall l | k < l < |pending| && pending[l].obs.ref == ref :: OpenRowOf(rows, store, pending[l]).None?
  }

  /** Likewise the unit: that of the last observation whose open row has one. */
  ghost predicate MeasuredIn(rows: seq<Row>, store: Option<nat>, pending: seq<Pending>, ref: string, unit: string) {
    exists k: nat | k < |pending| && pending[k].obs.ref == ref ::
      && HasUnit(OpenRowOf(rows, store, pending[k])) && OpenRowOf(rows, store, pending[k]).value.unitCode.value == unit
      && forall l | k < l < |pending| && pending[l].obs.ref == ref :: !HasUnit(OpenRowOf(rows, store, pending[l]))
  }

  predicate HasUnit(row: Option<Row>) {
    row.Some? && row.value.unitCode.Some?
  }

  lemma {:induction false} SnapshotPrices(rows: seq<Row>, store: Option<nat>, pending: seq<Pending>, ref: string, price: real)
    ensures ref in OpenPrices(rows, store, pending) && OpenPrices(rows, store, pending)[ref] == price <==>
      JudgedAgainst(rows, store, pending, ref, price)
  {
    if pending != [] {
      var rest, last := pending[..|pending| - 1], |pending| - 1;
      SnapshotPrices(rows, store, rest, ref, price);
      if pending[last].obs.ref == ref && OpenRowOf(rows, store, pending[last]).Some? {
        assert JudgedAgainst(rows, store, pending, ref, price) ==> OpenRowOf(rows, store, pending[last]).value.price.amount == price;
      } else {
        JudgedByRest(rows, store, pending, ref, price);
      }
    }
  }

  /** An observation of another identifier, or without an open row, changes nothing. */
  lemma {:induction false} JudgedByRest(rows: seq<Row>, store: Option<nat>, pending: seq<Pending>, ref: string, price: real)
    requires pending != []
    requires pending[|pending| - 1].obs.ref != ref || OpenRowOf(rows, store, pending[|pending| - 1]).None?
    ensures JudgedAgainst(rows, store, pending[..|pending| - 1], ref, price) <==> JudgedAgainst(rows, store, pending, ref, price)
  {
    var rest := pending[..|pending| - 1];
    if JudgedAgainst(rows, store, rest, ref, price) {
      var k: nat :| k < |rest| && rest[k].obs.ref == ref
        && OpenRowOf(rows, store, rest[k]).Some? && OpenRowOf(rows, store, rest[k]).value.price.amount == price
        && forall l | k < l < |rest| && rest[l].obs.ref == ref :: OpenRowOf(rows, store, rest[l]).None?;
      assert pending[k] == rest[k];
      forall l | k < l < |pending| && pending[l].obs.ref == ref ensures OpenRowOf(rows, store, pending[l]).None? {
        assert l < |rest| ==> pending[l] == rest[l];
      }
    }
    if JudgedAgainst(rows, store, pending, ref, price) {
      var k: nat :| k < |pending| && pending[k].obs.ref == ref
        && OpenRowOf(rows, store, pending[k]).Some? && OpenRowOf(rows, store, pending[k]).value.price.amount == price
        && forall l | k < l < |pending| && pending[l].obs.ref == ref :: OpenRowOf(rows, store, pending[l]).None?;
      assert rest[k] == pending[k];
    }
  }

  lemma {:induction false} SnapshotUnits(rows: seq<Row>, store: Option<nat>, pending: seq<Pending>, ref: string, unit: string)
    ensures ref in OpenUnits(rows, store, pending) && OpenUnits(rows, store, pending)[ref] == unit <==>
      MeasuredIn(rows, store, pending, ref, unit)
  {
    if pending != [] {
      var rest, last := pending[..|pending| - 1], |pending| - 1;
      SnapshotUnits(rows, store, rest, ref, unit);
      if pending[last].obs.ref == ref && HasUnit(OpenRowOf(rows, store, pending[last])) {
        assert MeasuredIn(rows, store, pending, ref, unit) ==> OpenRowOf(rows, store, pending[last]).value.unitCode.value == unit;
      } else {
        MeasuredByRest(rows, store, pending, ref, unit);
      }
    }
  }

  lemma {:induction false} MeasuredByRest(rows: seq<Row>, store: Option<nat>, pending: seq<Pending>, ref: string, unit: string)
    requires pending != []
    requires pending[|pending| - 1].obs.ref != ref || !HasUnit(OpenRowOf(rows, store, pending[|pending| - 1]))
    ensures MeasuredIn(rows, store, pending[..|pending| - 1], ref, unit) <==> MeasuredIn(rows, store, pending, ref, unit)
  {
    var rest := pending[..|pending| - 1];
    if MeasuredIn(rows, store, rest, ref, unit) {
      var k: nat :| k < |rest| && rest[k].obs.ref == ref
        && HasUnit(OpenRowOf(rows, store, rest[k])) && OpenRowOf(rows, store, rest[k]).value.unitCode.value == unit
        && forall l | k < l < |rest| && rest[l].obs.ref == ref :: !HasUnit(OpenRowOf(rows, store, rest[l]));
      assert pending[k] == rest[k];
      forall l | k < l < |pending| && pending[l].obs.ref == ref ensures !HasUnit(OpenRowOf(rows, store, pending[l])) {
        assert l < |rest| ==> pending[l] == rest[l];
      }
    }
    if MeasuredIn(rows, store, pending, ref, unit) {
      var k: nat :| k < |pending| && pending[k].obs.ref == ref
        && HasUnit(OpenRowOf(rows, store, pending[k])) && OpenRowOf(rows, store, pending[k]).value.unitCode.value == unit
        && forall l | k < l < |pending| && pending[l].obs.ref == ref :: !HasUnit(OpenRowOf(rows, store, pending[l]));
      assert rest[k] == pending[k];
    }
  }

  /** What is wrong with an observation: its amount, its currency, its distance from the open price, or its unit. */
  ghost predicate Suspect(d: Detector, r: Run, o: Observation) {
    || o.price.amount <= 0.0
    || (o.price.currency != "" && Upper(o.price.currency) != "EUR")
    || (exists was: real :: JudgedAgainst(r.rows, r.store, r.pending, o.ref, was) && was > 0.0 && Extreme(d, was, o.price.amount))
    || (o.unitCode.Some? && exists unit :: MeasuredIn(r.rows, r.store, r.pending, o.ref, unit) && unit != o.unitCode.value)
  }

  lemma {:induction false} UpperEuro()
    ensures Upper("EUR") == "EUR"
  {
    assert |Upper("EUR")| == 3 && Upper("EUR")[0] == 'E' && Upper("EUR")[1] == 'U' && Upper("EUR")[2] == 'R';
  }

  lemma {:induction false} SuspectExactly(d: Detector, r: Run, o: Observation)
    requires d.extremeFactor > 0.0
    ensures Suspect(d, r, o) <==> !Clean(d, PriorOf(r.rows, r.store, r.pending), o)
  {
    var prior := PriorOf(r.rows, r.store, r.pending);
    SuspiciousExactly(d, prior, o);
    UpperEuro();
    forall was: real
      ensures JudgedAgainst(r.rows, r.store, r.pending, o.ref, was) <==> o.ref in prior.prices && prior.prices[o.ref] == was
    {
      SnapshotPrices(r.rows, r.store, r.pending, o.ref, was);
    }
    forall unit
      ensures MeasuredIn(r.rows, r.store, r.pending, o.ref, unit) <==> o.ref in prior.units && prior.units[o.ref] == unit
    {
      SnapshotUnits(r.rows, r.store, r.pending, o.ref, unit);
    }
    assert o.ref in prior.prices ==> JudgedAgainst(r.rows, r.store, r.pending, o.ref, prior.prices[o.ref]);
    assert o.ref in prior.units ==> MeasuredIn(r.rows, r.store, r.pending, o.ref, prior.units[o.ref]);
    assert Suspect(d, r, o) <==> Suspicious(d, prior, o);
  }

  /**
    What condemns a whole batch: a block page, nothing parsed, a catalogue much smaller or larger than the one that
    is open, one amount almost everywhere, or a suspect observation without an identifier.
   */
  ghost predicate Condemned(d: Detector, r: Run) {
    var size, open := |r.pending|, OpenCatalogSize(r.rows, r.store);
    || BlockPage in r.fetches || size == 0
    || Shrunk(d, size, open) || Swollen(d, size, open)
    || AlmostUniform(d, Observations(r.pending))
    || exists i | 0 <= i < |r.pending| :: r.pending[i].obs.ref == "" && Suspect(d, r, r.pending[i].obs)
  }

  lemma {:induction false} AlarmingExactly(d: Detector, r: Run)
    requires d.extremeFactor > 0.0
    ensures OverBatch(d, BatchOf(r.pending, r.fetches), PriorOf(r.rows, r.store, r.pending)) != [] <==>
      || BlockPage in r.fetches || r.pending == []
      || Shrunk(d, |r.pending|, OpenCatalogSize(r.rows, r.store)) || Swollen(d, |r.pending|, OpenCatalogSize(r.rows, r.store))
      || AlmostUniform(d, Observations(r.pending))
  {
    OverBatchExactly(d, BatchOf(r.pending, r.fetches), PriorOf(r.rows, r.store, r.pending));
  }

  /** Findings about observations are those that some observation of the batch makes. */
  lemma {:induction false} MadeBySome(d: Detector, r: Run, f: Finding)
    requires d.extremeFactor > 0.0 && IsRun(d, r)
    ensures var prior := PriorOf(r.rows, r.store, r.pending);
      f in r.findings <==>
        || f in OverBatch(d, BatchOf(r.pending, r.fetches), prior)
        || exists i | 0 <= i < |r.pending| :: Makes(d, prior, r.pending[i].obs, f)
  {
    var prior, observations := PriorOf(r.rows, r.store, r.pending), Observations(r.pending);
    DetectedAll(d, prior, BatchOf(r.pending, r.fetches));
    if f in OverCurrencies(prior, observations) || f in OverObservations(d, prior, observations) {
      FindingsNameTheirVariant(d, prior, observations, f);
      var k :| 0 <= k < |observations| && f.ref == Some(observations[k].ref) && Makes(d, prior, observations[k], f);
      assert Makes(d, prior, r.pending[k].obs, f);
    }
    forall i | 0 <= i < |r.pending| && Makes(d, prior, r.pending[i].obs, f) ensures f in r.findings {
      MadeIsFound(d, prior, observations, i, f);
    }
  }

  lemma {:induction false} MadeIsFound(d: Detector, prior: Prior, observations: seq<Observation>, i: nat, f: Finding)
    requires d.extremeFactor > 0.0 && i < |observations| && Makes(d, prior, observations[i], f)
    ensures f in OverCurrencies(prior, observations) || f in OverObservations(d, prior, observations)
  {
    if f in AboutObservation(d, prior, observations[i]) {
      FoundInBatch(d, prior, observations, i, f);
    } else {
      CurrencyFound(prior, observations, i);
    }
  }

  /** An observation that is suspect makes a severe finding with its identifier, one that is not makes none. */
  lemma {:induction false} SuspectMakes(d: Detector, r: Run, o: Observation)
    requires d.extremeFactor > 0.0
    ensures var prior := PriorOf(r.rows, r.store, r.pending);
      && (Suspect(d, r, o) <==> exists f :: Makes(d, prior, o, f))
      && (forall f :: Makes(d, prior, o, f) ==> f.ref == Some(o.ref) && Severe(f.severity))
  {
    var prior := PriorOf(r.rows, r.store, r.pending);
    SuspectExactly(d, r, o);
    forall f | Makes(d, prior, o, f) ensures f.ref == Some(o.ref) && Severe(f.severity) {
      AboutIsSevere(d, prior, o, f);
    }
    if AboutCurrency(prior, o) != [] {
      assert Makes(d, prior, o, AboutCurrency(prior, o)[0]);
    } else if AboutObservation(d, prior, o) != [] {
      assert Makes(d, prior, o, AboutObservation(d, prior, o)[0]);
    }
  }

  /** Some finding condemns the batch exactly when the batch is condemned by what it is. */
  lemma {:induction false} CondemnedExactly(d: Detector, r: Run)
    requires d.extremeFactor > 0.0 && IsRun(d, r)
    ensures (exists f | f in r.findings :: CondemnsBatch(f)) <==> Condemned(d, r)
  {
    var prior, batch := PriorOf(r.rows, r.store, r.pending), BatchOf(r.pending, r.fetches);
    AlarmingExactly(d, r);
    if f :| f in r.findings && CondemnsBatch(f) {
      MadeBySome(d, r, f);
      if i :| 0 <= i < |r.pending| && Makes(d, prior, r.pending[i].obs, f) {
        SuspectMakes(d, r, r.pending[i].obs);
        assert r.pending[i].obs.ref == "" && Suspect(d, r, r.pending[i].obs);
      }
    }
    if Condemned(d, r) {
      if OverBatch(d, batch, prior) != [] {
        var f := OverBatch(d, batch, prior)[0];
        MadeBySome(d, r, f);
        BatchFindingsCondemn(d, prior, batch, f);
      } else {
        var i :| 0 <= i < |r.pending| && r.pending[i].obs.ref == "" && Suspect(d, r, r.pending[i].obs);
        SuspectMakes(d, r, r.pending[i].obs);
        var f :| Makes(d, prior, r.pending[i].obs, f);
        MadeBySome(d, r, f);
      }
    }
  }

  /** An observation is accepted exactly when the batch is not condemned, it is valid, and no observation of its identifier is suspect. */
  lemma {:induction false} VerdictExactly(d: Detector, r: Run, i: nat)
    requires d.extremeFactor > 0.0 && IsRun(d, r) && i < |r.pending|
    ensures !Quarantined(r.findings, r.pending[i]) <==>
      && !Condemned(d, r) && r.pending[i].valid
      && forall j | 0 <= j < |r.pending| && r.pending[j].obs.ref == r.pending[i].obs.ref :: !Suspect(d, r, r.pending[j].obs)
  {
    CondemnedExactly(d, r);
    NamedExactly(d, r, r.pending[i].obs.ref);
  }

  lemma {:induction false} NamedExactly(d: Detector, r: Run, ref: string)
    requires d.extremeFactor > 0.0 && IsRun(d, r)
    ensures (exists f | f in r.findings :: Condemns(f, ref)) <==>
      ref != "" && exists j | 0 <= j < |r.pending| :: r.pending[j].obs.ref == ref && Suspect(d, r, r.pending[j].obs)
  {
    var prior := PriorOf(r.rows, r.store, r.pending);
    if f :| f in r.findings && Condemns(f, ref) {
      MadeBySome(d, r, f);
      if f in OverBatch(d, BatchOf(r.pending, r.fetches), prior) {
        OverBatchIsAboutBatch(d, BatchOf(r.pending, r.fetches), prior, f);
      } else {
        var j :| 0 <= j < |r.pending| && Makes(d, prior, r.pending[j].obs, f);
        SuspectMakes(d, r, r.pending[j].obs);
      }
    }
    if j :| ref != "" && 0 <= j < |r.pending| && r.pending[j].obs.ref == ref && Suspect(d, r, r.pending[j].obs) {
      SuspectMakes(d, r, r.pending[j].obs);
      var f :| Makes(d, prior, r.pending[j].obs, f);
      MadeBySome(d, r, f);
      assert Condemns(f, ref);
    }
  }

  /** Of a condemned batch nothing is accepted. */
  lemma {:induction false} NothingAccepted(log: seq<Entry>, store: Option<nat>, pending: seq<Pending>, findings: seq<Finding>, asOf: int)
    requires exists f | f in findings :: CondemnsBatch(f)
    ensures Logged(log, store, pending, findings, asOf) == log && CountQuarantined(pending, findings) == |pending|
  {
    if pending != [] {
      NothingAccepted(log, store, pending[..|pending| - 1], findings, asOf);
    }
  }

  // ----- Price moves over whole runs ------------------------------------------------------------

  /** Every accepted amount is positive and near the amount accepted before it in its lane. */
  ghost predicate Tame(log: seq<Entry>) {
    log != [] ==>
      var rest, last := log[..|log| - 1], log[|log| - 1];
      && Tame(rest)
      && last.price.amount > 0.0
      && (LastRecorded(rest, last.lane).Some? ==> Near(LastRecorded(rest, last.lane).value.price.amount, last.price.amount))
  }

  /** At most one observation per variant in the pass. */
  ghost predicate OnePerVariant(pending: seq<Pending>) {
    forall i, j | 0 <= i < j < |pending| :: pending[i].obs.ref != pending[j].obs.ref
  }

  lemma {:induction false} TameLast(log: seq<Entry>, lane: Lane)
    requires Tame(log)
    ensures LastRecorded(log, lane).Some? ==> LastRecorded(log, lane).value.price.amount > 0.0
  {
    if log != [] {
      TameLast(log[..|log| - 1], lane);
    }
  }

  /** With one observation per variant, the snapshot holds the open price of each lane of the batch. */
  lemma {:induction false} SnapshotOf(rows: seq<Row>, store: Option<nat>, pending: seq<Pending>, i: nat)
    requires OnePerVariant(pending) && i < |pending|
    ensures var open := LatestOpen(rows, LaneOf(pending[i], store));
      var prices := OpenPrices(rows, store, pending);
      (pending[i].obs.ref in prices <==> open.Some?) && (open.Some? ==> prices[pending[i].obs.ref] == rows[open.value].price.amount)
  {
    var last := |pending| - 1;
    if i < last {
      SnapshotOf(rows, store, pending[..last], i);
    } else {
      NotInSnapshot(rows, store, pending[..last], pending[last].obs.ref);
    }
  }

  lemma {:induction false} NotInSnapshot(rows: seq<Row>, store: Option<nat>, pending: seq<Pending>, ref: string)
    requires forall i | 0 <= i < |pending| :: pending[i].obs.ref != ref
    ensures ref !in OpenPrices(rows, store, pending)
  {
    if pending != [] {
      NotInSnapshot(rows, store, pending[..|pending| - 1], ref);
    }
  }

  /** What the pass records before an observation is not in its lane. */
  lemma {:induction false} LaneUntouched(log: seq<Entry>, store: Option<nat>, pending: seq<Pending>, findings: seq<Finding>, asOf: int, lane: Lane)
    requires forall i | 0 <= i < |pending| :: LaneOf(pending[i], store) != lane
    ensures LastRecorded(Logged(log, store, pending, findings, asOf), lane) == LastRecorded(log, lane)
  {
    if pending != [] {
      var rest, p := pending[..|pending| - 1], pending[|pending| - 1];
      LaneUntouched(log, store, rest, findings, asOf, lane);
      LogStep(Logged(log, store, rest, findings, asOf), Entry(LaneOf(p, store), asOf, p.obs.price), lane, 0);
    }
  }

  /** An observation with a finding of its own is quarantined. */
  lemma {:induction false} SuspectIsQuarantined(d: Detector, rows: seq<Row>, store: Option<nat>, pending: seq<Pending>,
                                                findings: seq<Finding>, i: nat)
    requires d.extremeFactor > 0.0 && Judged(d, rows, store, pending, findings) && i < |pending|
    requires AboutObservation(d, PriorOf(rows, store, pending), pending[i].obs) != []
    ensures Quarantined(findings, pending[i])
  {
    var f := AboutObservation(d, PriorOf(rows, store, pending), pending[i].obs)[0];
    assert f in AboutObservation(d, PriorOf(rows, store, pending), pending[i].obs);
    assert CondemnsBatch(f) || Condemns(f, pending[i].obs.ref);
  }

  /** An accepted observation is positive and near the last accepted amount of its lane. */
  lemma {:induction false} AcceptedIsNear(rows: seq<Row>, log: seq<Entry>, store: Option<nat>, pending: seq<Pending>, findings: seq<Finding>, i: nat)
    requires CarriesLast(rows, log) && Tame(log) && OnePerVariant(pending)
    requires Judged(DEFAULT_DETECTOR, rows, store, pending, findings)
    requires i < |pending| && !Quarantined(findings, pending[i])
    ensures pending[i].obs.price.amount > 0.0
    ensures var last := LastRecorded(log, LaneOf(pending[i], store));
      last.Some? ==> Near(last.value.price.amount, pending[i].obs.price.amount)
  {
    var lane := LaneOf(pending[i], store);
    if AboutObservation(DEFAULT_DETECTOR, PriorOf(rows, store, pending), pending[i].obs) != [] {
      SuspectIsQuarantined(DEFAULT_DETECTOR, rows, store, pending, findings, i);
    } else {
      CleanIsNear(PriorOf(rows, store, pending), pending[i].obs);
    }
    SnapshotOf(rows, store, pending, i);
    assert CarriesIn(rows, log, lane);
    TameLast(log, lane);
  }

  /** Observations of different identifiers are in different lanes. */
  lemma {:induction false} LanesDiffer(store: Option<nat>, pending: seq<Pending>, variants: map<string, nat>, i: nat, j: nat)
    requires OnePerVariant(pending) && Resolved(pending, variants) && i < j < |pending|
    requires OneEach(variants)
    ensures LaneOf(pending[i], store) != LaneOf(pending[j], store)
  {
  }

  /** A pass with the default detector and one observation per variant keeps the price moves bounded. */
  lemma {:induction false} PassStaysTame(rows: seq<Row>, log: seq<Entry>, store: Option<nat>, pending: seq<Pending>, findings: seq<Finding>,
                                         asOf: int, variants: map<string, nat>, n: nat)
    requires CarriesLast(rows, log) && Tame(log) && OnePerVariant(pending) && Resolved(pending, variants)
    requires OneEach(variants)
    requires Judged(DEFAULT_DETECTOR, rows, store, pending, findings) && n <= |pending|
    ensures Tame(Logged(log, store, pending[..n], findings, asOf))
  {
    if n > 0 {
      PassStaysTame(rows, log, store, pending, findings, asOf, variants, n - 1);
      PrefixStep(pending, n - 1);
      forall i | 0 <= i < n - 1 ensures LaneOf(pending[i], store) != LaneOf(pending[n - 1], store) {
        LanesDiffer(store, pending, variants, i, n - 1);
      }
      RecordStaysTame(rows, log, store, pending, findings, asOf, n - 1);
    }
  }

  lemma {:induction false} RecordStaysTame(rows: seq<Row>, log: seq<Entry>, store: Option<nat>, pending: seq<Pending>,
                                           findings: seq<Finding>, asOf: int, i: nat)
    requires CarriesLast(rows, log) && Tame(log) && OnePerVariant(pending) && i < |pending|
    requires Judged(DEFAULT_DETECTOR, rows, store, pending, findings)
    requires forall k | 0 <= k < i :: LaneOf(pending[k], store) != LaneOf(pending[i], store)
    requires Tame(Logged(log, store, pending[..i], findings, asOf))
    ensures Tame(Logged(log, store, pending[..i] + [pending[i]], findings, asOf))
  {
    var p, before := pending[i], Logged(log, store, pending[..i], findings, asOf);
    LoggedStep(log, store, pending[..i], findings, asOf, p);
    if Quarantined(findings, p) {
      ConcatNothing(before);
    } else {
      AcceptedIsNear(rows, log, store, pending, findings, i);
      LaneUntouched(log, store, pending[..i], findings, asOf, LaneOf(p, store));
      TameStep(before, Entry(LaneOf(p, store), asOf, p.obs.price));
    }
  }

  lemma {:induction false} TameStep(log: seq<Entry>, e: Entry)
    requires Tame(log) && e.price.amount > 0.0
    requires LastRecorded(log, e.lane).Some? ==> Near(LastRecorded(log, e.lane).value.price.amount, e.price.amount)
    ensures Tame(log + [e])
  {
    assert (log + [e])[..|log|] == log;
  }

  /** In a tame log, two consecutive accepted amounts of a lane differ by a factor strictly between 1/3 and 3. */
  lemma {:induction false} TameMeansBounded(log: seq<Entry>, i: nat, j: nat)
    requires Tame(log) && i < j < |log| && log[i].lane == log[j].lane
    requires forall k | i < k < j :: log[k].lane != log[i].lane
    ensures log[i].price.amount > 0.0 && log[j].price.amount > 0.0
    ensures 1.0 / 3.0 < log[j].price.amount / log[i].price.amount < 3.0
  {
    if j < |log| - 1 {
      TameMeansBounded(log[..|log| - 1], i, j);
    } else {
      var rest := log[..j];
      LastIs(rest, i, log[j].lane);
      TameLast(rest, log[j].lane);
      RatioBounds(log[i].price.amount, log[j].price.amount);
    }
  }

  lemma {:induction false} LastIs(log: seq<Entry>, i: nat, lane: Lane)
    requires i < |log| && log[i].lane == lane && forall k | i < k < |log| :: log[k].lane != lane
    ensures LastRecorded(log, lane) == Some(log[i])
  {
    if i < |log| - 1 {
      LastIs(log[..|log| - 1], i, lane);
    }
  }

  /** Any number of passes of the default detector over one retailer, each with its store and instant. */
  datatype Pass = Pass(store: Option<nat>, fetches: seq<Fetch>, asOf: int)

  ghost predicate InOrder(passes: seq<Pass>) {
    forall i, j | 0 <= i < j < |passes| :: passes[i].asOf <= passes[j].asOf
  }

  ghost predicate DistinctRefs(parsed: seq<(Observation, bool)>) {
    forall i, j | 0 <= i < j < |parsed| :: parsed[i].0.ref != parsed[j].0.ref
  }

  lemma {:induction false} DistinctIsOnePerVariant(pending: seq<Pending>, parsed: seq<(Observation, bool)>)
    requires PlainOf(pending) == parsed && DistinctRefs(parsed)
    ensures OnePerVariant(pending)
  {
    forall i, j | 0 <= i < j < |pending| ensures pending[i].obs.ref != pending[j].obs.ref {
      assert parsed[i].0 == pending[i].obs && parsed[j].0 == pending[j].obs;
    }
  }

  /** One run for each pass, each from what the one before left; the first from nothing. */
  ghost predicate IsTrace(passes: seq<Pass>, runs: seq<Run>) {
    && |runs| == |passes|
    && (forall k | 0 <= k < |runs| :: IsRun(DEFAULT_DETECTOR, runs[k]) && RunsPass(passes[k], runs[k]))
    && (runs != [] ==> runs[0].rows == [] && runs[0].log == [])
    && (forall k | 0 < k < |runs| :: Follows(runs[k - 1], runs[k]))
  }

  ghost predicate RunsPass(pass: Pass, r: Run) {
    r.store == pass.store && r.fetches == pass.fetches && r.asOf == pass.asOf
  }

  ghost predicate Follows(before: Run, after: Run) {
    after.rows == RowsAfter(before) && after.log == LogAfter(before) && Grown(before.variants, after.variants)
  }

  ghost function FinalLog(runs: seq<Run>): seq<Entry> {
    if runs == [] then [] else LogAfter(runs[|runs| - 1])
  }

  ghost function FinalRows(runs: seq<Run>): seq<Row> {
    if runs == [] then [] else RowsAfter(runs[|runs| - 1])
  }

  ghost function FinalVariants(runs: seq<Run>): map<string, nat> {
    if runs == [] then map[] else runs[|runs| - 1].variants
  }

  lemma {:induction false} TraceStep(passes: seq<Pass>, runs: seq<Run>, pass: Pass, r: Run)
    requires IsTrace(passes, runs) && IsRun(DEFAULT_DETECTOR, r) && RunsPass(pass, r)
    requires r.rows == FinalRows(runs) && r.log == FinalLog(runs) && Grown(FinalVariants(runs), r.variants)
    ensures IsTrace(passes + [pass], runs + [r])
  {
    TraceRuns(passes, runs, pass, r);
    var runs' := runs + [r];
    forall k | 0 < k < |runs'| ensures Follows(runs'[k - 1], runs'[k]) {
      if k < |runs| {
        assert Follows(runs[k - 1], runs[k]);
      }
    }
  }

  lemma {:induction false} TraceRuns(passes: seq<Pass>, runs: seq<Run>, pass: Pass, r: Run)
    requires |runs| == |passes| && IsRun(DEFAULT_DETECTOR, r) && RunsPass(pass, r)
    requires forall k | 0 <= k < |runs| :: IsRun(DEFAULT_DETECTOR, runs[k]) && RunsPass(passes[k], runs[k])
    ensures forall k | 0 <= k < |runs + [r]| :: IsRun(DEFAULT_DETECTOR, (runs + [r])[k]) && RunsPass((passes + [pass])[k], (runs + [r])[k])
  {
    var passes', runs' := passes + [pass], runs + [r];
    forall k | 0 <= k < |runs'| ensures IsRun(DEFAULT_DETECTOR, runs'[k]) && RunsPass(passes'[k], runs'[k]) {
      if k < |runs| {
        assert runs'[k] == runs[k] && passes'[k] == passes[k];
      }
    }
  }

  lemma {:induction false} RunStaysTame(r: Run)
    requires IsRun(DEFAULT_DETECTOR, r) && CarriesLast(r.rows, r.log) && Tame(r.log)
    requires DistinctRefs(ParsedBy(r.fetches, r.asOf))
    ensures Tame(LogAfter(r))
  {
    RunIsJudged(DEFAULT_DETECTOR, r);
    DistinctIsOnePerVariant(r.pending, ParsedBy(r.fetches, r.asOf));
    PassStaysTame(r.rows, r.log, r.store, r.pending, r.findings, r.asOf, r.variants, |r.pending|);
    FullPrefix(r.pending);
  }

  ghost predicate AllDistinct(passes: seq<Pass>) {
    forall i | 0 <= i < |passes| :: DistinctRefs(ParsedBy(passes[i].fetches, passes[i].asOf))
  }

  /** Nothing is newer than any of the passes from `k` on. */
  ghost predicate TimelyFrom(passes: seq<Pass>, k: nat, log: seq<Entry>) {
    forall j | k <= j < |passes| :: Timely(log, passes[j].asOf)
  }

  /** The state after the first `k` passes. */
  ghost predicate After(passes: seq<Pass>, k: nat, runs: seq<Run>, rows: seq<Row>, log: seq<Entry>, variants: map<string, nat>)
    requires k <= |passes|
  {
    && IsTrace(passes[..k], runs)
    && rows == FinalRows(runs) && log == FinalLog(runs) && variants == FinalVariants(runs)
    && (InOrder(passes) ==> Refines(rows, log) && TimelyFrom(passes, k, log))
    && (AllDistinct(passes) ==> Tame(log))
  }

  lemma {:induction false} AfterStep(passes: seq<Pass>, k: nat, runs: seq<Run>, r: Run, rows: seq<Row>, log: seq<Entry>)
    requires k < |passes| && After(passes, k, runs, r.rows, r.log, FinalVariants(runs))
    requires IsRun(DEFAULT_DETECTOR, r) && RunsPass(passes[k], r) && Grown(FinalVariants(runs), r.variants)
    requires log == LogAfter(r) && rows == RowsAfter(r)
    requires CarriesLast(r.rows, r.log)
    requires Refines(r.rows, r.log) && Timely(r.log, r.asOf) ==> Refines(rows, log) && Timely(log, r.asOf)
    ensures After(passes, k + 1, runs + [r], rows, log, r.variants)
  {
    TraceStep(passes[..k], runs, passes[k], r);
    PrefixStep(passes, k);
    if InOrder(passes) {
      LaterIsTimely(passes, k, log);
    }
    if AllDistinct(passes) {
      RunStaysTame(r);
    }
  }

  /**
    Any number of passes: each runs on what the one before left.  If none is older than the one before, history
    and log agree; if none has an identifier twice, the accepted amounts are positive and, in the order in which
    they were accepted, move by less than a factor of three.
   */
  method RunPasses(passes: seq<Pass>) returns (history: History, ghost runs: seq<Run>)
    ensures history.Valid() && IsTrace(passes, runs)
    ensures history.log == FinalLog(runs) && history.rows == FinalRows(runs)
    ensures InOrder(passes) ==> history.Faithful()
    ensures AllDistinct(passes) ==> Tame(history.log)
  {
    history := new History();
    var catalog := new Catalog();
    runs := [];
    for k := 0 to |passes|
      invariant fresh(history) && fresh(catalog) && history.Valid() && catalog.Valid()
      invariant After(passes, k, runs, history.rows, history.log, catalog.variants)
    {
      var counters, recorded;
      ghost var r;
      counters, recorded, r := RunPriceSync(history, catalog, passes[k].store, passes[k].fetches, DEFAULT_DETECTOR, passes[k].asOf);
      AfterStep(passes, k, runs, r, history.rows, history.log);
      runs := runs + [r];
    }
    FullPrefix(passes);
  }

  /** What is timely for a pass is timely for the later ones. */
  lemma {:induction false} LaterIsTimely(passes: seq<Pass>, k: nat, log: seq<Entry>)
    requires k < |passes|
    ensures InOrder(passes) && Timely(log, passes[k].asOf) ==> TimelyFrom(passes, k, log)
  {
    if InOrder(passes) && Timely(log, passes[k].asOf) {
      forall j | k <= j < |passes| ensures Timely(log, passes[j].asOf) {
        assert passes[k].asOf <= passes[j].asOf;
      }
    }
  }
}
