/** Anomaly detection over a freshly parsed batch of prices, against the last good snapshot. */
module PriceAnomalies {
  import opened Wrappers
  import opened Collections
  import opened PriceHistory

  datatype Severity = Low | Medium | High | Critical

  /** A finding about one variant, or about the whole batch. */
  datatype Finding = Finding(kind: string, severity: Severity, ref: Option<string>)

  datatype Detector = Detector(
    dropThreshold: real, growthFactor: real, extremeFactor: real, x100Tolerance: real,
    samePriceMin: nat, samePriceFraction: real)

  const DEFAULT_DETECTOR := Detector(0.9, 10.0, 3.0, 0.05, 5, 0.95)

  datatype Prior = Prior(catalogSize: nat, prices: map<string, real>, units: map<string, string>, currency: string)

  datatype Batch = Batch(observations: seq<Observation>, isBlockPage: bool, parserReturnedZero: bool)

  predicate Severe(severity: Severity) {
    severity.High? || severity.Critical?
  }

  function UpperChar(c: char): char {
    if 'a' <= c <= 'z' then 'A' + (c - 'a') else c
  }

  function Upper(s: string): string {
    seq(|s|, i requires 0 <= i < |s| => UpperChar(s[i]))
  }

  function Abs(x: real): real {
    if x < 0.0 then -x else x
  }

  // ----- One observation ------------------------------------------------------------------------

  /** The finding about a move from `was` to `new`, if any. */
  function PriceMove(d: Detector, ref: string, was: real, now: real): seq<Finding>
    requires was > 0.0 && d.extremeFactor > 0.0
  {
    var ratio := now / was;
    if Abs(ratio - 100.0) <= 100.0 * d.x100Tolerance then [Finding("price_spike", Critical, Some(ref))]
    else if Abs(ratio - 0.01) <= 0.01 * d.x100Tolerance then [Finding("price_drop", Critical, Some(ref))]
    else if ratio >= d.extremeFactor then [Finding("price_spike", High, Some(ref))]
    else if ratio <= 1.0 / d.extremeFactor then [Finding("price_drop", High, Some(ref))]
    else []
  }

  function AboutObservation(d: Detector, prior: Prior, o: Observation): seq<Finding>
    requires d.extremeFactor > 0.0
  {
    (if o.price.amount <= 0.0 then [Finding("zero_or_negative", Critical, Some(o.ref))] else [])
    + (if o.ref in prior.prices && prior.prices[o.ref] > 0.0 then PriceMove(d, o.ref, prior.prices[o.ref], o.price.amount) else [])
    + (if o.ref in prior.units && o.unitCode.Some? && o.unitCode.value != prior.units[o.ref]
       then [Finding("unit_mismatch", High, Some(o.ref))] else [])
  }

  function AboutCurrency(prior: Prior, o: Observation): seq<Finding> {
    if o.price.currency != "" && Upper(o.price.currency) != Upper(prior.currency)
    then [Finding("currency_mismatch", High, Some(o.ref))] else []
  }

  /** Two positive prices differ by a factor below three. */
  predicate Near(was: real, now: real) {
    now < 3.0 * was && was < 3.0 * now
  }

  lemma {:induction false} RatioBounds(was: real, now: real)
    requires was > 0.0
    ensures now / was < 3.0 <==> now < 3.0 * was
    ensures now / was > 1.0 / 3.0 <==> was < 3.0 * now
  {
    var r := now / was;
    assert r * was == now;
  }

  /** With the default detector, an observation draws no finding only when it is positive and near the prior price. */
  lemma {:induction false} CleanIsNear(prior: Prior, o: Observation)
    requires AboutObservation(DEFAULT_DETECTOR, prior, o) == []
    ensures o.price.amount > 0.0
    ensures o.ref in prior.prices && prior.prices[o.ref] > 0.0 ==> Near(prior.prices[o.ref], o.price.amount)
  {
    if o.ref in prior.prices && prior.prices[o.ref] > 0.0 {
      RatioBounds(prior.prices[o.ref], o.price.amount);
    }
  }

  /** A price that is positive and near the prior one draws no price finding: the slips by 100 are extreme too. */
  lemma {:induction false} NearIsClean(ref: string, was: real, now: real)
    requires was > 0.0
    ensures PriceMove(DEFAULT_DETECTOR, ref, was, now) == [] <==> Near(was, now)
  {
    RatioBounds(was, now);
  }

  // ----- The batch ------------------------------------------------------------------------------

  function OverObservations(d: Detector, prior: Prior, observations: seq<Observation>): seq<Finding>
    requires d.extremeFactor > 0.0
  {
    if observations == [] then []
    else
      OverObservations(d, prior, observations[..|observations| - 1])
      + AboutObservation(d, prior, observations[|observations| - 1])
  }

  function OverCurrencies(prior: Prior, observations: seq<Observation>): seq<Finding> {
    if observations == [] then []
    else OverCurrencies(prior, observations[..|observations| - 1]) + AboutCurrency(prior, observations[|observations| - 1])
  }

  function CountAmount(observations: seq<Observation>, amount: real): nat {
    if observations == [] then 0
    else CountAmount(observations[..|observations| - 1], amount) + if observations[|observations| - 1].price.amount == amount then 1 else 0
  }

  /** One amount makes up almost the whole batch. */
  predicate UniformPrices(d: Detector, observations: seq<Observation>) {
    && 0 < |observations| && d.samePriceMin <= |observations|
    && exists i | 0 <= i < |observations| ::
         CountAmount(observations, observations[i].price.amount) as real / |observations| as real >= d.samePriceFraction
  }

  function CatalogSize(d: Detector, size: nat, prior: Prior): seq<Finding> {
    if prior.catalogSize == 0 then []
    else
      (if size > 0 && (prior.catalogSize - size) as real / prior.catalogSize as real >= d.dropThreshold
       then [Finding("catalog_drop", Critical, None)] else [])
      + (if size as real > prior.catalogSize as real * d.growthFactor then [Finding("catalog_growth", High, None)] else [])
  }

  /** The findings about the batch as a whole, in the order in which they are made before those on observations. */
  function OverBatch(d: Detector, batch: Batch, prior: Prior): seq<Finding> {
    (if batch.isBlockPage then [Finding("block_page", Critical, None)] else [])
    + (if batch.parserReturnedZero then [Finding("parser_returned_zero", High, None)] else [])
    + (if batch.observations == [] && !batch.parserReturnedZero then [Finding("empty_catalog", High, None)] else [])
    + CatalogSize(d, |batch.observations|, prior)
    + (if UniformPrices(d, batch.observations) then [Finding("all_same_price", High, None)] else [])
  }

  /** A finding about the batch as a whole. */
  predicate AboutBatch(f: Finding) {
    Severe(f.severity) && f.ref.None?
  }

  /** Every finding about the batch is severe and names no variant. */
  lemma {:induction false} OverBatchIsAboutBatch(d: Detector, batch: Batch, prior: Prior, f: Finding)
    requires f in OverBatch(d, batch, prior)
    ensures AboutBatch(f)
  {
    var block := if batch.isBlockPage then [Finding("block_page", Critical, None)] else [];
    var zero := if batch.parserReturnedZero then [Finding("parser_returned_zero", High, None)] else [];
    var empty := if batch.observations == [] && !batch.parserReturnedZero then [Finding("empty_catalog", High, None)] else [];
    var size := CatalogSize(d, |batch.observations|, prior);
    var same := if UniformPrices(d, batch.observations) then [Finding("all_same_price", High, None)] else [];
    assert OverBatch(d, batch, prior) == block + zero + empty + size + same;
    if f in size {
      CatalogSizeIsAboutBatch(d, |batch.observations|, prior, f);
    } else {
      assert f in block || f in zero || f in empty || f in same;
    }
  }

  lemma {:induction false} CatalogSizeIsAboutBatch(d: Detector, size: nat, prior: Prior, f: Finding)
    requires f in CatalogSize(d, size, prior)
    ensures AboutBatch(f)
  {
  }

  /** All the findings about a batch, in the order in which they are made. */
  function FindingsOf(d: Detector, batch: Batch, prior: Prior): seq<Finding>
    requires d.extremeFactor > 0.0
  {
    OverBatch(d, batch, prior) + OverCurrencies(prior, batch.observations) + OverObservations(d, prior, batch.observations)
  }

  // ----- What is wrong, without the findings ----------------------------------------------------

  function Amounts(observations: seq<Observation>): seq<real> {
    seq(|observations|, i requires 0 <= i < |observations| => observations[i].price.amount)
  }

  /** So much of the catalogue is missing. */
  predicate Shrunk(d: Detector, size: nat, before: nat) {
    before > 0 && size > 0 && (before - size) as real >= d.dropThreshold * before as real
  }

  /** There is so many times more than before. */
  predicate Swollen(d: Detector, size: nat, before: nat) {
    before > 0 && size as real > d.growthFactor * before as real
  }

  /** Enough observations, and one amount makes up the given fraction of them. */
  ghost predicate AlmostUniform(d: Detector, observations: seq<Observation>) {
    && 0 < |observations| && d.samePriceMin <= |observations|
    && exists x | x in Amounts(observations) :: Prevails(d, observations, x)
  }

  /** The amount makes up the given fraction of the observations. */
  predicate Prevails(d: Detector, observations: seq<Observation>, x: real) {
    multiset(Amounts(observations))[x] as real >= d.samePriceFraction * |observations| as real
  }

  ghost predicate Alarming(d: Detector, batch: Batch, prior: Prior) {
    || batch.isBlockPage || batch.parserReturnedZero || batch.observations == []
    || Shrunk(d, |batch.observations|, prior.catalogSize) || Swollen(d, |batch.observations|, prior.catalogSize)
    || AlmostUniform(d, batch.observations)
  }

  lemma {:induction false} AtLeastFraction(part: real, whole: real, fraction: real)
    requires whole > 0.0
    ensures part / whole >= fraction <==> part >= fraction * whole
  {
    var r := part / whole;
    assert r * whole == part;
    assert (r - fraction) * whole == part - fraction * whole;
  }

  lemma {:induction false} CountIsMultiplicity(observations: seq<Observation>, amount: real)
    ensures CountAmount(observations, amount) == multiset(Amounts(observations))[amount]
  {
    if observations != [] {
      var rest, last := observations[..|observations| - 1], observations[|observations| - 1];
      CountIsMultiplicity(rest, amount);
      assert Amounts(observations) == Amounts(rest) + [last.price.amount];
    }
  }

  lemma {:induction false} PrevailsExactly(d: Detector, observations: seq<Observation>, x: real)
    requires observations != []
    ensures CountAmount(observations, x) as real / |observations| as real >= d.samePriceFraction <==> Prevails(d, observations, x)
  {
    CountIsMultiplicity(observations, x);
    AtLeastFraction(CountAmount(observations, x) as real, |observations| as real, d.samePriceFraction);
  }

  lemma {:induction false} UniformExactly(d: Detector, observations: seq<Observation>)
    ensures UniformPrices(d, observations) <==> AlmostUniform(d, observations)
  {
    var amounts := Amounts(observations);
    forall i | 0 <= i < |observations|
      ensures amounts[i] == observations[i].price.amount && amounts[i] in amounts
      ensures CountAmount(observations, amounts[i]) as real / |observations| as real >= d.samePriceFraction <==>
        Prevails(d, observations, amounts[i])
    {
      PrevailsExactly(d, observations, amounts[i]);
    }
  }

  lemma {:induction false} CatalogSizeExactly(d: Detector, size: nat, prior: Prior)
    ensures CatalogSize(d, size, prior) != [] <==> Shrunk(d, size, prior.catalogSize) || Swollen(d, size, prior.catalogSize)
  {
    if prior.catalogSize > 0 {
      AtLeastFraction((prior.catalogSize - size) as real, prior.catalogSize as real, d.dropThreshold);
    }
  }

  /** There is a finding about the batch exactly when something is wrong with it. */
  lemma {:induction false} OverBatchExactly(d: Detector, batch: Batch, prior: Prior)
    ensures OverBatch(d, batch, prior) != [] <==> Alarming(d, batch, prior)
  {
    UniformExactly(d, batch.observations);
    CatalogSizeExactly(d, |batch.observations|, prior);
  }

  /** The price is the given number of times the former one, up to the slack. */
  predicate SlipsBy(was: real, now: real, target: real, slack: real) {
    Abs(now - target * was) <= slack * was
  }

  predicate Multiplied(was: real, now: real, factor: real) {
    now >= factor * was
  }

  predicate Divided(was: real, now: real, factor: real) {
    now * factor <= was
  }

  /** The move is by the extreme factor or more, either way, or a slip by a hundred. */
  predicate Extreme(d: Detector, was: real, now: real) {
    || Multiplied(was, now, d.extremeFactor) || Divided(was, now, d.extremeFactor)
    || SlipsBy(was, now, 100.0, 100.0 * d.x100Tolerance)
    || SlipsBy(was, now, 0.01, 0.01 * d.x100Tolerance)
  }

  lemma {:induction false} WithinFraction(was: real, now: real, target: real, slack: real)
    requires was > 0.0
    ensures Abs(now / was - target) <= slack <==> SlipsBy(was, now, target, slack)
  {
    var r := now / was;
    assert r * was == now;
    assert now - target * was == (r - target) * was;
    if r >= target {
      assert (slack - (r - target)) * was == slack * was - (now - target * was);
    } else {
      assert (slack - (target - r)) * was == slack * was - (target * was - now);
    }
  }

  lemma {:induction false} AtMostReciprocal(was: real, now: real, factor: real)
    requires was > 0.0 && factor > 0.0
    ensures now / was <= 1.0 / factor <==> Divided(was, now, factor)
  {
    var p := was - now * factor;
    DividedIs(was, now, factor, p);
    ReciprocalSign(was, now, factor, p);
  }

  lemma {:induction false} DividedIs(was: real, now: real, factor: real, p: real)
    requires p == was - now * factor
    ensures p >= 0.0 <==> Divided(was, now, factor)
  {
  }

  lemma {:induction false} ReciprocalSign(was: real, now: real, factor: real, p: real)
    requires was > 0.0 && factor > 0.0 && p == was - now * factor
    ensures now / was <= 1.0 / factor <==> p >= 0.0
  {
    var r, s := now / was, 1.0 / factor;
    var x, y := s - r, was * factor;
    assert y > 0.0 && r * was == now && s * factor == 1.0;
    assert x * y == p by { Expand(was, now, factor, r, s); }
    SameSign(x, y, p);
  }

  lemma {:induction false} Expand(was: real, now: real, factor: real, r: real, s: real)
    requires r * was == now && s * factor == 1.0
    ensures (s - r) * (was * factor) == was - now * factor
  {
    assert s * (was * factor) == (s * factor) * was && r * (was * factor) == (r * was) * factor;
    assert (s - r) * (was * factor) == s * (was * factor) - r * (was * factor);
  }

  lemma {:induction false} SameSign(x: real, y: real, product: real)
    requires y > 0.0 && x * y == product
    ensures x >= 0.0 <==> product >= 0.0
  {
  }

  lemma {:induction false} AtLeastFactor(was: real, now: real, factor: real)
    requires was > 0.0
    ensures now / was >= factor <==> Multiplied(was, now, factor)
  {
    AtLeastFraction(now, was, factor);
  }

  predicate Flagged(d: Detector, ratio: real)
    requires d.extremeFactor > 0.0
  {
    || ratio >= d.extremeFactor || ratio <= 1.0 / d.extremeFactor
    || Abs(ratio - 100.0) <= 100.0 * d.x100Tolerance || Abs(ratio - 0.01) <= 0.01 * d.x100Tolerance
  }

  lemma {:induction false} MoveIsFlagged(d: Detector, ref: string, was: real, now: real)
    requires was > 0.0 && d.extremeFactor > 0.0
    ensures PriceMove(d, ref, was, now) != [] <==> Flagged(d, now / was)
  {
  }

  lemma {:induction false} FlaggedExactly(d: Detector, was: real, now: real)
    requires was > 0.0 && d.extremeFactor > 0.0
    ensures Flagged(d, now / was) <==> Extreme(d, was, now)
  {
    AtLeastFactor(was, now, d.extremeFactor);
    AtMostReciprocal(was, now, d.extremeFactor);
    WithinFraction(was, now, 100.0, 100.0 * d.x100Tolerance);
    WithinFraction(was, now, 0.01, 0.01 * d.x100Tolerance);
  }

  lemma {:induction false} MoveExactly(d: Detector, ref: string, was: real, now: real)
    requires was > 0.0 && d.extremeFactor > 0.0
    ensures PriceMove(d, ref, was, now) != [] <==> Extreme(d, was, now)
  {
    MoveIsFlagged(d, ref, was, now);
    FlaggedExactly(d, was, now);
  }

  /** Something is wrong with the observation itself. */
  predicate Suspicious(d: Detector, prior: Prior, o: Observation) {
    || o.price.amount <= 0.0
    || (o.price.currency != "" && Upper(o.price.currency) != Upper(prior.currency))
    || (o.ref in prior.prices && prior.prices[o.ref] > 0.0 && Extreme(d, prior.prices[o.ref], o.price.amount))
    || (o.ref in prior.units && o.unitCode.Some? && o.unitCode.value != prior.units[o.ref])
  }

  lemma {:induction false} SuspiciousExactly(d: Detector, prior: Prior, o: Observation)
    requires d.extremeFactor > 0.0
    ensures AboutCurrency(prior, o) != [] || AboutObservation(d, prior, o) != [] <==> Suspicious(d, prior, o)
  {
    if o.ref in prior.prices && prior.prices[o.ref] > 0.0 {
      MoveExactly(d, o.ref, prior.prices[o.ref], o.price.amount);
    }
  }

  /** With the default detector: a tenth or less of the catalogue, more than ten times as much, or 95 % of five or more at one amount. */
  lemma {:induction false} DefaultAlarms(size: nat, before: nat, observations: seq<Observation>)
    ensures Shrunk(DEFAULT_DETECTOR, size, before) <==> 0 < 10 * size <= before
    ensures Swollen(DEFAULT_DETECTOR, size, before) <==> 0 < 10 * before < size
    ensures AlmostUniform(DEFAULT_DETECTOR, observations) <==>
      5 <= |observations| && exists x | x in Amounts(observations) :: 100 * multiset(Amounts(observations))[x] >= 95 * |observations|
  {
    forall x | x in Amounts(observations)
      ensures Prevails(DEFAULT_DETECTOR, observations, x) <==> 100 * multiset(Amounts(observations))[x] >= 95 * |observations|
    {
    }
  }

  method Currencies(prior: Prior, observations: seq<Observation>) returns (findings: seq<Finding>)
    ensures findings == OverCurrencies(prior, observations)
  {
    findings := [];
    for i := 0 to |observations|
      invariant findings == OverCurrencies(prior, observations[..i])
    {
      assert observations[..i + 1][..i] == observations[..i];
      findings := findings + AboutCurrency(prior, observations[i]);
    }
    FullPrefix(observations);
  }

  method PerObservation(d: Detector, prior: Prior, observations: seq<Observation>) returns (findings: seq<Finding>)
    requires d.extremeFactor > 0.0
    ensures findings == OverObservations(d, prior, observations)
  {
    findings := [];
    for i := 0 to |observations|
      invariant findings == OverObservations(d, prior, observations[..i])
    {
      assert observations[..i + 1][..i] == observations[..i];
      var o := observations[i];
      var found: seq<Finding> := [];
      if o.price.amount <= 0.0 {
        found := found + [Finding("zero_or_negative", Critical, Some(o.ref))];
      }
      if o.ref in prior.prices && prior.prices[o.ref] > 0.0 {
        found := found + PriceMove(d, o.ref, prior.prices[o.ref], o.price.amount);
      }
      if o.ref in prior.units && o.unitCode.Some? && o.unitCode.value != prior.units[o.ref] {
        found := found + [Finding("unit_mismatch", High, Some(o.ref))];
      }
      assert found == AboutObservation(d, prior, o);
      findings := findings + found;
    }
    FullPrefix(observations);
  }

  method Detect(d: Detector, batch: Batch, prior: Prior) returns (findings: seq<Finding>)
    requires d.extremeFactor > 0.0
    ensures findings == FindingsOf(d, batch, prior)
    ensures (exists f | f in findings :: AboutBatch(f)) <==> Alarming(d, batch, prior)
    ensures forall ref: string :: (exists f | f in findings :: f.ref == Some(ref)) <==> SuspiciousIn(d, prior, batch.observations, ref)
  {
    findings := OverBatch(d, batch, prior);
    var currencies := Currencies(prior, batch.observations);
    var perObservation := PerObservation(d, prior, batch.observations);
    findings := findings + currencies + perObservation;
    DetectsExactly(d, batch, prior);
  }

  /** Something is wrong with one of the observations of the identifier. */
  ghost predicate SuspiciousIn(d: Detector, prior: Prior, observations: seq<Observation>, ref: string) {
    exists i | 0 <= i < |observations| :: observations[i].ref == ref && Suspicious(d, prior, observations[i])
  }

  /** There is a finding about the batch exactly when it is alarming, and one about an identifier exactly when it is suspicious. */
  lemma {:induction false} DetectsExactly(d: Detector, batch: Batch, prior: Prior)
    requires d.extremeFactor > 0.0
    ensures (exists f | f in FindingsOf(d, batch, prior) :: AboutBatch(f)) <==> Alarming(d, batch, prior)
    ensures forall ref: string ::
      (exists f | f in FindingsOf(d, batch, prior) :: f.ref == Some(ref)) <==> SuspiciousIn(d, prior, batch.observations, ref)
  {
    OverBatchExactly(d, batch, prior);
    if f :| f in FindingsOf(d, batch, prior) && AboutBatch(f) {
      OnObservationsOnly(d, batch, prior, f);
    }
    if OverBatch(d, batch, prior) != [] {
      OverBatchIsAboutBatch(d, batch, prior, OverBatch(d, batch, prior)[0]);
    }
    forall ref: string
      ensures (exists f | f in FindingsOf(d, batch, prior) :: f.ref == Some(ref)) <==> SuspiciousIn(d, prior, batch.observations, ref)
    {
      DetectsRef(d, batch, prior, ref);
    }
  }

  /** A finding that is not about the batch is made by one of its observations. */
  lemma {:induction false} OnObservationsOnly(d: Detector, batch: Batch, prior: Prior, f: Finding)
    requires d.extremeFactor > 0.0 && f in FindingsOf(d, batch, prior)
    ensures f in OverBatch(d, batch, prior) || exists i | 0 <= i < |batch.observations| ::
      f.ref == Some(batch.observations[i].ref) && Makes(d, prior, batch.observations[i], f)
  {
    if f !in OverBatch(d, batch, prior) {
      FindingsNameTheirVariant(d, prior, batch.observations, f);
    }
  }

  lemma {:induction false} DetectsRef(d: Detector, batch: Batch, prior: Prior, ref: string)
    requires d.extremeFactor > 0.0
    ensures (exists f | f in FindingsOf(d, batch, prior) :: f.ref == Some(ref)) <==> SuspiciousIn(d, prior, batch.observations, ref)
  {
    if f :| f in FindingsOf(d, batch, prior) && f.ref == Some(ref) {
      OnObservationsOnly(d, batch, prior, f);
      if f in OverBatch(d, batch, prior) {
        OverBatchIsAboutBatch(d, batch, prior, f);
      } else {
        var i :| 0 <= i < |batch.observations|
          && f.ref == Some(batch.observations[i].ref) && Makes(d, prior, batch.observations[i], f);
        SuspiciousExactly(d, prior, batch.observations[i]);
      }
    }
    if i :| 0 <= i < |batch.observations| && batch.observations[i].ref == ref && Suspicious(d, prior, batch.observations[i]) {
      var f := SuspicionFound(d, prior, batch.observations, i);
    }
  }

  lemma {:induction false} SuspicionFound(d: Detector, prior: Prior, observations: seq<Observation>, i: nat) returns (f: Finding)
    requires d.extremeFactor > 0.0 && i < |observations| && Suspicious(d, prior, observations[i])
    ensures f in OverCurrencies(prior, observations) || f in OverObservations(d, prior, observations)
    ensures f.ref == Some(observations[i].ref)
  {
    SuspiciousExactly(d, prior, observations[i]);
    if AboutObservation(d, prior, observations[i]) != [] {
      f := AboutObservation(d, prior, observations[i])[0];
      FoundInBatch(d, prior, observations, i, f);
    } else {
      f := AboutCurrency(prior, observations[i])[0];
      CurrencyFound(prior, observations, i);
    }
  }

  lemma {:induction false} CurrencyFound(prior: Prior, observations: seq<Observation>, k: nat)
    requires k < |observations|
    ensures forall f | f in AboutCurrency(prior, observations[k]) :: f in OverCurrencies(prior, observations)
  {
    if k < |observations| - 1 {
      CurrencyFound(prior, observations[..|observations| - 1], k);
    }
  }

  /** A finding about an observation of the batch is among the findings, and it is severe. */
  lemma {:induction false} FoundInBatch(d: Detector, prior: Prior, observations: seq<Observation>, k: nat, f: Finding)
    requires d.extremeFactor > 0.0 && k < |observations| && f in AboutObservation(d, prior, observations[k])
    ensures f in OverObservations(d, prior, observations)
    ensures f.ref == Some(observations[k].ref) && Severe(f.severity)
  {
    AboutIsSevere(d, prior, observations[k], f);
    if k < |observations| - 1 {
      FoundInBatch(d, prior, observations[..|observations| - 1], k, f);
    }
  }

  lemma {:induction false} AboutIsSevere(d: Detector, prior: Prior, o: Observation, f: Finding)
    requires d.extremeFactor > 0.0 && (f in AboutObservation(d, prior, o) || f in AboutCurrency(prior, o))
    ensures f.ref == Some(o.ref) && Severe(f.severity)
  {
  }

  /** The finding is about the observation or its currency. */
  predicate Makes(d: Detector, prior: Prior, o: Observation, f: Finding)
    requires d.extremeFactor > 0.0
  {
    f in AboutObservation(d, prior, o) || f in AboutCurrency(prior, o)
  }

  /** Every finding about an observation names a variant of the batch. */
  lemma {:induction false} FindingsNameTheirVariant(d: Detector, prior: Prior, observations: seq<Observation>, f: Finding)
    requires d.extremeFactor > 0.0
    requires f in OverObservations(d, prior, observations) || f in OverCurrencies(prior, observations)
    ensures exists k | 0 <= k < |observations| :: f.ref == Some(observations[k].ref) && Makes(d, prior, observations[k], f)
  {
    var last := |observations| - 1;
    if Makes(d, prior, observations[last], f) {
      AboutIsSevere(d, prior, observations[last], f);
    } else {
      var rest := observations[..last];
      FindingsNameTheirVariant(d, prior, rest, f);
      var k :| 0 <= k < |rest| && f.ref == Some(rest[k].ref) && Makes(d, prior, rest[k], f);
      assert Makes(d, prior, observations[k], f);
    }
  }
}
