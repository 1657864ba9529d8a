/**
  The append-only price history: a compressed sequence of validity intervals per lane, which agrees with the
  plain log of the accepted observations.  Instants are numbers.
 */
module PriceHistory {
  import opened Wrappers
  import opened Collections

  /** One line of prices: a variant, a store (or the whole chain), a scope and a type of price. */
  datatype Lane = Lane(variant: nat, store: Option<nat>, scope: string, priceType: string)

  /** What makes two observations carry the same price. */
  datatype Price = Price(amount: real, currency: string, promotion: Option<string>, loyalty: bool)

  datatype Row = Row(
    lane: Lane, price: Price, unitCode: Option<string>, observedAt: int, importedAt: int, validFrom: int,
    validUntil: Option<int>, disputed: bool)

  datatype Observation = Observation(
    ref: string, price: Price, scope: string, priceType: string, observedAt: int, unitCode: Option<string>)

  /** An accepted observation, as a plain log keeps it. */
  datatype Entry = Entry(lane: Lane, asOf: int, price: Price)

  datatype Anomaly = Anomaly(row: nat, kind: string)

  // ----- Rows -----------------------------------------------------------------------------------

  predicate Serves(row: Row, lane: Lane) {
    row.lane == lane && !row.disputed
  }

  predicate IsOpen(row: Row, lane: Lane) {
    Serves(row, lane) && row.validUntil.None?
  }

  /** The half-open interval of the row contains the instant. */
  predicate Contains(row: Row, t: int) {
    row.validFrom <= t && (row.validUntil.None? || t < row.validUntil.value)
  }

  /** The open row of a lane that is latest by (valid_from, id). */
  function LatestOpen(rows: seq<Row>, lane: Lane): (r: Option<nat>)
    ensures r.Some? ==> r.value < |rows| && IsOpen(rows[r.value], lane)
    ensures r.None? ==> forall i | 0 <= i < |rows| :: !IsOpen(rows[i], lane)
  {
    if rows == [] then None
    else
      var last := |rows| - 1;
      var rest := LatestOpen(rows[..last], lane);
      if IsOpen(rows[last], lane) && (rest.None? || rows[rest.value].validFrom <= rows[last].validFrom) then Some(last) else rest
  }

  // ----- The log --------------------------------------------------------------------------------

  /** The latest accepted observation of a lane at or before the instant; of equally late ones, that recorded last. */
  function EntryAt(log: seq<Entry>, lane: Lane, t: int): Option<Entry> {
    if log == [] then None
    else
      var last, rest := log[|log| - 1], EntryAt(log[..|log| - 1], lane, t);
      if last.lane == lane && last.asOf <= t && (rest.None? || rest.value.asOf <= last.asOf) then Some(last) else rest
  }

  /** The price of a lane at an instant. */
  function PriceAt(log: seq<Entry>, lane: Lane, t: int): Option<Price> {
    var e := EntryAt(log, lane, t);
    if e.Some? then Some(e.value.price) else None
  }

  /** The latest accepted observation of a lane. */
  function LastOf(log: seq<Entry>, lane: Lane): Option<Entry> {
    if log == [] then None
    else
      var last, rest := log[|log| - 1], LastOf(log[..|log| - 1], lane);
      if last.lane == lane && (rest.None? || rest.value.asOf <= last.asOf) then Some(last) else rest
  }

  /** The accepted observation of a lane that was recorded last, whenever it was made. */
  function LastRecorded(log: seq<Entry>, lane: Lane): Option<Entry> {
    if log == [] then None
    else if log[|log| - 1].lane == lane then Some(log[|log| - 1])
    else LastRecorded(log[..|log| - 1], lane)
  }

  /** No accepted observation of the lane is later. */
  predicate NoneLater(log: seq<Entry>, lane: Lane, asOf: int) {
    forall i | 0 <= i < |log| && log[i].lane == lane :: log[i].asOf <= asOf
  }

  lemma {:induction false} LogStep(log: seq<Entry>, e: Entry, lane: Lane, t: int)
    ensures var before := EntryAt(log, lane, t);
      EntryAt(log + [e], lane, t) ==
        if e.lane == lane && e.asOf <= t && (before.None? || before.value.asOf <= e.asOf) then Some(e) else before
    ensures var before := LastOf(log, lane);
      LastOf(log + [e], lane) == if e.lane == lane && (before.None? || before.value.asOf <= e.asOf) then Some(e) else before
    ensures LastRecorded(log + [e], lane) == if e.lane == lane then Some(e) else LastRecorded(log, lane)
  {
    assert (log + [e])[..|log|] == log;
  }

  /** `EntryAt` is an entry of the lane up to the instant, and no such entry is later. */
  lemma {:induction false} EntryAtIsLatest(log: seq<Entry>, lane: Lane, t: int)
    ensures var e := EntryAt(log, lane, t);
      && (e.Some? ==> e.value in log && e.value.lane == lane && e.value.asOf <= t)
      && (forall i | 0 <= i < |log| && log[i].lane == lane && log[i].asOf <= t :: e.Some? && log[i].asOf <= e.value.asOf)
  {
    if log != [] {
      EntryAtIsLatest(log[..|log| - 1], lane, t);
    }
  }

  lemma {:induction false} LastOfIsLatest(log: seq<Entry>, lane: Lane)
    ensures var e := LastOf(log, lane);
      && (e.Some? ==> e.value in log && e.value.lane == lane && NoneLater(log, lane, e.value.asOf))
      && (e.None? ==> forall i | 0 <= i < |log| :: log[i].lane != lane)
  {
    if log != [] {
      LastOfIsLatest(log[..|log| - 1], lane);
    }
  }

  lemma {:induction false} NoneLaterThanLast(log: seq<Entry>, lane: Lane, asOf: int)
    ensures NoneLater(log, lane, asOf) <==> LastOf(log, lane).None? || LastOf(log, lane).value.asOf <= asOf
  {
    LastOfIsLatest(log, lane);
  }

  /** From the latest accepted observation on, its price is the price. */
  lemma {:induction false} PriceAfterLast(log: seq<Entry>, lane: Lane, t: int)
    ensures LastOf(log, lane).None? ==> EntryAt(log, lane, t).None?
    ensures LastOf(log, lane).Some? && LastOf(log, lane).value.asOf <= t ==> EntryAt(log, lane, t) == LastOf(log, lane)
  {
    if log != [] {
      PriceAfterLast(log[..|log| - 1], lane, t);
    }
  }

  /** Between two instants without an observation the same one counts. */
  lemma {:induction false} SameEntryUntil(log: seq<Entry>, lane: Lane, s: int, t: int)
    requires s <= t
    ensures EntryAt(log, lane, t).None? ==> EntryAt(log, lane, s).None?
    ensures EntryAt(log, lane, t).Some? && EntryAt(log, lane, t).value.asOf <= s ==> EntryAt(log, lane, s) == EntryAt(log, lane, t)
  {
    if log != [] {
      SameEntryUntil(log[..|log| - 1], lane, s, t);
    }
  }

  /** Logging the price there already is at that instant changes the price at no instant. */
  lemma {:induction false} SamePriceStep(log: seq<Entry>, e: Entry, lane: Lane, t: int)
    requires PriceAt(log, e.lane, e.asOf) == Some(e.price)
    ensures PriceAt(log + [e], lane, t) == PriceAt(log, lane, t)
  {
    LogStep(log, e, lane, t);
    if e.lane == lane && e.asOf <= t {
      SameEntryUntil(log, lane, e.asOf, t);
    }
  }

  /** When nothing of the lane is later, the new price holds from its instant on. */
  lemma {:induction false} NewPriceStep(log: seq<Entry>, e: Entry, lane: Lane, t: int)
    requires NoneLater(log, e.lane, e.asOf)
    ensures PriceAt(log + [e], lane, t) == if e.lane == lane && e.asOf <= t then Some(e.price) else PriceAt(log, lane, t)
  {
    LogStep(log, e, lane, t);
    EntryAtIsLatest(log, lane, t);
  }

  // ----- The refinement -------------------------------------------------------------------------

  /** No row ends before it begins, the rows of a lane follow one another without overlap, and only the last can be open. */
  ghost predicate Ordered(rows: seq<Row>) {
    && (forall i | 0 <= i < |rows| && !rows[i].disputed && rows[i].validUntil.Some? :: rows[i].validFrom <= rows[i].validUntil.value)
    && (forall i, j | 0 <= i < j < |rows| && !rows[i].disputed && Serves(rows[j], rows[i].lane) ::
          rows[i].validUntil.Some? && rows[i].validUntil.value <= rows[j].validFrom)
  }

  /** No row of the lane lies between the two. */
  ghost predicate Adjacent(rows: seq<Row>, i: nat, j: nat)
    requires i < j < |rows|
  {
    && !rows[i].disputed && Serves(rows[j], rows[i].lane)
    && forall k | i < k < j :: !Serves(rows[k], rows[i].lane)
  }

  /** Each row ends where the next row of its lane begins. */
  ghost predicate Abuts(rows: seq<Row>) {
    forall i, j | 0 <= i < j < |rows| && Adjacent(rows, i, j) :: rows[i].validUntil == Some(rows[j].validFrom)
  }

  /** Where a row is valid, it carries the price of the log; a disputed row is valid nowhere. */
  ghost predicate Agrees(rows: seq<Row>, log: seq<Entry>) {
    forall i, t: int | 0 <= i < |rows| && Contains(rows[i], t) ::
      !rows[i].disputed && PriceAt(log, rows[i].lane, t) == Some(rows[i].price)
  }

  ghost predicate Covered(rows: seq<Row>, lane: Lane, t: int) {
    exists i | 0 <= i < |rows| :: Serves(rows[i], lane) && Contains(rows[i], t)
  }

  /** Where the log has a price, a row is valid. */
  ghost predicate Covers(rows: seq<Row>, log: seq<Entry>) {
    forall lane: Lane, t: int :: PriceAt(log, lane, t).Some? ==> Covered(rows, lane, t)
  }

  /** A lane has an open row exactly when something was accepted, and it began no later than the latest. */
  ghost predicate OpenOne(rows: seq<Row>, log: seq<Entry>) {
    && (forall lane: Lane :: LatestOpen(rows, lane).Some? <==> LastOf(log, lane).Some?)
    && (forall lane: Lane :: LatestOpen(rows, lane).Some? ==>
          rows[LatestOpen(rows, lane).value].validFrom <= LastOf(log, lane).value.asOf)
    && (forall i | 0 <= i < |rows| && !rows[i].disputed :: LastOf(log, rows[i].lane).Some?)
  }

  ghost predicate Refines(rows: seq<Row>, log: seq<Entry>) {
    Ordered(rows) && Abuts(rows) && Agrees(rows, log) && Covers(rows, log) && OpenOne(rows, log)
  }

  /** At any instant at most one row of a lane is valid, so it is the price of the log. */
  lemma {:induction false} ValidRowIsUnique(rows: seq<Row>, i: nat, j: nat, t: int)
    requires Ordered(rows) && i < |rows| && j < |rows|
    requires !rows[i].disputed && Serves(rows[j], rows[i].lane) && Contains(rows[i], t) && Contains(rows[j], t)
    ensures i == j
  {
  }

  lemma {:induction false} OpenRowIsUnique(rows: seq<Row>, i: nat, lane: Lane)
    requires Ordered(rows) && i < |rows| && IsOpen(rows[i], lane)
    ensures LatestOpen(rows, lane) == Some(i)
    ensures forall j | i < j < |rows| :: !Serves(rows[j], lane)
  {
  }

  /** The history says at every instant what the log says. */
  lemma {:induction false} HistoryRefinesLog(rows: seq<Row>, log: seq<Entry>, lane: Lane, t: int)
    requires Refines(rows, log)
    ensures PriceAt(log, lane, t).None? <==> !Covered(rows, lane, t)
    ensures forall i | 0 <= i < |rows| && Serves(rows[i], lane) && Contains(rows[i], t) ::
      PriceAt(log, lane, t) == Some(rows[i].price)
  {
  }

  // ----- The three ways of recording ------------------------------------------------------------

  function RowOf(obs: Observation, lane: Lane, asOf: int, validUntil: Option<int>, disputed: bool): Row {
    Row(lane, obs.price, obs.unitCode, obs.observedAt, asOf, asOf, validUntil, disputed)
  }

  lemma {:induction false} LatestOpenAppend(rows: seq<Row>, row: Row, lane: Lane)
    ensures LatestOpen(rows + [row], lane) ==
      if IsOpen(row, lane) && (LatestOpen(rows, lane).None? || rows[LatestOpen(rows, lane).value].validFrom <= row.validFrom)
      then Some(|rows|) else LatestOpen(rows, lane)
  {
    assert (rows + [row])[..|rows|] == rows;
  }

  /** Replacing a row by one that serves and is open just like it changes nothing about openness. */
  lemma {:induction false} LatestOpenSame(rows: seq<Row>, i: nat, row: Row, lane: Lane)
    requires i < |rows| && row.lane == rows[i].lane && row.disputed == rows[i].disputed
    requires row.validFrom == rows[i].validFrom && row.validUntil == rows[i].validUntil
    ensures LatestOpen(rows[i := row], lane) == LatestOpen(rows, lane)
  {
    var last := |rows| - 1;
    if i < last {
      assert rows[i := row][..last] == rows[..last][i := row];
      LatestOpenSame(rows[..last], i, row, lane);
    } else {
      assert rows[i := row][..last] == rows[..last];
    }
  }

  /** A disputed row changes nothing. */
  lemma {:induction false} QuarantineStep(rows: seq<Row>, log: seq<Entry>, row: Row)
    requires Refines(rows, log) && row.disputed && row.validUntil == Some(row.validFrom)
    ensures Refines(rows + [row], log)
  {
    var rows' := rows + [row];
    forall lane: Lane ensures LatestOpen(rows', lane) == LatestOpen(rows, lane) {
      LatestOpenAppend(rows, row, lane);
    }
    forall lane: Lane, t: int | Covered(rows, lane, t) ensures Covered(rows', lane, t) {
      var i :| 0 <= i < |rows| && Serves(rows[i], lane) && Contains(rows[i], t);
      assert Serves(rows'[i], lane) && Contains(rows'[i], t);
    }
    forall i, j | 0 <= i < j < |rows'| && Adjacent(rows', i, j) ensures rows'[i].validUntil == Some(rows'[j].validFrom) {
      assert Adjacent(rows, i, j);
    }
  }

  /** The open row seen again with the same price, which is the price at that instant already. */
  lemma {:induction false} UnchangedStep(rows: seq<Row>, log: seq<Entry>, i: nat, row: Row, e: Entry)
    requires Refines(rows, log) && i < |rows| && IsOpen(rows[i], e.lane) && rows[i].price == e.price
    requires row == rows[i].(observedAt := row.observedAt, importedAt := row.importedAt)
    requires PriceAt(log, e.lane, e.asOf) == Some(e.price)
    ensures Refines(rows[i := row], log + [e])
  {
    var rows', log' := rows[i := row], log + [e];
    forall lane: Lane
      ensures LatestOpen(rows', lane) == LatestOpen(rows, lane)
      ensures LastOf(log', lane).Some? <==> LastOf(log, lane).Some?
      ensures LastOf(log, lane).Some? ==> LastOf(log, lane).value.asOf <= LastOf(log', lane).value.asOf
    {
      LatestOpenSame(rows, i, row, lane);
      LogStep(log, e, lane, 0);
      PriceAfterLast(log, lane, e.asOf);
    }
    UnchangedSays(rows, log, i, row, e);
    UnchangedAbuts(rows, i, row);
  }

  lemma {:induction false} UnchangedAbuts(rows: seq<Row>, i: nat, row: Row)
    requires Abuts(rows) && i < |rows|
    requires row == rows[i].(observedAt := row.observedAt, importedAt := row.importedAt)
    ensures Abuts(rows[i := row])
  {
    var rows' := rows[i := row];
    forall j, k | 0 <= j < k < |rows'| && Adjacent(rows', j, k) ensures rows'[j].validUntil == Some(rows'[k].validFrom) {
      assert forall m | 0 <= m < |rows| :: Serves(rows'[m], rows[j].lane) <==> Serves(rows[m], rows[j].lane);
      assert Adjacent(rows, j, k);
    }
  }

  lemma {:induction false} UnchangedSays(rows: seq<Row>, log: seq<Entry>, i: nat, row: Row, e: Entry)
    requires Refines(rows, log) && i < |rows| && PriceAt(log, e.lane, e.asOf) == Some(e.price)
    requires row == rows[i].(observedAt := row.observedAt, importedAt := row.importedAt)
    ensures Agrees(rows[i := row], log + [e]) && Covers(rows[i := row], log + [e])
  {
    var rows' := rows[i := row];
    forall j, t: int | 0 <= j < |rows'| && Contains(rows'[j], t)
      ensures !rows'[j].disputed && PriceAt(log + [e], rows'[j].lane, t) == Some(rows'[j].price)
    {
      SamePriceStep(log, e, rows[j].lane, t);
      assert Contains(rows[j], t);
    }
    forall lane: Lane, t: int | PriceAt(log + [e], lane, t).Some? ensures Covered(rows', lane, t) {
      SamePriceStep(log, e, lane, t);
      var j :| 0 <= j < |rows| && Serves(rows[j], lane) && Contains(rows[j], t);
      assert Serves(rows'[j], lane) && Contains(rows'[j], t);
    }
  }

  /** If the price at that instant was another one, a refreshed row says so still, against the log. */
  lemma {:induction false} UnchangedDisagrees(rows: seq<Row>, log: seq<Entry>, i: nat, row: Row, e: Entry)
    requires Refines(rows, log) && i < |rows| && PriceAt(log, e.lane, e.asOf) != Some(e.price)
    requires row == rows[i].(observedAt := row.observedAt, importedAt := row.importedAt)
    ensures !Refines(rows[i := row], log + [e])
  {
    var rows', log' := rows[i := row], log + [e];
    LogStep(log, e, e.lane, e.asOf);
    EntryAtIsLatest(log, e.lane, e.asOf);
    assert PriceAt(log', e.lane, e.asOf) == Some(e.price);
    forall j | 0 <= j < |rows'| && Serves(rows'[j], e.lane) && Contains(rows'[j], e.asOf) ensures rows'[j].price != e.price {
      assert Contains(rows[j], e.asOf);
    }
    assert Agrees(rows', log') ==> !Covered(rows', e.lane, e.asOf);
  }

  /** The rows after a change: the open row, if any, is closed at the instant, and a new one is opened. */
  function Changed(rows: seq<Row>, row: Row): seq<Row> {
    var current := LatestOpen(rows, row.lane);
    (if current.Some? then rows[current.value := rows[current.value].(validUntil := Some(row.validFrom))] else rows) + [row]
  }

  lemma {:induction false} ChangedOrdered(rows: seq<Row>, log: seq<Entry>, row: Row, e: Entry)
    requires Refines(rows, log) && IsOpen(row, e.lane) && row.price == e.price && row.validFrom == e.asOf
    requires NoneLater(log, e.lane, e.asOf)
    ensures Ordered(Changed(rows, row))
  {
    var current := LatestOpen(rows, row.lane);
    var rows' := Changed(rows, row);
    NoneLaterThanLast(log, e.lane, e.asOf);
    if current.Some? {
      OpenRowIsUnique(rows, current.value, row.lane);
      assert rows[current.value].validFrom <= row.validFrom;
    }
    forall i, j | 0 <= i < j < |rows'| && !rows'[i].disputed && Serves(rows'[j], rows'[i].lane)
      ensures rows'[i].validUntil.Some? && rows'[i].validUntil.value <= rows'[j].validFrom
    {
      if j == |rows| {
        assert current.None? || i != current.value ==> rows'[i] == rows[i];
        assert LastOf(log, rows[i].lane).Some?;
        assert i != current.value ==> Serves(rows[current.value], rows[i].lane);
      }
    }
  }

  lemma {:induction false} ChangedAbuts(rows: seq<Row>, log: seq<Entry>, row: Row, e: Entry)
    requires Refines(rows, log) && IsOpen(row, e.lane) && row.price == e.price && row.validFrom == e.asOf
    ensures Abuts(Changed(rows, row))
  {
    var current := LatestOpen(rows, row.lane);
    var rows' := Changed(rows, row);
    if current.Some? {
      OpenRowIsUnique(rows, current.value, row.lane);
    }
    forall i, j | 0 <= i < j < |rows'| && Adjacent(rows', i, j) ensures rows'[i].validUntil == Some(rows'[j].validFrom) {
      assert forall m | 0 <= m < |rows| :: Serves(rows'[m], rows'[i].lane) <==> Serves(rows[m], rows'[i].lane);
      if j < |rows| {
        assert Adjacent(rows, i, j);
        assert rows[i].validUntil.Some?;
      } else {
        LastServesIsOpen(rows, log, i);
      }
    }
  }

  /** The last row of a lane is its open one. */
  lemma {:induction false} LastServesIsOpen(rows: seq<Row>, log: seq<Entry>, i: nat)
    requires Refines(rows, log) && i < |rows| && !rows[i].disputed
    requires forall k | i < k < |rows| :: !Serves(rows[k], rows[i].lane)
    ensures LatestOpen(rows, rows[i].lane) == Some(i)
  {
    var lane := rows[i].lane;
    assert LastOf(log, lane).Some?;
    var o := LatestOpen(rows, lane).value;
    assert o <= i;
  }

  lemma {:induction false} ChangedAgrees(rows: seq<Row>, log: seq<Entry>, row: Row, e: Entry)
    requires Refines(rows, log) && IsOpen(row, e.lane) && row.price == e.price && row.validFrom == e.asOf
    requires NoneLater(log, e.lane, e.asOf)
    ensures Agrees(Changed(rows, row), log + [e])
  {
    var rows' := Changed(rows, row);
    ChangedOrdered(rows, log, row, e);
    forall i, t: int | 0 <= i < |rows'| && Contains(rows'[i], t)
      ensures !rows'[i].disputed && PriceAt(log + [e], rows'[i].lane, t) == Some(rows'[i].price)
    {
      NewPriceStep(log, e, rows'[i].lane, t);
      if i < |rows| {
        assert Contains(rows[i], t);
        assert rows'[i].lane == e.lane ==> Serves(rows'[|rows|], rows'[i].lane);
      }
    }
  }

  lemma {:induction false} ChangedCovers(rows: seq<Row>, log: seq<Entry>, row: Row, e: Entry)
    requires Refines(rows, log) && IsOpen(row, e.lane) && row.price == e.price && row.validFrom == e.asOf
    requires NoneLater(log, e.lane, e.asOf)
    ensures Covers(Changed(rows, row), log + [e])
  {
    var rows' := Changed(rows, row);
    forall lane: Lane, t: int | PriceAt(log + [e], lane, t).Some? ensures Covered(rows', lane, t) {
      NewPriceStep(log, e, lane, t);
      if e.lane == lane && e.asOf <= t {
        assert Serves(rows'[|rows|], lane) && Contains(rows'[|rows|], t);
      } else {
        var j :| 0 <= j < |rows| && Serves(rows[j], lane) && Contains(rows[j], t);
        assert Serves(rows'[j], lane) && Contains(rows'[j], t);
      }
    }
  }

  lemma {:induction false} ChangedOpen(rows: seq<Row>, log: seq<Entry>, row: Row, e: Entry, lane: Lane)
    requires Refines(rows, log) && IsOpen(row, e.lane) && row.price == e.price && row.validFrom == e.asOf
    requires NoneLater(log, e.lane, e.asOf)
    ensures LatestOpen(Changed(rows, row), lane) == if lane == e.lane then Some(|rows|) else LatestOpen(rows, lane)
  {
    var current := LatestOpen(rows, row.lane);
    var closed := if current.Some? then rows[current.value := rows[current.value].(validUntil := Some(row.validFrom))] else rows;
    LatestOpenAppend(closed, row, lane);
    ChangedOrdered(rows, log, row, e);
    if lane == e.lane {
      OpenRowIsUnique(Changed(rows, row), |rows|, lane);
    } else if current.Some? {
      LatestOpenOther(rows, current.value, closed[current.value], lane);
    }
  }

  lemma {:induction false} LatestOpenOther(rows: seq<Row>, i: nat, row: Row, lane: Lane)
    requires i < |rows| && rows[i].lane != lane && row.lane != lane
    ensures LatestOpen(rows[i := row], lane) == LatestOpen(rows, lane)
  {
    var last := |rows| - 1;
    if i < last {
      assert rows[i := row][..last] == rows[..last][i := row];
      LatestOpenOther(rows[..last], i, row, lane);
    } else {
      assert rows[i := row][..last] == rows[..last];
    }
  }

  /** A price that differs, or the first one of its lane. */
  lemma {:induction false} ChangeStep(rows: seq<Row>, log: seq<Entry>, row: Row, e: Entry)
    requires Refines(rows, log) && IsOpen(row, e.lane) && row.price == e.price && row.validFrom == e.asOf
    requires NoneLater(log, e.lane, e.asOf)
    ensures Refines(Changed(rows, row), log + [e])
  {
    ChangedOrdered(rows, log, row, e);
    ChangedAbuts(rows, log, row, e);
    ChangedAgrees(rows, log, row, e);
    ChangedCovers(rows, log, row, e);
    var rows', log' := Changed(rows, row), log + [e];
    forall lane: Lane
      ensures LatestOpen(rows', lane) == if lane == e.lane then Some(|rows|) else LatestOpen(rows, lane)
      ensures LastOf(log', lane) == if lane == e.lane then Some(e) else LastOf(log, lane)
    {
      ChangedOpen(rows, log, row, e, lane);
      LogStep(log, e, lane, 0);
      NoneLaterThanLast(log, e.lane, e.asOf);
    }
    ChangedOpenOne(rows, log, row, e);
  }

  lemma {:induction false} ChangedOpenOne(rows: seq<Row>, log: seq<Entry>, row: Row, e: Entry)
    requires Refines(rows, log) && IsOpen(row, e.lane) && row.price == e.price && row.validFrom == e.asOf
    requires forall lane: Lane ::
      LatestOpen(Changed(rows, row), lane) == if lane == e.lane then Some(|rows|) else LatestOpen(rows, lane)
    requires forall lane: Lane :: LastOf(log + [e], lane) == if lane == e.lane then Some(e) else LastOf(log, lane)
    ensures OpenOne(Changed(rows, row), log + [e])
  {
    var rows', log' := Changed(rows, row), log + [e];
    assert |rows'| == |rows| + 1 && rows'[|rows|] == row;
    assert forall i | 0 <= i < |rows| ::
      rows'[i].lane == rows[i].lane && rows'[i].validFrom == rows[i].validFrom && rows'[i].disputed == rows[i].disputed;
    forall lane: Lane | LatestOpen(rows', lane).Some?
      ensures rows'[LatestOpen(rows', lane).value].validFrom <= LastOf(log', lane).value.asOf
    {
      assert lane != e.lane ==> LatestOpen(rows, lane).Some?;
    }
    forall i | 0 <= i < |rows'| && !rows'[i].disputed ensures LastOf(log', rows'[i].lane).Some? {
      assert i < |rows| ==> LastOf(log, rows[i].lane).Some?;
    }
  }

  /** If something of the lane is later, the new row says its price there, against the log. */
  lemma {:induction false} ChangedDisagrees(rows: seq<Row>, log: seq<Entry>, row: Row, e: Entry)
    requires Refines(rows, log) && IsOpen(row, e.lane) && row.price == e.price && row.validFrom == e.asOf
    requires LatestOpen(rows, e.lane).Some? ==> rows[LatestOpen(rows, e.lane).value].price != e.price
    requires !NoneLater(log, e.lane, e.asOf)
    ensures !Agrees(Changed(rows, row), log + [e])
  {
    NoneLaterThanLast(log, e.lane, e.asOf);
    var last, open := LastOf(log, e.lane).value, LatestOpen(rows, e.lane).value;
    PriceAfterLast(log, e.lane, last.asOf);
    assert Contains(rows[open], last.asOf);
    LogStep(log, e, e.lane, last.asOf);
    assert Contains(Changed(rows, row)[|rows|], last.asOf);
  }

  /** The rows after recording an observation. */
  function Recorded(rows: seq<Row>, obs: Observation, lane: Lane, asOf: int, quarantined: bool): seq<Row> {
    var current := LatestOpen(rows, lane);
    if quarantined then rows + [RowOf(obs, lane, asOf, Some(asOf), true)]
    else if current.Some? && rows[current.value].price == obs.price then
      rows[current.value := rows[current.value].(observedAt := obs.observedAt, importedAt := asOf)]
    else Changed(rows, RowOf(obs, lane, asOf, None, false))
  }

  /**
    An observation with the price of the open row fits in if that is the price at its instant already; any other
    one if no accepted observation of its lane is later.
   */
  predicate Fits(rows: seq<Row>, log: seq<Entry>, lane: Lane, asOf: int, price: Price) {
    var current := LatestOpen(rows, lane);
    if current.Some? && rows[current.value].price == price then PriceAt(log, lane, asOf) == Some(price)
    else NoneLater(log, lane, asOf)
  }

  /** Recording an accepted observation keeps history and log in agreement exactly when it fits in. */
  lemma {:induction false} RecordedExactly(rows: seq<Row>, log: seq<Entry>, obs: Observation, lane: Lane, asOf: int)
    requires Refines(rows, log)
    ensures Refines(Recorded(rows, obs, lane, asOf, false), log + [Entry(lane, asOf, obs.price)]) <==>
      Fits(rows, log, lane, asOf, obs.price)
  {
    var current, e := LatestOpen(rows, lane), Entry(lane, asOf, obs.price);
    if current.Some? && rows[current.value].price == obs.price {
      var row := rows[current.value].(observedAt := obs.observedAt, importedAt := asOf);
      if PriceAt(log, lane, asOf) == Some(obs.price) {
        UnchangedStep(rows, log, current.value, row, e);
      } else {
        UnchangedDisagrees(rows, log, current.value, row, e);
      }
    } else {
      var row := RowOf(obs, lane, asOf, None, false);
      if NoneLater(log, lane, asOf) {
        ChangeStep(rows, log, row, e);
      } else {
        ChangedDisagrees(rows, log, row, e);
      }
    }
  }

  /** Nothing that was accepted is later. */
  ghost predicate Timely(log: seq<Entry>, asOf: int) {
    forall i | 0 <= i < |log| :: log[i].asOf <= asOf
  }

  /** When nothing that was accepted is later, everything fits in. */
  lemma {:induction false} TimelyFits(rows: seq<Row>, log: seq<Entry>, lane: Lane, asOf: int, price: Price)
    requires Refines(rows, log) && Timely(log, asOf)
    ensures Fits(rows, log, lane, asOf, price)
  {
    NoneLaterThanLast(log, lane, asOf);
    InOrderFits(rows, log, lane, asOf, price);
  }

  /** The open row carries the price of the latest accepted observation. */
  lemma {:induction false} OpenCarriesLatest(rows: seq<Row>, log: seq<Entry>, lane: Lane)
    requires Refines(rows, log) && LatestOpen(rows, lane).Some?
    ensures LastOf(log, lane).Some? && rows[LatestOpen(rows, lane).value].price == LastOf(log, lane).value.price
  {
    var open, last := LatestOpen(rows, lane).value, LastOf(log, lane).value;
    PriceAfterLast(log, lane, last.asOf);
    assert Contains(rows[open], last.asOf);
  }

  /** An observation that is no older than the latest accepted one of its lane fits in. */
  lemma {:induction false} InOrderFits(rows: seq<Row>, log: seq<Entry>, lane: Lane, asOf: int, price: Price)
    requires Refines(rows, log)
    requires LastOf(log, lane).Some? ==> LastOf(log, lane).value.asOf <= asOf
    ensures Fits(rows, log, lane, asOf, price)
  {
    NoneLaterThanLast(log, lane, asOf);
    PriceAfterLast(log, lane, asOf);
    if LatestOpen(rows, lane).Some? {
      OpenCarriesLatest(rows, log, lane);
    }
  }

  /** A late observation with another price overrides the newer one: the row of that is inverted and valid nowhere. */
  lemma {:induction false} LateOverridesNewer(a: Observation, b: Observation, lane: Lane, t0: int, late: int)
    requires a.price != b.price && late < t0
    ensures var first, log := Recorded([], a, lane, t0, false), [Entry(lane, t0, a.price)];
      var rows, log' := Recorded(first, b, lane, late, false), log + [Entry(lane, late, b.price)];
      && Refines(first, log) && !Refines(rows, log')
      && rows == TwoRows(a, b, lane, t0, late)
      && (forall t: int | t0 <= t :: PriceAt(log', lane, t) == Some(a.price) && Contains(rows[1], t) && !Contains(rows[0], t))
  {
    var first, log, e := Recorded([], a, lane, t0, false), [Entry(lane, t0, a.price)], Entry(lane, late, b.price);
    OneRow(a, lane, t0);
    RecordedSecond(a, b, lane, t0, late);
    assert log[0].lane == lane && log[0].asOf > late;
    RecordedExactly(first, log, b, lane, late);
    forall t: int | t0 <= t ensures PriceAt(log + [e], lane, t) == Some(a.price) {
      FirstStays(log[0], e, t);
    }
  }

  /** An earlier entry recorded second leaves the price from the later one on. */
  lemma {:induction false} FirstStays(first: Entry, second: Entry, t: int)
    requires second.lane == first.lane && second.asOf < first.asOf <= t
    ensures PriceAt([first] + [second], first.lane, t) == Some(first.price)
  {
    LogStep([], first, first.lane, t);
    assert [] + [first] == [first];
    LogStep([first], second, first.lane, t);
  }

  lemma {:induction false} RecordedSecond(a: Observation, b: Observation, lane: Lane, t0: int, t1: int)
    requires a.price != b.price
    ensures Recorded(Recorded([], a, lane, t0, false), b, lane, t1, false) == TwoRows(a, b, lane, t0, t1)
    ensures var first := Recorded([], a, lane, t0, false);
      LatestOpen(first, lane) == Some(0) && first[0].price == a.price
  {
    var row := RowOf(a, lane, t0, None, false);
    assert [] + [row] == [row];
    LatestOpenAppend([], row, lane);
  }

  /** The history of one price. */
  lemma {:induction false} OneRow(a: Observation, lane: Lane, t0: int)
    ensures Recorded([], a, lane, t0, false) == [RowOf(a, lane, t0, None, false)]
    ensures Refines(Recorded([], a, lane, t0, false), [Entry(lane, t0, a.price)])
  {
    var rows, e := [RowOf(a, lane, t0, None, false)], Entry(lane, t0, a.price);
    NothingRefines();
    RecordedExactly([], [], a, lane, t0);
    assert [] + [e] == [e] && [] + rows == rows;
  }

  /** The history of a price that was replaced by another. */
  function TwoRows(a: Observation, b: Observation, lane: Lane, t0: int, t1: int): seq<Row> {
    [RowOf(a, lane, t0, Some(t1), false), RowOf(b, lane, t1, None, false)]
  }

  lemma {:induction false} RecordedTwo(a: Observation, b: Observation, lane: Lane, t0: int, t1: int)
    requires a.price != b.price && t0 <= t1
    ensures Recorded(Recorded([], a, lane, t0, false), b, lane, t1, false) == TwoRows(a, b, lane, t0, t1)
    ensures Refines(TwoRows(a, b, lane, t0, t1), [Entry(lane, t0, a.price)] + [Entry(lane, t1, b.price)])
  {
    var first, log := Recorded([], a, lane, t0, false), [Entry(lane, t0, a.price)];
    OneRow(a, lane, t0);
    RecordedSecond(a, b, lane, t0, t1);
    RecordedExactly(first, log, b, lane, t1);
  }

  /** After a price and another one, a third that is older than the second breaks the agreement. */
  lemma {:induction false} LateObservationOverlaps(a: Observation, b: Observation, c: Observation, lane: Lane, t0: int, t1: int, late: int)
    requires a.price != b.price && t0 <= t1 && late < t1
    ensures var rows := Recorded(Recorded([], a, lane, t0, false), b, lane, t1, false);
      var log := [Entry(lane, t0, a.price)] + [Entry(lane, t1, b.price)];
      Refines(rows, log) && !Refines(Recorded(rows, c, lane, late, false), log + [Entry(lane, late, c.price)])
  {
    var rows, log := TwoRows(a, b, lane, t0, t1), [Entry(lane, t0, a.price)] + [Entry(lane, t1, b.price)];
    RecordedTwo(a, b, lane, t0, t1);
    OpenRowIsUnique(rows, 1, lane);
    RecordedExactly(rows, log, c, lane, late);
    assert log[1] == Entry(lane, t1, b.price);
    BeforeTheSecond(log, lane, late);
  }

  /** Before the second of two observations its price is not the price. */
  lemma {:induction false} BeforeTheSecond(log: seq<Entry>, lane: Lane, t: int)
    requires |log| == 2 && log[0].price != log[1].price && t < log[1].asOf
    ensures PriceAt(log, lane, t) != Some(log[1].price)
  {
    EntryAtIsLatest(log, lane, t);
  }

  lemma {:induction false} NothingRefines()
    ensures Refines([], [])
  {
  }

  lemma {:induction false} RecordedFaithful(rows: seq<Row>, log: seq<Entry>, obs: Observation, lane: Lane, asOf: int, quarantined: bool)
    ensures var log' := if quarantined then log else log + [Entry(lane, asOf, obs.price)];
      Refines(rows, log) ==>
        (Refines(Recorded(rows, obs, lane, asOf, quarantined), log') <==> quarantined || Fits(rows, log, lane, asOf, obs.price))
  {
    if Refines(rows, log) {
      if quarantined {
        QuarantineStep(rows, log, RowOf(obs, lane, asOf, Some(asOf), true));
      } else {
        RecordedExactly(rows, log, obs, lane, asOf);
      }
    }
  }

  // ----- At most one open row -------------------------------------------------------------------

  /** A lane never has two open rows, however late an observation comes. */
  ghost predicate OneOpen(rows: seq<Row>) {
    forall i, j | 0 <= i < j < |rows| && IsOpen(rows[i], rows[i].lane) :: !IsOpen(rows[j], rows[i].lane)
  }

  lemma {:induction false} OnlyOpen(rows: seq<Row>, i: nat, lane: Lane)
    requires OneOpen(rows) && i < |rows| && IsOpen(rows[i], lane)
    ensures LatestOpen(rows, lane) == Some(i)
  {
    var open := LatestOpen(rows, lane);
    assert open.Some? && IsOpen(rows[open.value], lane);
  }

  lemma {:induction false} ChangedOneOpen(rows: seq<Row>, row: Row)
    requires OneOpen(rows) && IsOpen(row, row.lane)
    ensures OneOpen(Changed(rows, row)) && LatestOpen(Changed(rows, row), row.lane) == Some(|rows|)
  {
    var rows', current := Changed(rows, row), LatestOpen(rows, row.lane);
    forall i | 0 <= i < |rows| ensures !IsOpen(rows'[i], row.lane) {
      if IsOpen(rows[i], row.lane) {
        OnlyOpen(rows, i, row.lane);
      }
    }
    forall i, j | 0 <= i < j < |rows'| && IsOpen(rows'[i], rows'[i].lane) ensures !IsOpen(rows'[j], rows'[i].lane) {
      assert IsOpen(rows[i], rows[i].lane);
    }
    OnlyOpen(rows', |rows|, row.lane);
  }

  lemma {:induction false} SupersededOneOpen(rows: seq<Row>, obs: Observation, lane: Lane, asOf: int)
    requires OneOpen(rows)
    ensures LatestOpen(Changed(rows, RowOf(obs, lane, asOf, None, false)), lane) == Some(|rows|)
  {
    ChangedOneOpen(rows, RowOf(obs, lane, asOf, None, false));
  }

  lemma {:induction false} RecordedOneOpen(rows: seq<Row>, obs: Observation, lane: Lane, asOf: int, quarantined: bool)
    requires OneOpen(rows)
    ensures OneOpen(Recorded(rows, obs, lane, asOf, quarantined))
  {
    if !quarantined {
      var current := LatestOpen(rows, lane);
      if current.None? || rows[current.value].price != obs.price {
        ChangedOneOpen(rows, RowOf(obs, lane, asOf, None, false));
      } else {
        RefreshedOneOpen(rows, current.value, rows[current.value].(observedAt := obs.observedAt, importedAt := asOf));
      }
    }
  }

  lemma {:induction false} RefreshedOneOpen(rows: seq<Row>, i: nat, row: Row)
    requires OneOpen(rows) && i < |rows| && row == rows[i].(observedAt := row.observedAt, importedAt := row.importedAt)
    ensures OneOpen(rows[i := row])
  {
    var rows' := rows[i := row];
    forall j, k | 0 <= j < k < |rows'| && IsOpen(rows'[j], rows'[j].lane) ensures !IsOpen(rows'[k], rows'[j].lane) {
      assert IsOpen(rows[j], rows[j].lane);
      assert !IsOpen(rows[k], rows[j].lane);
    }
  }

  // ----- The open row carries what was recorded last --------------------------------------------

  /** However late observations come, the open row of a lane carries the price that was recorded last. */
  ghost predicate CarriesLast(rows: seq<Row>, log: seq<Entry>) {
    forall lane: Lane :: CarriesIn(rows, log, lane)
  }

  ghost predicate CarriesIn(rows: seq<Row>, log: seq<Entry>, lane: Lane) {
    && (LatestOpen(rows, lane).Some? <==> LastRecorded(log, lane).Some?)
    && (LatestOpen(rows, lane).Some? ==> rows[LatestOpen(rows, lane).value].price == LastRecorded(log, lane).value.price)
  }

  lemma {:induction false} ChangedCarries(rows: seq<Row>, log: seq<Entry>, row: Row, e: Entry)
    requires OneOpen(rows) && CarriesLast(rows, log) && IsOpen(row, e.lane) && row.price == e.price
    ensures CarriesLast(Changed(rows, row), log + [e])
  {
    ChangedOneOpen(rows, row);
    var rows', current := Changed(rows, row), LatestOpen(rows, row.lane);
    var closed := if current.Some? then rows[current.value := rows[current.value].(validUntil := Some(row.validFrom))] else rows;
    forall lane: Lane ensures CarriesIn(rows', log + [e], lane) {
      LogStep(log, e, lane, 0);
      assert CarriesIn(rows, log, lane);
      if lane != e.lane {
        LatestOpenAppend(closed, row, lane);
        if current.Some? {
          LatestOpenOther(rows, current.value, closed[current.value], lane);
        }
      }
    }
  }

  lemma {:induction false} RefreshedCarries(rows: seq<Row>, log: seq<Entry>, i: nat, row: Row, e: Entry)
    requires CarriesLast(rows, log) && LatestOpen(rows, e.lane) == Some(i) && rows[i].price == e.price
    requires row == rows[i].(observedAt := row.observedAt, importedAt := row.importedAt)
    ensures CarriesLast(rows[i := row], log + [e])
  {
    var rows', log' := rows[i := row], log + [e];
    forall lane: Lane ensures CarriesIn(rows', log', lane) {
      LogStep(log, e, lane, 0);
      LatestOpenSame(rows, i, row, lane);
      assert CarriesIn(rows, log, lane);
    }
  }

  lemma {:induction false} RecordedCarries(rows: seq<Row>, log: seq<Entry>, obs: Observation, lane: Lane, asOf: int, quarantined: bool)
    requires OneOpen(rows) && CarriesLast(rows, log)
    ensures CarriesLast(Recorded(rows, obs, lane, asOf, quarantined),
                        if quarantined then log else log + [Entry(lane, asOf, obs.price)])
  {
    var current, e := LatestOpen(rows, lane), Entry(lane, asOf, obs.price);
    if quarantined {
      var row := RowOf(obs, lane, asOf, Some(asOf), true);
      forall l: Lane ensures CarriesIn(rows + [row], log, l) {
        LatestOpenAppend(rows, row, l);
        assert CarriesIn(rows, log, l);
      }
    } else if current.Some? && rows[current.value].price == obs.price {
      RefreshedCarries(rows, log, current.value, rows[current.value].(observedAt := obs.observedAt, importedAt := asOf), e);
    } else {
      ChangedCarries(rows, log, RowOf(obs, lane, asOf, None, false), e);
    }
  }

  // ----- The history ----------------------------------------------------------------------------

  /** What recording may do to the rows there are: refresh an open row, or close it. */
  ghost predicate OnlyClosed(before: seq<Row>, after: seq<Row>) {
    && |before| <= |after|
    && forall i | 0 <= i < |before| ::
         && after[i].lane == before[i].lane && after[i].price == before[i].price
         && after[i].validFrom == before[i].validFrom && after[i].disputed == before[i].disputed
         && (before[i].validUntil.Some? ==> after[i] == before[i])
  }

  class History {
    var rows: seq<Row>
    var anomalies: seq<Anomaly>
    /** Every accepted observation. */
    ghost var log: seq<Entry>

    ghost predicate Valid()
      reads this
    {
      OneOpen(rows) && CarriesLast(rows, log)
    }

    /** The history says what the log says. */
    ghost predicate Faithful()
      reads this
    {
      Refines(rows, log)
    }

    constructor ()
      ensures Valid() && Faithful() && rows == [] && anomalies == [] && log == []
    {
      rows, anomalies, log := [], [], [];
    }

    /** A quarantined observation: a closed, disputed row with its anomaly. */
    method Dispute(obs: Observation, lane: Lane, asOf: int, kind: string) returns (id: nat)
      modifies this
      ensures log == old(log) && id == |old(rows)|
      ensures rows == old(rows) + [RowOf(obs, lane, asOf, Some(asOf), true)]
      ensures anomalies == old(anomalies) + [Anomaly(id, kind)]
    {
      id := |rows|;
      rows := rows + [RowOf(obs, lane, asOf, Some(asOf), true)];
      anomalies := anomalies + [Anomaly(id, kind)];
    }

    /** The open row is seen again with its price. */
    method Revalidate(obs: Observation, lane: Lane, asOf: int, id: nat)
      requires LatestOpen(rows, lane) == Some(id) && rows[id].price == obs.price
      modifies this
      ensures log == old(log) + [Entry(lane, asOf, obs.price)] && anomalies == old(anomalies)
      ensures rows == old(rows)[id := old(rows)[id].(observedAt := obs.observedAt, importedAt := asOf)]
      ensures LatestOpen(rows, lane) == Some(id)
    {
      var row := rows[id].(observedAt := obs.observedAt, importedAt := asOf);
      LatestOpenSame(rows, id, row, lane);
      rows, log := rows[id := row], log + [Entry(lane, asOf, obs.price)];
    }

    /** The first price of the lane, or another one: the open row is closed and a new one opened. */
    method Supersede(obs: Observation, lane: Lane, asOf: int, current: Option<nat>) returns (id: nat)
      requires Valid() && current == LatestOpen(rows, lane)
      modifies this
      ensures log == old(log) + [Entry(lane, asOf, obs.price)] && anomalies == old(anomalies)
      ensures rows == Changed(old(rows), RowOf(obs, lane, asOf, None, false))
      ensures id == |old(rows)| && LatestOpen(rows, lane) == Some(id)
    {
      id := |rows|;
      var row := RowOf(obs, lane, asOf, None, false);
      SupersededOneOpen(rows, obs, lane, asOf);
      var closed := rows;
      if current.Some? {
        closed := rows[current.value := rows[current.value].(validUntil := Some(asOf))];
      }
      rows, log := closed + [row], log + [Entry(lane, asOf, obs.price)];
    }

    /**
      `record_observation`.  Whatever came before, history and log stay in agreement exactly when the
      observation is quarantined or fits in.
     */
    method Record(obs: Observation, variant: nat, store: Option<nat>, asOf: int, quarantined: bool, kind: string) returns (id: nat)
      requires Valid()
      modifies this
      ensures Valid() && id < |rows|
      ensures var lane := Lane(variant, store, obs.scope, obs.priceType);
        log == if quarantined then old(log) else old(log) + [Entry(lane, asOf, obs.price)]
      ensures rows == Recorded(old(rows), obs, Lane(variant, store, obs.scope, obs.priceType), asOf, quarantined)
      ensures old(Faithful()) ==>
        (Faithful() <==> quarantined || Fits(old(rows), old(log), Lane(variant, store, obs.scope, obs.priceType), asOf, obs.price))
      ensures OnlyClosed(old(rows), rows)
      ensures quarantined ==> rows[id].disputed && anomalies == old(anomalies) + [Anomaly(id, kind)]
      ensures !quarantined ==>
        && LatestOpen(rows, Lane(variant, store, obs.scope, obs.priceType)) == Some(id)
        && rows[id].price == obs.price && rows[id].observedAt == obs.observedAt && rows[id].importedAt == asOf
        && anomalies == old(anomalies)
    {
      var lane := Lane(variant, store, obs.scope, obs.priceType);
      RecordedOneOpen(rows, obs, lane, asOf, quarantined);
      RecordedCarries(rows, log, obs, lane, asOf, quarantined);
      RecordedFaithful(rows, log, obs, lane, asOf, quarantined);
      var current := LatestOpen(rows, lane);
      if quarantined {
        id := Dispute(obs, lane, asOf, kind);
      } else if current.Some? && rows[current.value].price == obs.price {
        id := current.value;
        Revalidate(obs, lane, asOf, id);
      } else {
        id := Supersede(obs, lane, asOf, current);
      }
    }
  }

  // ----- The current price ----------------------------------------------------------------------

  predicate Selected(row: Row, variant: nat, store: Option<nat>, scope: Option<string>) {
    && row.lane.variant == variant && !row.disputed
    && (store.Some? ==> row.lane.store == store)
    && (scope.Some? ==> row.lane.scope == scope.value)
  }

  /** Open rows come first, then the latest observed. */
  predicate Fresher(a: Row, b: Row) {
    if a.validUntil.None? != b.validUntil.None? then a.validUntil.None? else a.observedAt >= b.observedAt
  }

  /** `_latest_valid` of production: ties go to the later row. */
  function LatestValid(rows: seq<Row>, variant: nat, store: Option<nat>, scope: Option<string>): (r: Option<nat>)
    ensures r.Some? ==> r.value < |rows| && Selected(rows[r.value], variant, store, scope)
    ensures r.None? ==> forall i | 0 <= i < |rows| :: !Selected(rows[i], variant, store, scope)
    ensures r.Some? ==> forall i | 0 <= i < |rows| && Selected(rows[i], variant, store, scope) :: Fresher(rows[r.value], rows[i])
  {
    if rows == [] then None
    else
      var last := |rows| - 1;
      var rest := LatestValid(rows[..last], variant, store, scope);
      if Selected(rows[last], variant, store, scope) && (rest.None? || Fresher(rows[last], rows[rest.value])) then Some(last)
      else rest
  }

  /**
    For a variant, store and scope with one type of price, the current price is the open row of that lane:
    the price of the last accepted observation.
   */
  lemma {:induction false} CurrentIsOpenRow(rows: seq<Row>, log: seq<Entry>, lane: Lane)
    requires Refines(rows, log) && lane.store.Some?
    requires forall i | 0 <= i < |rows| && Selected(rows[i], lane.variant, lane.store, Some(lane.scope)) ::
      rows[i].lane.priceType == lane.priceType
    ensures LatestValid(rows, lane.variant, lane.store, Some(lane.scope)) == LatestOpen(rows, lane)
    ensures LatestOpen(rows, lane).Some? ==> rows[LatestOpen(rows, lane).value].price == LastOf(log, lane).value.price
  {
    var valid, open := LatestValid(rows, lane.variant, lane.store, Some(lane.scope)), LatestOpen(rows, lane);
    forall i | 0 <= i < |rows| ensures Selected(rows[i], lane.variant, lane.store, Some(lane.scope)) <==> Serves(rows[i], lane) {
    }
    assert valid.Some? ==> LastOf(log, rows[valid.value].lane).Some?;
    if open.Some? {
      assert Fresher(rows[valid.value], rows[open.value]);
      OpenRowIsUnique(rows, valid.value, lane);
      var t := LastOf(log, lane).value.asOf;
      PriceAfterLast(log, lane, t);
      assert Contains(rows[open.value], t);
    }
  }
}
