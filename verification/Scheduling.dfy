/** Distribution of the requested meals over the dates of a plan.  A date is its ordinal number. */
module Scheduling {
  import opened Wrappers
  import opened Collections
  import opened Sorting

  datatype Requirement = Requirement(
    mealType: string, requestedCount: nat, defaultServings: nat, selectedDates: seq<nat>, autoDistribute: bool,
    preferredDays: set<nat>, maximumMinutes: Option<int>, requiresTupper: bool, reheating: bool)

  datatype MealSlot = MealSlot(
    index: nat, date: nat, mealType: string, servings: nat, maximumMinutes: Option<int>,
    requiresTupper: bool, reheating: bool)

  function DatesInRange(start: nat, end: nat): (pool: seq<nat>)
    ensures pool != []
  {
    if end < start then [start] else seq(end - start + 1, i requires 0 <= i => start + i)
  }

  /** Monday is 0. */
  function Weekday(date: nat): nat {
    (date + 6) % 7
  }

  function OnDays(pool: seq<nat>, days: set<nat>): seq<nat> {
    if pool == [] then []
    else (if Weekday(pool[0]) in days then [pool[0]] else []) + OnDays(pool[1..], days)
  }

  function Cycle(source: seq<nat>, count: nat): (dates: seq<nat>)
    requires source != []
    ensures |dates| == count
  {
    seq(count, i requires 0 <= i < count => source[i % |source|])
  }

  /** The day of the pool on which the i-th of `count` meals falls. */
  function Place(i: nat, days: nat, count: nat): (d: nat)
    requires i < count && days > 0
    ensures d < days
  {
    PlaceInRange(i, days, count);
    (i * days) / count
  }

  lemma {:induction false} PlaceInRange(i: nat, days: nat, count: nat)
    requires i < count && days > 0
    ensures 0 <= (i * days) / count < days
  {
    Below(i * days, count, days);
    assert i * days < count * days;
  }

  /** A quotient is below a bound exactly when the dividend is below the scaled bound. */
  lemma {:induction false} Below(a: nat, b: nat, c: nat)
    requires b > 0
    ensures a / b < c <==> a < c * b
  {
    var q, r := a / b, a % b;
    assert a == q * b + r;
    if q < c {
      assert (q + 1) * b <= c * b;
    } else {
      assert c * b <= q * b;
    }
  }

  function Spread(pool: seq<nat>, count: nat): (dates: seq<nat>)
    requires pool != []
    ensures |dates| == count
  {
    seq(count, i requires 0 <= i < count => pool[Place(i, |pool|, count)])
  }

  function SortDates(dates: seq<nat>): seq<nat> {
    SortBy(dates, d => d)
  }

  function PickDates(req: Requirement, pool: seq<nat>): (dates: seq<nat>)
    requires pool != []
  {
    var count := req.requestedCount;
    if count == 0 then []
    else if req.selectedDates != [] then
      SortByCorrect(req.selectedDates, d => d, 0);
      assert |multiset(SortDates(req.selectedDates))| == |multiset(req.selectedDates)|;
      Cycle(SortDates(req.selectedDates), count)
    else if req.preferredDays != {} then
      var preferred := OnDays(pool, req.preferredDays);
      Cycle(if preferred != [] then preferred else pool, count)
    else if req.autoDistribute then
      Spread(pool, count)
    else
      Cycle(pool, count)
  }

  lemma {:induction false} PickDatesCount(req: Requirement, pool: seq<nat>)
    requires pool != []
    ensures |PickDates(req, pool)| == req.requestedCount
  {
  }

  // ----- Chosen and preferred days --------------------------------------------------------------

  /** Ordinal 1 is a Monday, and the days of the week follow one another in sevens. */
  lemma {:induction false} WeekdaysCycle(date: nat)
    ensures Weekday(1) == 0 && Weekday(date) < 7 && Weekday(date + 1) == (Weekday(date) + 1) % 7 && Weekday(date + 7) == Weekday(date)
  {
  }

  lemma {:induction false} OnDaysExactly(pool: seq<nat>, days: set<nat>, date: nat)
    ensures date in OnDays(pool, days) <==> date in pool && Weekday(date) in days
  {
    if pool != [] {
      OnDaysExactly(pool[1..], days, date);
    }
  }

  lemma {:induction false} CycleMembers(source: seq<nat>, count: nat)
    requires source != []
    ensures forall date | date in Cycle(source, count) :: date in source
    ensures count >= |source| ==> forall date | date in source :: date in Cycle(source, count)
  {
    var cycle := Cycle(source, count);
    forall date | date in source && count >= |source| ensures date in cycle {
      var i :| 0 <= i < |source| && source[i] == date;
      assert cycle[i] == date;
    }
  }

  /**
    Where days of the week are preferred and the range has one, meals fall on such days of the range only, and on all
    of them if there are enough meals.
   */
  lemma {:induction false} PreferredDaysOnly(req: Requirement, pool: seq<nat>, date: nat)
    requires pool != [] && req.selectedDates == [] && req.preferredDays != {} && req.requestedCount > 0
    requires exists d | d in pool :: Weekday(d) in req.preferredDays
    ensures date in PickDates(req, pool) ==> date in pool && Weekday(date) in req.preferredDays
    ensures req.requestedCount >= |pool| && date in pool && Weekday(date) in req.preferredDays ==> date in PickDates(req, pool)
  {
    var preferred := OnDays(pool, req.preferredDays);
    var d :| d in pool && Weekday(d) in req.preferredDays;
    OnDaysExactly(pool, req.preferredDays, d);
    OnDaysExactly(pool, req.preferredDays, date);
    OnDaysFewer(pool, req.preferredDays);
    CycleMembers(preferred, req.requestedCount);
  }

  lemma {:induction false} OnDaysFewer(pool: seq<nat>, days: set<nat>)
    ensures |OnDays(pool, days)| <= |pool|
  {
    if pool != [] {
      OnDaysFewer(pool[1..], days);
    }
  }

  /** Selected dates are the only ones, and each is used if there are enough meals. */
  lemma {:induction false} SelectedDatesOnly(req: Requirement, pool: seq<nat>, date: nat)
    requires pool != [] && req.selectedDates != [] && req.requestedCount > 0
    ensures date in PickDates(req, pool) ==> date in req.selectedDates
    ensures req.requestedCount >= |req.selectedDates| && date in req.selectedDates ==> date in PickDates(req, pool)
  {
    var sorted := SortDates(req.selectedDates);
    SortByCorrect(req.selectedDates, d => d, 0);
    assert |multiset(sorted)| == |multiset(req.selectedDates)|;
    SamePermutationMembers(sorted, req.selectedDates);
    CycleMembers(sorted, req.requestedCount);
  }

  // ----- Even spread ----------------------------------------------------------------------------

  /** The first meal that falls on day `d` or later. */
  function FirstOn(d: nat, days: nat, count: nat): nat
    requires days > 0
  {
    (d * count + days - 1) / days
  }

  lemma {:induction false} PlaceIs(i: nat, d: nat, days: nat, count: nat)
    requires i < count && days > 0
    ensures Place(i, days, count) < d <==> i < FirstOn(d, days, count)
  {
    Below(i * days, count, d);
    Below(d * count + days - 1, days, i + 1);
    assert (i + 1) * days == i * days + days;
  }

  lemma {:induction false} RoundUp(q: nat, r: nat, days: nat)
    requires r < days
    ensures (q * days + r + days - 1) / days == if r > 0 then q + 1 else q
  {
    DivideShift(r + days - 1, q, days);
    Below(r + days - 1, days, 1);
    Below(r + days - 1, days, 2);
  }

  lemma {:induction false} Steps(x: nat, q: nat, r: nat, days: nat)
    requires r < days
    ensures q <= (x + (q * days + r) + days - 1) / days - (x + days - 1) / days <= if r > 0 then q + 1 else q
  {
    DivideShift(x + days - 1 + r, q, days);
    DivideNear(x + days - 1, r, days);
  }

  /** `count` steps further, a rounded-up quotient grows by the floor or the ceiling of count / days. */
  lemma {:induction false} StepLength(x: nat, days: nat, count: nat)
    requires days > 0
    ensures var n := (x + count + days - 1) / days - (x + days - 1) / days;
      count / days <= n <= (count + days - 1) / days
  {
    var q, r := count / days, count % days;
    assert count == q * days + r;
    RoundUp(q, r, days);
    Steps(x, q, r, days);
  }

  /** Consecutive days start the floor or the ceiling of count / days meals apart. */
  lemma {:induction false} DayLength(d: nat, days: nat, count: nat)
    requires days > 0
    ensures var n := FirstOn(d + 1, days, count) - FirstOn(d, days, count);
      count / days <= n <= (count + days - 1) / days
  {
    assert (d + 1) * count == d * count + count;
    StepLength(d * count, days, count);
  }

  lemma {:induction false} DivideShift(x: nat, q: nat, n: nat)
    requires n > 0
    ensures (x + q * n) / n == x / n + q
  {
    Below(x + q * n, n, x / n + q);
    Below(x + q * n, n, x / n + q + 1);
    Below(x, n, x / n);
    Below(x, n, x / n + 1);
    assert (x / n + q) * n == x / n * n + q * n;
    assert (x / n + q + 1) * n == (x / n + 1) * n + q * n;
  }

  lemma {:induction false} DivideNear(x: nat, r: nat, n: nat)
    requires r < n
    ensures x / n <= (x + r) / n <= x / n + 1
    ensures r == 0 ==> (x + r) / n == x / n
  {
    Below(x, n, x / n);
    Below(x, n, x / n + 1);
    Below(x + r, n, x / n);
    Below(x + r, n, x / n + 2);
    assert (x / n + 2) * n == (x / n + 1) * n + n;
  }

  /** An element that fills exactly the positions from `a` to `b` occurs `b - a` times. */
  lemma {:induction false} Occurrences<T>(s: seq<T>, x: T, a: nat, b: nat)
    requires a <= b <= |s|
    requires forall i | 0 <= i < |s| :: s[i] == x <==> a <= i < b
    ensures multiset(s)[x] == b - a
  {
    if s != [] {
      var last := |s| - 1;
      SplitLast(s);
      Occurrences(s[..last], x, if a <= last then a else last, if b <= last then b else last);
    }
  }

  lemma {:induction false} FirstOnAtMost(d: nat, days: nat, count: nat)
    requires 0 <= d <= days && days > 0
    ensures FirstOn(d, days, count) <= count
  {
    Below(d * count + days - 1, days, count + 1);
    assert d * count <= days * count;
    assert (count + 1) * days == days * count + days;
  }

  ghost predicate Ascending(pool: seq<nat>) {
    forall i, j | 0 <= i < j < |pool| :: pool[i] < pool[j]
  }

  lemma {:induction false} SpreadOrdered(pool: seq<nat>, count: nat)
    requires pool != [] && Ascending(pool)
    ensures forall i, j | 0 <= i < j < count :: Spread(pool, count)[i] <= Spread(pool, count)[j]
  {
    var days := |pool|;
    forall i, j | 0 <= i < j < count ensures Place(i, days, count) <= Place(j, days, count) {
      PlaceIs(i, Place(j, days, count) + 1, days, count);
      PlaceIs(j, Place(j, days, count) + 1, days, count);
    }
  }

  lemma {:induction false} SpreadOn(pool: seq<nat>, count: nat, d: nat, i: nat)
    requires d < |pool| && Ascending(pool) && i < count
    ensures Spread(pool, count)[i] == pool[d] <==> FirstOn(d, |pool|, count) <= i < FirstOn(d + 1, |pool|, count)
  {
    PlaceIs(i, d, |pool|, count);
    PlaceIs(i, d + 1, |pool|, count);
    var p := Place(i, |pool|, count);
    assert p < d ==> pool[p] < pool[d];
    assert d < p ==> pool[d] < pool[p];
  }

  /** `x` stands exactly at the positions from `a` to `b`. */
  ghost predicate Occupies(dates: seq<nat>, x: nat, a: nat, b: nat) {
    a <= b <= |dates| && forall i | 0 <= i < |dates| :: dates[i] == x <==> a <= i < b
  }

  lemma {:induction false} OccurrencesIn(dates: seq<nat>, x: nat, a: nat, b: nat)
    requires Occupies(dates, x, a, b)
    ensures multiset(dates)[x] == b - a
  {
    Occurrences(dates, x, a, b);
  }

  lemma {:induction false} SpreadOccupies(pool: seq<nat>, count: nat, d: nat, a: nat, b: nat)
    requires d < |pool| && Ascending(pool)
    requires a == FirstOn(d, |pool|, count) && b == FirstOn(d + 1, |pool|, count)
    requires a <= b <= count
    ensures Occupies(Spread(pool, count), pool[d], a, b)
  {
    forall i | 0 <= i < count ensures Spread(pool, count)[i] == pool[d] <==> a <= i < b {
      SpreadOn(pool, count, d, i);
    }
  }

  lemma {:induction false} SpreadCount(pool: seq<nat>, count: nat, d: nat)
    requires d < |pool| && Ascending(pool)
    ensures multiset(Spread(pool, count))[pool[d]] == FirstOn(d + 1, |pool|, count) - FirstOn(d, |pool|, count)
  {
    var a, b := FirstOn(d, |pool|, count), FirstOn(d + 1, |pool|, count);
    FirstOnAtMost(d + 1, |pool|, count);
    DayLength(d, |pool|, count);
    SpreadOccupies(pool, count, d, a, b);
    OccurrencesIn(Spread(pool, count), pool[d], a, b);
  }

  /** The spread goes through the pool in order and uses every day count / days times, rounded down or up. */
  lemma {:induction false} EvenSpread(pool: seq<nat>, count: nat, d: nat)
    requires d < |pool| && Ascending(pool)
    ensures var dates := Spread(pool, count);
      && |dates| == count
      && (forall i, j | 0 <= i < j < |dates| :: dates[i] <= dates[j])
      && (forall i | 0 <= i < |dates| :: dates[i] in pool)
      && count / |pool| <= multiset(dates)[pool[d]] <= (count + |pool| - 1) / |pool|
  {
    SpreadOrdered(pool, count);
    SpreadCount(pool, count, d);
    DayLength(d, |pool|, count);
  }

  /** With automatic distribution and no other wish, the dates of a range are spread evenly. */
  lemma {:induction false} AutoDistributeIsEven(req: Requirement, start: nat, end: nat, d: nat)
    requires req.selectedDates == [] && req.preferredDays == {} && req.autoDistribute
    requires d < |DatesInRange(start, end)|
    ensures var pool := DatesInRange(start, end);
      var dates := PickDates(req, pool);
      && (forall i, j | 0 <= i < j < |dates| :: dates[i] <= dates[j])
      && (forall i | 0 <= i < |dates| :: dates[i] in pool)
      && req.requestedCount / |pool| <= multiset(dates)[pool[d]] <= (req.requestedCount + |pool| - 1) / |pool|
  {
    var pool := DatesInRange(start, end);
    EvenSpread(pool, req.requestedCount, d);
    assert Spread(pool, 0) == [];
  }

  // ----- The schedule ---------------------------------------------------------------------------

  function MealOrder(mealType: string): nat {
    if mealType == "breakfast" then 0
    else if mealType == "lunch" then 1
    else if mealType == "snack" then 2
    else if mealType == "dinner" then 3
    else 99
  }

  /** Orders by date and then by meal. */
  function SlotKey(slot: MealSlot): nat {
    slot.date * 100 + MealOrder(slot.mealType)
  }

  lemma {:induction false} SlotKeyOrders(a: MealSlot, b: MealSlot)
    ensures SlotKey(a) <= SlotKey(b) <==>
      a.date < b.date || (a.date == b.date && MealOrder(a.mealType) <= MealOrder(b.mealType))
  {
  }

  function NewSlot(req: Requirement, date: nat): MealSlot {
    MealSlot(0, date, req.mealType, req.defaultServings, req.maximumMinutes, req.requiresTupper, req.reheating)
  }

  function SlotsOf(req: Requirement, dates: seq<nat>): seq<MealSlot> {
    seq(|dates|, i requires 0 <= i < |dates| => NewSlot(req, dates[i]))
  }

  /** The slots asked for, before sorting. */
  function Requested(reqs: seq<Requirement>, pool: seq<nat>): seq<MealSlot>
    requires pool != []
  {
    if reqs == [] then []
    else Requested(reqs[..|reqs| - 1], pool) + SlotsOf(reqs[|reqs| - 1], PickDates(reqs[|reqs| - 1], pool))
  }

  function TotalRequested(reqs: seq<Requirement>): nat {
    if reqs == [] then 0 else TotalRequested(reqs[..|reqs| - 1]) + reqs[|reqs| - 1].requestedCount
  }

  lemma {:induction false} RequestedCount(reqs: seq<Requirement>, pool: seq<nat>)
    requires pool != []
    ensures |Requested(reqs, pool)| == TotalRequested(reqs)
  {
    if reqs != [] {
      RequestedCount(reqs[..|reqs| - 1], pool);
      PickDatesCount(reqs[|reqs| - 1], pool);
    }
  }

  function Unindexed(slots: seq<MealSlot>): seq<MealSlot> {
    seq(|slots|, i requires 0 <= i < |slots| => slots[i].(index := 0))
  }

  /** What a schedule is: the requested slots, sorted, in the requested order where they tie, and indexed. */
  ghost predicate IsSchedule(slots: seq<MealSlot>, reqs: seq<Requirement>, pool: seq<nat>)
    requires pool != []
  {
    && |slots| == TotalRequested(reqs)
    && (forall i | 0 <= i < |slots| :: slots[i].index == i)
    && (forall i, j | 0 <= i < j < |slots| :: SlotKey(slots[i]) <= SlotKey(slots[j]))
    && multiset(Unindexed(slots)) == multiset(Requested(reqs, pool))
    && (forall k: nat :: WithKey(Unindexed(slots), SlotKey, k) == WithKey(Requested(reqs, pool), SlotKey, k))
  }

  /** The slot is for the requirement: its meal, servings and time, on one of the dates picked for it. */
  predicate AskedBy(slot: MealSlot, req: Requirement, pool: seq<nat>)
    requires pool != []
  {
    && slot.mealType == req.mealType && slot.servings == req.defaultServings && slot.maximumMinutes == req.maximumMinutes
    && slot.requiresTupper == req.requiresTupper && slot.reheating == req.reheating
    && slot.date in PickDates(req, pool)
  }

  lemma {:induction false} RequestedIsAsked(reqs: seq<Requirement>, pool: seq<nat>, slot: MealSlot)
    requires pool != [] && slot in Requested(reqs, pool)
    ensures exists req | req in reqs :: AskedBy(slot, req, pool)
  {
    var rest, last := reqs[..|reqs| - 1], reqs[|reqs| - 1];
    if slot in Requested(rest, pool) {
      RequestedIsAsked(rest, pool, slot);
    } else {
      assert AskedBy(slot, last, pool);
    }
  }

  /** Every slot of a schedule is for one of the requirements. */
  lemma {:induction false} ScheduledIsAsked(slots: seq<MealSlot>, reqs: seq<Requirement>, pool: seq<nat>, k: nat)
    requires pool != [] && IsSchedule(slots, reqs, pool) && k < |slots|
    ensures exists req | req in reqs :: AskedBy(slots[k], req, pool)
  {
    var slot := Unindexed(slots)[k];
    assert slot in multiset(Unindexed(slots));
    assert slot in multiset(Requested(reqs, pool));
    RequestedIsAsked(reqs, pool, slot);
    var req :| req in reqs && AskedBy(slot, req, pool);
    assert AskedBy(slots[k], req, pool);
  }

  method AppendSlots(before: seq<MealSlot>, req: Requirement, dates: seq<nat>) returns (slots: seq<MealSlot>)
    ensures slots == before + SlotsOf(req, dates)
  {
    slots := before;
    for i := 0 to |dates|
      invariant slots == before + SlotsOf(req, dates)[..i]
    {
      slots := slots + [NewSlot(req, dates[i])];
    }
  }

  method Schedule(reqs: seq<Requirement>, start: nat, end: nat) returns (slots: seq<MealSlot>)
    ensures IsSchedule(slots, reqs, DatesInRange(start, end))
  {
    var pool := DatesInRange(start, end);
    var requested: seq<MealSlot> := [];
    for r := 0 to |reqs|
      invariant requested == Requested(reqs[..r], pool)
    {
      assert reqs[..r + 1][..r] == reqs[..r];
      requested := AppendSlots(requested, reqs[r], PickDates(reqs[r], pool));
    }
    assert reqs[..|reqs|] == reqs;
    var sorted := SortBy(requested, SlotKey);
    slots := seq(|sorted|, i requires 0 <= i < |sorted| => sorted[i].(index := i));
    Indexed(reqs, pool, sorted, slots);
  }

  lemma {:induction false} AllUnindexed(reqs: seq<Requirement>, pool: seq<nat>)
    requires pool != []
    ensures forall slot | slot in Requested(reqs, pool) :: slot.index == 0
  {
    if reqs != [] {
      AllUnindexed(reqs[..|reqs| - 1], pool);
    }
  }

  lemma {:induction false} Indexed(reqs: seq<Requirement>, pool: seq<nat>, sorted: seq<MealSlot>, slots: seq<MealSlot>)
    requires pool != [] && sorted == SortBy(Requested(reqs, pool), SlotKey)
    requires |slots| == |sorted| && forall i | 0 <= i < |slots| :: slots[i] == sorted[i].(index := i)
    ensures IsSchedule(slots, reqs, pool)
  {
    var requested := Requested(reqs, pool);
    RequestedCount(reqs, pool);
    AllUnindexed(reqs, pool);
    SortByCorrect(requested, SlotKey, 0);
    SamePermutationMembers(sorted, requested);
    forall i | 0 <= i < |sorted| ensures sorted[i].index == 0 {
      assert sorted[i] in sorted;
    }
    assert Unindexed(slots) == sorted;
    forall k: nat ensures WithKey(sorted, SlotKey, k) == WithKey(requested, SlotKey, k) {
      SortByCorrect(requested, SlotKey, k);
    }
  }
}
