/** What the pantry covers of a needed quantity. */
module Pantry {
  import opened Wrappers
  import opened Contracts
  import opened Units

  type Stock = map<string, seq<PantryItem>>

  predicate IsExpiredItem(item: PantryItem, asOf: Option<int>) {
    item.expiresAt.Some? && asOf.Some? && item.expiresAt.value < asOf.value
  }

  /** The items of one ingredient that have not expired, in their order. */
  function Fresh(pantry: seq<PantryItem>, name: string, asOf: Option<int>): seq<PantryItem> {
    if pantry == [] then []
    else
      var last := pantry[|pantry| - 1];
      Fresh(pantry[..|pantry| - 1], name, asOf)
      + if last.name == name && !IsExpiredItem(last, asOf) then [last] else []
  }

  /** Of an ingredient exactly the items count that do not expire before the day. */
  lemma {:induction false} FreshExactly(pantry: seq<PantryItem>, name: string, asOf: Option<int>, item: PantryItem)
    ensures item in Fresh(pantry, name, asOf) <==>
      item in pantry && item.name == name && (item.expiresAt.Some? && asOf.Some? ==> asOf.value <= item.expiresAt.value)
  {
    if pantry != [] {
      FreshExactly(pantry[..|pantry| - 1], name, asOf, item);
      assert pantry == pantry[..|pantry| - 1] + [pantry[|pantry| - 1]];
    }
  }

  function ItemsOf(stock: Stock, name: string): seq<PantryItem> {
    if name in stock then stock[name] else []
  }

  method IndexPantry(pantry: seq<PantryItem>, asOf: Option<int>) returns (stock: Stock)
    ensures forall name: string :: ItemsOf(stock, name) == Fresh(pantry, name, asOf)
  {
    stock := map[];
    for i := 0 to |pantry|
      invariant forall name: string :: ItemsOf(stock, name) == Fresh(pantry[..i], name, asOf)
    {
      var item := pantry[i];
      assert pantry[..i + 1][..i] == pantry[..i];
      if IsExpiredItem(item, asOf) {
        continue;
      }
      stock := stock[item.name := ItemsOf(stock, item.name) + [item]];
    }
    assert pantry[..|pantry|] == pantry;
  }

  /** The convertible part of the items, in the wanted unit. */
  function AvailableIn(items: seq<PantryItem>, factors: seq<Conversion>, name: string, unit: string): real {
    if items == [] then 0.0
    else
      var last := items[|items| - 1];
      var converted := ConvertFor(factors, last.quantity, last.unit, unit, Some(name));
      AvailableIn(items[..|items| - 1], factors, name, unit) + if converted.Defined? then converted.value else 0.0
  }

  function AvailableOf(stock: Stock, factors: seq<Conversion>, name: string, unit: string): real {
    AvailableIn(ItemsOf(stock, name), factors, name, unit)
  }

  method Available(stock: Stock, factors: seq<Conversion>, name: string, unit: string) returns (total: real)
    ensures total == AvailableOf(stock, factors, name, unit)
  {
    var items := ItemsOf(stock, name);
    total := 0.0;
    for i := 0 to |items|
      invariant total == AvailableIn(items[..i], factors, name, unit)
    {
      assert items[..i + 1][..i] == items[..i];
      var converted := ConvertFor(factors, items[i].quantity, items[i].unit, unit, Some(name));
      if converted.Undefined? {
        continue;
      }
      total := total + converted.value;
    }
    assert items[..|items|] == items;
  }

  /** What the pantry gives towards `needed`, and what is left to buy. */
  function Pending(available: real, needed: real): (real, real) {
    var used := if needed <= available then needed else available;
    (used, if needed - used < 0.0 then 0.0 else needed - used)
  }

  /** The pantry gives no more than it has or than is needed, and what it does not give is bought. */
  lemma {:induction false} PendingSplits(available: real, needed: real)
    ensures var (used, pending) := Pending(available, needed);
      && used <= available && used <= needed
      && used + pending == needed
      && (pending > 0.0 <==> needed > available)
      && (pending == 0.0 || pending == needed - available)
  {
  }

  ghost predicate NonNegativeStock(stock: Stock) {
    forall name, i | name in stock && 0 <= i < |stock[name]| :: stock[name][i].quantity >= 0.0
  }

  /** A conversion with non-negative factors keeps a quantity non-negative. */
  lemma {:induction false} ConvertNonNegative(factors: seq<Conversion>, q: real, f: string, t: string, name: Option<string>)
    requires q >= 0.0 && forall i | 0 <= i < |factors| :: factors[i].factor >= 0.0
    ensures ConvertFor(factors, q, f, t, name).Defined? ==> ConvertFor(factors, q, f, t, name).value >= 0.0
  {
    PlainNonNegative(q, f, t);
    if !SameDimension(f, t) && name.Some? {
      LookupNonNegative(factors, name.value, f, t);
      BridgedNonNegative(factors, q, name.value, f, t);
    }
  }

  lemma {:induction false} PlainNonNegative(q: real, f: string, t: string)
    requires q >= 0.0
    ensures ConvertPlain(q, f, t).Defined? ==> ConvertPlain(q, f, t).value >= 0.0
  {
    PositiveFactors(f);
    PositiveFactors(t);
  }

  lemma {:induction false} LookupNonNegative(factors: seq<Conversion>, name: string, f: string, t: string)
    requires forall i | 0 <= i < |factors| :: factors[i].factor >= 0.0
    ensures Lookup(factors, name, f, t).Defined? ==> Lookup(factors, name, f, t).value >= 0.0
  {
    if factors != [] && !Keyed(factors[0], name, f, t) {
      LookupNonNegative(factors[1..], name, f, t);
    }
  }

  lemma {:induction false} CrossNonNegative(e: Conversion, q: real, f: string, t: string)
    requires q >= 0.0 && e.factor >= 0.0
    ensures Cross(e, q, f, t).Defined? ==> Cross(e, q, f, t).value >= 0.0
  {
    PlainNonNegative(q, f, e.fromUnit);
    if ConvertPlain(q, f, e.fromUnit).Defined? {
      var a := ConvertPlain(q, f, e.fromUnit).value;
      var x := a * e.factor;
      assert x >= 0.0;
      CrossVia(e, q, f, t, a, x);
      PlainNonNegative(x, e.toUnit, t);
    }
  }

  lemma {:induction false} BridgedNonNegative(factors: seq<Conversion>, q: real, name: string, f: string, t: string)
    requires q >= 0.0 && forall i | 0 <= i < |factors| :: factors[i].factor >= 0.0
    ensures Bridged(factors, q, name, f, t).Defined? ==> Bridged(factors, q, name, f, t).value >= 0.0
  {
    if factors != [] {
      CrossNonNegative(factors[0], q, f, t);
      BridgedNonNegative(factors[1..], q, name, f, t);
    }
  }

  lemma {:induction false} AvailableNonNegative(items: seq<PantryItem>, factors: seq<Conversion>, name: string, unit: string)
    requires forall i | 0 <= i < |items| :: items[i].quantity >= 0.0
    requires forall i | 0 <= i < |factors| :: factors[i].factor >= 0.0
    ensures AvailableIn(items, factors, name, unit) >= 0.0
  {
    if items != [] {
      var last := items[|items| - 1];
      AvailableNonNegative(items[..|items| - 1], factors, name, unit);
      ConvertNonNegative(factors, last.quantity, last.unit, unit, Some(name));
    }
  }
}
