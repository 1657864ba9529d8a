/**
  Unit conversion.  Units are taken in normalised form (trimmed, lower case), and arithmetic is exact.
 */
module Units {
  import opened Wrappers

  /** The result of a conversion, or the `ConversionError` it raises. */
  datatype Converted = Undefined | Defined(value: real)

  // ----- Within one dimension -------------------------------------------------------------------

  function MassToG(unit: string): real {
    match unit
    case "g" => 1.0
    case "kg" => 1000.0
    case "mg" => 0.001
    case "pizca" => 0.5
    case _ => 0.0
  }

  function VolumeToMl(unit: string): real {
    match unit
    case "ml" => 1.0
    case "l" => 1000.0
    case "cl" => 10.0
    case "cucharada" => 15.0
    case "cucharadita" => 5.0
    case "vaso" => 200.0
    case "taza" => 240.0
    case _ => 0.0
  }

  predicate IsMass(unit: string) {
    unit in {"g", "kg", "mg", "pizca"}
  }

  predicate IsVolume(unit: string) {
    unit in {"ml", "l", "cl", "cucharada", "cucharadita", "vaso", "taza"}
  }

  predicate IsCount(unit: string) {
    unit in {"unit", "unidad", "unidades", "ud", "uds", "u", "piece", "pcs"}
  }

  datatype Dimension = Mass | Volume | Count

  /** The quantity in the base unit of its dimension, or nothing for an unknown unit. */
  function ToBase(quantity: real, unit: string): Option<(real, Dimension)> {
    if IsMass(unit) then Some((quantity * MassToG(unit), Mass))
    else if IsVolume(unit) then Some((quantity * VolumeToMl(unit), Volume))
    else if IsCount(unit) then Some((quantity, Count))
    else None
  }

  /** `convert` without an ingredient: only the fixed factors apply. */
  function ConvertPlain(quantity: real, f: string, t: string): Converted {
    if f == t then Defined(quantity)
    else if IsMass(f) && IsMass(t) then (PositiveFactors(t); Defined(quantity * MassToG(f) / MassToG(t)))
    else if IsVolume(f) && IsVolume(t) then (PositiveFactors(t); Defined(quantity * VolumeToMl(f) / VolumeToMl(t)))
    else if IsCount(f) && IsCount(t) then Defined(quantity)
    else Undefined
  }

  lemma {:induction false} PositiveFactors(unit: string)
    ensures IsMass(unit) ==> MassToG(unit) > 0.0
    ensures IsVolume(unit) ==> VolumeToMl(unit) > 0.0
  {
  }

  predicate SameDimension(f: string, t: string) {
    f == t || (IsMass(f) && IsMass(t)) || (IsVolume(f) && IsVolume(t)) || (IsCount(f) && IsCount(t))
  }

  lemma {:induction false} DimensionsDisjoint(u: string)
    ensures !(IsMass(u) && IsVolume(u)) && !(IsMass(u) && IsCount(u)) && !(IsVolume(u) && IsCount(u))
  {
  }

  lemma {:induction false} SameDimensionTransitive(a: string, b: string, c: string)
    requires SameDimension(a, b) && SameDimension(b, c)
    ensures SameDimension(a, c) && SameDimension(c, a)
  {
    DimensionsDisjoint(b);
  }

  lemma {:induction false} Rescale(q: real, a: real, b: real)
    requires a != 0.0 && b != 0.0
    ensures (q * a / b) * b / a == q
  {
    assert (q * a / b) * b == q * a;
  }

  /** A fixed conversion succeeds exactly within one dimension and is undone by the reverse one. */
  lemma {:induction false} PlainRoundTrip(q: real, f: string, t: string)
    ensures ConvertPlain(q, f, t).Defined? <==> SameDimension(f, t)
    ensures ConvertPlain(q, f, t).Defined? ==> ConvertPlain(ConvertPlain(q, f, t).value, t, f) == Defined(q)
  {
    PositiveFactors(f);
    PositiveFactors(t);
    DimensionsDisjoint(f);
    if f != t && IsMass(f) && IsMass(t) {
      Rescale(q, MassToG(f), MassToG(t));
    } else if f != t && IsVolume(f) && IsVolume(t) {
      Rescale(q, VolumeToMl(f), VolumeToMl(t));
    }
  }

  /** A fixed conversion keeps the quantity in the base unit. */
  lemma {:induction false} PlainKeepsBase(q: real, f: string, t: string)
    requires ConvertPlain(q, f, t).Defined? && ToBase(q, f).Some?
    ensures ToBase(ConvertPlain(q, f, t).value, t) == ToBase(q, f)
  {
    PositiveFactors(t);
    DimensionsDisjoint(f);
  }

  /** How much of the unit `t` one of the unit `f` is. */
  function Rate(f: string, t: string): Converted {
    ConvertPlain(1.0, f, t)
  }

  lemma {:induction false} ScaledBy(q: real, a: real, b: real)
    requires b > 0.0
    ensures q * a / b == q * (1.0 * a / b)
  {
  }

  lemma {:induction false} MassByRate(q: real, f: string, t: string)
    requires f != t && IsMass(f) && IsMass(t)
    ensures Rate(f, t).Defined? && ConvertPlain(q, f, t) == Defined(q * Rate(f, t).value)
  {
    PositiveFactors(t);
    var a, b := MassToG(f), MassToG(t);
    ScaledBy(q, a, b);
    assert Rate(f, t) == Defined(1.0 * a / b) && ConvertPlain(q, f, t) == Defined(q * a / b);
  }

  lemma {:induction false} VolumeConverts(q: real, f: string, t: string)
    requires f != t && IsVolume(f) && IsVolume(t)
    ensures VolumeToMl(t) > 0.0 && ConvertPlain(q, f, t) == Defined(q * VolumeToMl(f) / VolumeToMl(t))
  {
    PositiveFactors(t);
    DimensionsDisjoint(f);
  }

  lemma {:induction false} VolumeByRate(q: real, f: string, t: string)
    requires f != t && IsVolume(f) && IsVolume(t)
    ensures Rate(f, t).Defined? && ConvertPlain(q, f, t) == Defined(q * Rate(f, t).value)
  {
    VolumeConverts(q, f, t);
    VolumeConverts(1.0, f, t);
    ScaledBy(q, VolumeToMl(f), VolumeToMl(t));
  }

  lemma {:induction false} ConvertsByRate(q: real, f: string, t: string)
    ensures ConvertPlain(q, f, t).Defined? <==> Rate(f, t).Defined?
    ensures Rate(f, t).Defined? ==> ConvertPlain(q, f, t) == Defined(q * Rate(f, t).value)
  {
    PlainRoundTrip(q, f, t);
    PlainRoundTrip(1.0, f, t);
    if f != t && IsMass(f) && IsMass(t) {
      MassByRate(q, f, t);
    } else if f != t && IsVolume(f) && IsVolume(t) {
      VolumeByRate(q, f, t);
    } else if Rate(f, t).Defined? {
      assert Rate(f, t) == Defined(1.0) && ConvertPlain(q, f, t) == Defined(q);
    }
  }

  // ----- Declared conversions -------------------------------------------------------------------

  /** `quantity` of `fromUnit` times `factor` is the quantity of `toUnit`, for one ingredient. */
  datatype Conversion = Conversion(name: string, fromUnit: string, toUnit: string, factor: real)

  predicate SameKey(a: Conversion, b: Conversion) {
    a.name == b.name && a.fromUnit == b.fromUnit && a.toUnit == b.toUnit
  }

  predicate Keyed(e: Conversion, name: string, f: string, t: string) {
    e.name == name && e.fromUnit == f && e.toUnit == t
  }

  /** Assignment to a dictionary kept in insertion order: an existing key keeps its position. */
  function Put(factors: seq<Conversion>, e: Conversion): seq<Conversion> {
    if factors == [] then [e]
    else if SameKey(factors[0], e) then [e] + factors[1..]
    else [factors[0]] + Put(factors[1..], e)
  }

  function Reverse(c: Conversion): Conversion
    requires c.factor != 0.0
  {
    Conversion(c.name, c.toUnit, c.fromUnit, 1.0 / c.factor)
  }

  /** What the constructor does for one declared conversion. */
  function Declare(factors: seq<Conversion>, c: Conversion): seq<Conversion> {
    if c.factor == 0.0 then Put(factors, c) else Put(Put(factors, c), Reverse(c))
  }

  function Declared(conversions: seq<Conversion>): seq<Conversion> {
    if conversions == [] then []
    else Declare(Declared(conversions[..|conversions| - 1]), conversions[|conversions| - 1])
  }

  function Lookup(factors: seq<Conversion>, name: string, f: string, t: string): Converted {
    if factors == [] then Undefined
    else if Keyed(factors[0], name, f, t) then Defined(factors[0].factor)
    else Lookup(factors[1..], name, f, t)
  }

  /** From `f` to the entry's first unit, across by its factor, and from its second unit to `t`. */
  function Cross(e: Conversion, q: real, f: string, t: string): Converted {
    var toFirst := ConvertPlain(q, f, e.fromUnit);
    if toFirst.Undefined? then Undefined else ConvertPlain(toFirst.value * e.factor, e.toUnit, t)
  }

  /** The first entry of the ingredient that bridges the two units decides. */
  function Bridged(factors: seq<Conversion>, q: real, name: string, f: string, t: string): Converted {
    if factors == [] then Undefined
    else if factors[0].name == name && Cross(factors[0], q, f, t).Defined? then Cross(factors[0], q, f, t)
    else Bridged(factors[1..], q, name, f, t)
  }

  function ConvertFor(factors: seq<Conversion>, q: real, f: string, t: string, name: Option<string>): Converted {
    if SameDimension(f, t) || name.None? then ConvertPlain(q, f, t)
    else
      var direct := Lookup(factors, name.value, f, t);
      if direct.Defined? then Defined(q * direct.value) else Bridged(factors, q, name.value, f, t)
  }

  // ----- A declared factor applies forwards -----------------------------------------------------

  /** The two declarations are about one ingredient and one pair of units, in either direction. */
  predicate SamePair(a: Conversion, b: Conversion) {
    && a.name == b.name
    && ((a.fromUnit == b.fromUnit && a.toUnit == b.toUnit) || (a.fromUnit == b.toUnit && a.toUnit == b.fromUnit))
  }

  /** No later declaration is about the same pair. */
  ghost predicate LastOfPair(conversions: seq<Conversion>, i: nat) {
    i < |conversions| && forall j | i < j < |conversions| :: !SamePair(conversions[i], conversions[j])
  }

  lemma {:induction false} LookupPut(factors: seq<Conversion>, e: Conversion, name: string, f: string, t: string)
    ensures Lookup(Put(factors, e), name, f, t) == if Keyed(e, name, f, t) then Defined(e.factor) else Lookup(factors, name, f, t)
  {
    if factors != [] && !SameKey(factors[0], e) {
      LookupPut(factors[1..], e, name, f, t);
    }
  }

  lemma {:induction false} LookupDeclare(factors: seq<Conversion>, c: Conversion, name: string, f: string, t: string)
    ensures f != t && Keyed(c, name, f, t) ==> Lookup(Declare(factors, c), name, f, t) == Defined(c.factor)
    ensures f != t && Keyed(c, name, t, f) && c.factor != 0.0 ==>
      Lookup(Declare(factors, c), name, f, t) == Defined(1.0 / c.factor)
    ensures !Keyed(c, name, f, t) && !Keyed(c, name, t, f) ==> Lookup(Declare(factors, c), name, f, t) == Lookup(factors, name, f, t)
  {
    LookupPut(factors, c, name, f, t);
    if c.factor != 0.0 {
      LookupPut(Put(factors, c), Reverse(c), name, f, t);
    }
  }

  /** The last declaration of a pair is what is found for it: its factor forwards, the reciprocal backwards. */
  lemma {:induction false} LastIsFound(conversions: seq<Conversion>, i: nat)
    requires LastOfPair(conversions, i) && conversions[i].fromUnit != conversions[i].toUnit
    ensures var c := conversions[i];
      && Lookup(Declared(conversions), c.name, c.fromUnit, c.toUnit) == Defined(c.factor)
      && (c.factor != 0.0 ==> Lookup(Declared(conversions), c.name, c.toUnit, c.fromUnit) == Defined(1.0 / c.factor))
  {
    var rest, last, c := conversions[..|conversions| - 1], conversions[|conversions| - 1], conversions[i];
    LookupDeclare(Declared(rest), last, c.name, c.fromUnit, c.toUnit);
    LookupDeclare(Declared(rest), last, c.name, c.toUnit, c.fromUnit);
    if i < |conversions| - 1 {
      assert !SamePair(c, last);
      LastIsFound(rest, i);
    }
  }

  /** Between units of two dimensions, a declared factor multiplies what is converted forwards and divides what is converted back. */
  lemma {:induction false} DeclaredForwards(conversions: seq<Conversion>, i: nat, q: real)
    requires LastOfPair(conversions, i) && !SameDimension(conversions[i].fromUnit, conversions[i].toUnit)
    ensures var c := conversions[i];
      && ConvertFor(Declared(conversions), q, c.fromUnit, c.toUnit, Some(c.name)) == Defined(q * c.factor)
      && (c.factor != 0.0 ==> ConvertFor(Declared(conversions), q, c.toUnit, c.fromUnit, Some(c.name)) == Defined(q * (1.0 / c.factor)))
  {
    LastIsFound(conversions, i);
  }

  /** Every entry of the table is a declaration or the reverse of one. */
  lemma {:induction false} DeclaredEntry(conversions: seq<Conversion>, e: Conversion)
    requires e in Declared(conversions)
    ensures exists j | 0 <= j < |conversions| ::
      e == conversions[j] || (conversions[j].factor != 0.0 && e == Reverse(conversions[j]))
  {
    var last := |conversions| - 1;
    var before, c := Declared(conversions[..last]), conversions[last];
    if e in before {
      DeclaredEntry(conversions[..last], e);
    } else if c.factor == 0.0 {
      PutMember(before, c, e);
    } else {
      PutMember(before, c, e);
      PutMember(Put(before, c), Reverse(c), e);
    }
  }

  lemma {:induction false} PutMember(factors: seq<Conversion>, e: Conversion, x: Conversion)
    ensures x in Put(factors, e) ==> x in factors || x == e
  {
    if factors != [] && !SameKey(factors[0], e) {
      PutMember(factors[1..], e, x);
    }
  }

  lemma {:induction false} LookupMember(factors: seq<Conversion>, c: Conversion)
    requires Lookup(factors, c.name, c.fromUnit, c.toUnit) == Defined(c.factor)
    ensures c in factors
  {
    if !Keyed(factors[0], c.name, c.fromUnit, c.toUnit) {
      LookupMember(factors[1..], c);
    }
  }

  /**
    Where a density is all that is declared for an ingredient, a quantity is multiplied by it in the units of
    the declaration, whatever units of the two dimensions it is given in and asked for.
   */
  lemma {:induction false} DensityForwards(conversions: seq<Conversion>, i: nat, q: real, f: string, t: string)
    requires i < |conversions| && forall j | 0 <= j < |conversions| && j != i :: conversions[j].name != conversions[i].name
    requires SameDimension(f, conversions[i].fromUnit) && SameDimension(conversions[i].toUnit, t) && !SameDimension(f, t)
    ensures var c, r := conversions[i], ConvertFor(Declared(conversions), q, f, t, Some(conversions[i].name));
      && r.Defined? && ConvertPlain(q, f, c.fromUnit).Defined?
      && ConvertPlain(r.value, t, c.toUnit) == Times(ConvertPlain(q, f, c.fromUnit), c.factor)
  {
    var c, s := conversions[i], Declared(conversions);
    assert ConvertPlain(q, f, c.fromUnit).Defined? by { PlainRoundTrip(q, f, c.fromUnit); }
    var x := Times(ConvertPlain(q, f, c.fromUnit), c.factor).value;
    assert ConvertFor(s, q, f, t, Some(c.name)) == ConvertPlain(x, c.toUnit, t) by { LoneBridge(conversions, i, q, f, t, x); }
    assert ConvertPlain(x, c.toUnit, t).Defined? && ConvertPlain(ConvertPlain(x, c.toUnit, t).value, t, c.toUnit) == Defined(x) by {
      PlainRoundTrip(x, c.toUnit, t);
    }
  }

  /** A converted quantity times a factor. */
  function Times(quantity: Converted, factor: real): Converted {
    if quantity.Defined? then Defined(quantity.value * factor) else Undefined
  }

  /** The one declaration of the ingredient is what converts the quantity. */
  lemma {:induction false} LoneBridge(conversions: seq<Conversion>, i: nat, q: real, f: string, t: string, x: real)
    requires i < |conversions| && forall j | 0 <= j < |conversions| && j != i :: conversions[j].name != conversions[i].name
    requires SameDimension(f, conversions[i].fromUnit) && SameDimension(conversions[i].toUnit, t) && !SameDimension(f, t)
    requires ConvertPlain(q, f, conversions[i].fromUnit).Defined?
    requires Defined(x) == Times(ConvertPlain(q, f, conversions[i].fromUnit), conversions[i].factor)
    ensures ConvertFor(Declared(conversions), q, f, t, Some(conversions[i].name)) == ConvertPlain(x, conversions[i].toUnit, t)
  {
    var c, s := conversions[i], Declared(conversions);
    LoneEntry(conversions, i, f, t);
    if Lookup(s, c.name, f, t).Defined? {
      LoneDirect(s, c, q, x);
    } else {
      LoneCrossing(s, c, q, f, t, x);
    }
  }

  lemma {:induction false} LoneDirect(s: seq<Conversion>, c: Conversion, q: real, x: real)
    requires !SameDimension(c.fromUnit, c.toUnit) && Lookup(s, c.name, c.fromUnit, c.toUnit) == Defined(c.factor)
    requires Defined(x) == Times(ConvertPlain(q, c.fromUnit, c.fromUnit), c.factor)
    ensures ConvertFor(s, q, c.fromUnit, c.toUnit, Some(c.name)) == ConvertPlain(x, c.toUnit, c.toUnit)
  {
  }

  lemma {:induction false} LoneCrossing(s: seq<Conversion>, c: Conversion, q: real, f: string, t: string, x: real)
    requires !SameDimension(f, t) && Lookup(s, c.name, f, t).Undefined?
    requires var k := FirstBridge(s, c.name, f, t); k < |s| && s[k] == c
    requires Defined(x) == Times(ConvertPlain(q, f, c.fromUnit), c.factor)
    ensures ConvertFor(s, q, f, t, Some(c.name)) == ConvertPlain(x, c.toUnit, t)
  {
    BridgedFirst(s, q, c.name, f, t);
    CrossVia(c, q, f, t, ConvertPlain(q, f, c.fromUnit).value, x);
  }

  lemma {:induction false} LoneEntry(conversions: seq<Conversion>, i: nat, f: string, t: string)
    requires i < |conversions| && forall j | 0 <= j < |conversions| && j != i :: conversions[j].name != conversions[i].name
    requires Bridges(conversions[i], conversions[i].name, f, t) && !SameDimension(f, t)
    ensures var c, s := conversions[i], Declared(conversions);
      var k := FirstBridge(s, c.name, f, t);
      && k < |s| && s[k] == c
      && (Lookup(s, c.name, f, t).Defined? ==> c.fromUnit == f && c.toUnit == t && Lookup(s, c.name, f, t) == Defined(c.factor))
  {
    var c, s := conversions[i], Declared(conversions);
    BridgeIsNoSelf(c, c.name, f, t);
    BridgesOneWay(c, c.name, f, t);
    LastIsFound(conversions, i);
    LookupMember(s, c);
    var k := FirstBridge(s, c.name, f, t);
    assert k < |s|;
    DeclaredEntry(conversions, s[k]);
    LookupFind(s, c.name, f, t);
    var l := Find(s, Conversion(c.name, f, t, 0.0));
    if l < |s| {
      DeclaredEntry(conversions, s[l]);
    }
  }

  // ----- The converter --------------------------------------------------------------------------

  class UnitConverter {
    var factors: seq<Conversion>

    constructor (conversions: seq<Conversion>)
      ensures factors == Declared(conversions)
      ensures forall i: nat | LastOfPair(conversions, i) && conversions[i].fromUnit != conversions[i].toUnit ::
        Lookup(factors, conversions[i].name, conversions[i].fromUnit, conversions[i].toUnit) == Defined(conversions[i].factor)
    {
      factors := [];
      new;
      for i := 0 to |conversions|
        invariant factors == Declared(conversions[..i])
      {
        assert conversions[..i + 1][..i] == conversions[..i];
        var c := conversions[i];
        factors := Put(factors, c);
        if c.factor != 0.0 {
          factors := Put(factors, Conversion(c.name, c.toUnit, c.fromUnit, 1.0 / c.factor));
        }
      }
      assert conversions[..|conversions|] == conversions;
      forall i: nat | LastOfPair(conversions, i) && conversions[i].fromUnit != conversions[i].toUnit
        ensures Lookup(factors, conversions[i].name, conversions[i].fromUnit, conversions[i].toUnit) == Defined(conversions[i].factor)
      {
        LastIsFound(conversions, i);
      }
    }

    method Bridge(q: real, f: string, t: string, name: string) returns (r: Converted)
      ensures r == Bridged(factors, q, name, f, t)
    {
      for i := 0 to |factors|
        invariant Bridged(factors, q, name, f, t) == Bridged(factors[i..], q, name, f, t)
      {
        var e := factors[i];
        assert factors[i..][0] == e && factors[i..][1..] == factors[i + 1..];
        if e.name != name {
          continue;
        }
        var result := Cross(e, q, f, t);
        if result.Defined? {
          return result;
        }
      }
      return Undefined;
    }

    method Convert(q: real, f: string, t: string, name: Option<string>) returns (r: Converted)
      ensures r == ConvertFor(factors, q, f, t, name)
    {
      PlainRoundTrip(q, f, t);
      r := ConvertPlain(q, f, t);
      if r.Defined? || name.None? {
        return;
      }
      var direct := Lookup(factors, name.value, f, t);
      if direct.Defined? {
        r := Defined(q * direct.value);
        assert ConvertFor(factors, q, f, t, name).value == q * Lookup(factors, name.value, f, t).value;
        return;
      }
      r := Bridge(q, f, t, name.value);
    }
  }

  // ----- Conversions are invertible -------------------------------------------------------------

  /** The two entries are the two directions of one conversion. */
  predicate Mirror(a: Conversion, b: Conversion) {
    a.name == b.name && a.fromUnit == b.toUnit && a.toUnit == b.fromUnit && a.factor * b.factor == 1.0
  }

  predicate IsSelf(e: Conversion) {
    e.fromUnit == e.toUnit
  }

  /** Next to every entry between two different units stands its mirror image. */
  ghost predicate HasMirror(s: seq<Conversion>, i: nat)
    requires i < |s|
  {
    IsSelf(s[i]) || (i + 1 < |s| && Mirror(s[i], s[i + 1])) || (i > 0 && Mirror(s[i], s[i - 1]))
  }

  /** Keys are unique and every pair of directions is adjacent and mutually inverse. */
  ghost predicate Paired(s: seq<Conversion>) {
    && (forall i, j | 0 <= i < |s| && 0 <= j < |s| && SameKey(s[i], s[j]) :: i == j)
    && (forall i | 0 <= i < |s| :: HasMirror(s, i))
  }

  /** The position of a key, or the length of the table. */
  function Find(s: seq<Conversion>, e: Conversion): (k: nat)
    ensures k <= |s|
    ensures k < |s| ==> SameKey(s[k], e)
    ensures forall j | 0 <= j < k :: !SameKey(s[j], e)
  {
    if s == [] then 0 else if SameKey(s[0], e) then 0 else 1 + Find(s[1..], e)
  }

  lemma {:induction false} PutAt(s: seq<Conversion>, e: Conversion)
    ensures Put(s, e) == if Find(s, e) < |s| then s[Find(s, e) := e] else s + [e]
  {
    if s != [] && SameKey(s[0], e) {
      assert [e] + s[1..] == s[0 := e];
    } else if s != [] {
      var rest := s[1..];
      var k := Find(rest, e);
      PutAt(rest, e);
      assert Put(s, e) == [s[0]] + Put(rest, e);
      if k < |rest| {
        assert [s[0]] + rest[k := e] == s[k + 1 := e];
      } else {
        assert [s[0]] + (rest + [e]) == s + [e];
      }
    }
  }

  lemma {:induction false} PartnerOf(s: seq<Conversion>, i: nat) returns (j: nat)
    requires Paired(s) && i < |s| && !IsSelf(s[i])
    ensures j < |s| && (j == i + 1 || i == j + 1) && Mirror(s[i], s[j])
  {
    assert HasMirror(s, i);
    j := if i + 1 < |s| && Mirror(s[i], s[i + 1]) then i + 1 else i - 1;
  }

  lemma {:induction false} ReverseMirrors(c: Conversion)
    requires c.factor != 0.0
    ensures Mirror(c, Reverse(c)) && Mirror(Reverse(c), c)
  {
    assert c.factor * (1.0 / c.factor) == 1.0;
  }

  /** Overwriting both directions of a stored pair keeps the table paired. */
  lemma {:induction false} OverwritePair(s: seq<Conversion>, k: nat, p: nat, c: Conversion)
    requires Paired(s) && c.factor != 0.0 && !IsSelf(c)
    requires k < |s| && p < |s| && (p == k + 1 || k == p + 1)
    requires SameKey(s[k], c) && SameKey(s[p], Reverse(c))
    ensures Paired(s[k := c][p := Reverse(c)])
  {
    var r := s[k := c][p := Reverse(c)];
    ReverseMirrors(c);
    assert forall i | 0 <= i < |r| :: SameKey(r[i], s[i]);
    forall i | 0 <= i < |r| ensures HasMirror(r, i) {
      assert HasMirror(s, i);
      if i != k && i != p && !IsSelf(s[i]) {
        var j := PartnerOf(s, i);
        assert j != k && j != p;
      }
    }
  }

  lemma {:induction false} StoreSelf(s: seq<Conversion>, k: nat, e: Conversion)
    requires Paired(s) && IsSelf(e) && k <= |s|
    requires k < |s| ==> SameKey(s[k], e)
    requires k == |s| ==> forall i | 0 <= i < |s| :: !SameKey(s[i], e)
    ensures Paired(if k < |s| then s[k := e] else s + [e])
  {
    var r := if k < |s| then s[k := e] else s + [e];
    forall i | 0 <= i < |r| ensures HasMirror(r, i) {
      if i < |s| {
        assert HasMirror(s, i);
      }
    }
    forall i, j | 0 <= i < |r| && 0 <= j < |r| && SameKey(r[i], r[j]) ensures i == j {
      if i < |s| && j < |s| {
        assert SameKey(s[i], s[j]);
      }
    }
  }

  /** A conversion from a unit to itself takes one entry, which never has to be paired. */
  lemma {:induction false} DeclareSelf(s: seq<Conversion>, c: Conversion)
    requires Paired(s) && c.factor != 0.0 && IsSelf(c)
    ensures Paired(Declare(s, c))
  {
    var k := Find(s, c);
    PutAt(s, c);
    PutAt(Put(s, c), Reverse(c));
    assert SameKey(Put(s, c)[k], Reverse(c));
    assert Find(Put(s, c), Reverse(c)) == k;
    assert Declare(s, c) == if k < |s| then s[k := Reverse(c)] else s + [Reverse(c)];
    StoreSelf(s, k, Reverse(c));
  }

  /** A new conversion is appended as an adjacent pair. */
  lemma {:induction false} AppendPair(s: seq<Conversion>, c: Conversion)
    requires Paired(s) && c.factor != 0.0 && !IsSelf(c)
    requires forall i | 0 <= i < |s| :: !SameKey(s[i], c) && !SameKey(s[i], Reverse(c))
    ensures Paired(s + [c] + [Reverse(c)])
  {
    ReverseMirrors(c);
    var r := s + [c] + [Reverse(c)];
    forall i | 0 <= i < |r| ensures HasMirror(r, i) {
      if i < |s| {
        assert HasMirror(s, i);
      }
    }
  }

  lemma {:induction false} DeclareKeepsPaired(s: seq<Conversion>, c: Conversion)
    requires Paired(s) && c.factor != 0.0
    ensures Paired(Declare(s, c))
  {
    if IsSelf(c) {
      DeclareSelf(s, c);
      return;
    }
    PutAt(s, c);
    PutAt(Put(s, c), Reverse(c));
    var k := Find(s, c);
    if k < |s| {
      var j := PartnerOf(s, k);
      assert SameKey(Put(s, c)[j], Reverse(c));
      OverwritePair(s, k, j, c);
    } else {
      var p := Find(s, Reverse(c));
      if p < |s| {
        var j := PartnerOf(s, p);
      }
      AppendPair(s, c);
    }
  }

  ghost predicate NonZero(conversions: seq<Conversion>) {
    forall i | 0 <= i < |conversions| :: conversions[i].factor != 0.0
  }

  lemma {:induction false} DeclaredPaired(conversions: seq<Conversion>)
    requires NonZero(conversions)
    ensures Paired(Declared(conversions))
  {
    if conversions != [] {
      DeclaredPaired(conversions[..|conversions| - 1]);
      DeclareKeepsPaired(Declared(conversions[..|conversions| - 1]), conversions[|conversions| - 1]);
    }
  }

  lemma {:induction false} LookupFind(s: seq<Conversion>, name: string, f: string, t: string)
    ensures var k := Find(s, Conversion(name, f, t, 0.0));
      Lookup(s, name, f, t) == if k < |s| then Defined(s[k].factor) else Undefined
  {
    if s != [] && !Keyed(s[0], name, f, t) {
      LookupFind(s[1..], name, f, t);
    }
  }

  /** A declared direct conversion exists in both directions, with inverse factors. */
  lemma {:induction false} DirectBothWays(s: seq<Conversion>, name: string, f: string, t: string)
    requires Paired(s) && f != t
    ensures Lookup(s, name, f, t).Defined? <==> Lookup(s, name, t, f).Defined?
    ensures Lookup(s, name, f, t).Defined? ==> Lookup(s, name, f, t).value * Lookup(s, name, t, f).value == 1.0
  {
    LookupFind(s, name, f, t);
    LookupFind(s, name, t, f);
    var k := Find(s, Conversion(name, f, t, 0.0));
    var p := Find(s, Conversion(name, t, f, 0.0));
    if k < |s| {
      var j := PartnerOf(s, k);
      assert SameKey(s[j], Conversion(name, t, f, 0.0));
      assert SameKey(s[p], s[j]);
    } else if p < |s| {
      var j := PartnerOf(s, p);
      assert SameKey(s[j], Conversion(name, f, t, 0.0));
    }
  }

  /** The entry leads from the dimension of `f` to the dimension of `t`. */
  predicate Bridges(e: Conversion, name: string, f: string, t: string) {
    e.name == name && SameDimension(f, e.fromUnit) && SameDimension(e.toUnit, t)
  }

  function FirstBridge(s: seq<Conversion>, name: string, f: string, t: string): (k: nat)
    ensures k <= |s|
    ensures k < |s| ==> Bridges(s[k], name, f, t)
    ensures forall j | 0 <= j < k :: !Bridges(s[j], name, f, t)
  {
    if s == [] then 0 else if Bridges(s[0], name, f, t) then 0 else 1 + FirstBridge(s[1..], name, f, t)
  }

  lemma {:induction false} CrossDefined(e: Conversion, q: real, name: string, f: string, t: string)
    ensures e.name == name && Cross(e, q, f, t).Defined? <==> Bridges(e, name, f, t)
  {
    PlainRoundTrip(q, f, e.fromUnit);
    if SameDimension(f, e.fromUnit) {
      PlainRoundTrip(ConvertPlain(q, f, e.fromUnit).value * e.factor, e.toUnit, t);
    }
  }

  lemma {:induction false} BridgedFirst(s: seq<Conversion>, q: real, name: string, f: string, t: string)
    ensures var k := FirstBridge(s, name, f, t);
      Bridged(s, q, name, f, t) == if k < |s| then Cross(s[k], q, f, t) else Undefined
  {
    if s != [] {
      CrossDefined(s[0], q, name, f, t);
      if !Bridges(s[0], name, f, t) {
        BridgedFirst(s[1..], q, name, f, t);
      }
    }
  }

  /** The entry that bridges one way stands next to the one that bridges back. */
  lemma {:induction false} FirstBridgesMirror(s: seq<Conversion>, name: string, f: string, t: string)
    requires Paired(s) && !SameDimension(f, t)
    ensures var i, j := FirstBridge(s, name, f, t), FirstBridge(s, name, t, f);
      (i < |s| <==> j < |s|) && (i < |s| ==> Mirror(s[i], s[j]))
  {
    var i, j := FirstBridge(s, name, f, t), FirstBridge(s, name, t, f);
    if i < |s| {
      BridgeIsNoSelf(s[i], name, f, t);
      var i' := PartnerOf(s, i);
      assert Bridges(s[i'], name, t, f);
      BridgeIsNoSelf(s[j], name, t, f);
      var j' := PartnerOf(s, j);
      assert Bridges(s[j'], name, f, t);
      BridgesOneWay(s[i], name, f, t);
    } else if j < |s| {
      BridgeIsNoSelf(s[j], name, t, f);
      var j' := PartnerOf(s, j);
    }
  }

  lemma {:induction false} BridgeIsNoSelf(e: Conversion, name: string, f: string, t: string)
    requires Bridges(e, name, f, t) && !SameDimension(f, t)
    ensures !IsSelf(e)
  {
    if IsSelf(e) {
      SameDimensionTransitive(f, e.fromUnit, t);
    }
  }

  lemma {:induction false} BridgesOneWay(e: Conversion, name: string, f: string, t: string)
    requires Bridges(e, name, f, t) && !SameDimension(f, t)
    ensures !Bridges(e, name, t, f)
  {
    if Bridges(e, name, t, f) {
      SameDimensionTransitive(f, e.fromUnit, t);
    }
  }

  lemma {:induction false} Uncross(q: real, a: real, b: real)
    requires a * b == 1.0
    ensures q * a * b == q
  {
    assert q * a * b == q * (a * b);
  }

  lemma {:induction false} CrossVia(e: Conversion, q: real, f: string, t: string, w: real, x: real)
    requires ConvertPlain(q, f, e.fromUnit) == Defined(w) && w * e.factor == x
    ensures Cross(e, q, f, t) == ConvertPlain(x, e.toUnit, t)
  {
  }

  /** Crossing by an entry and back by its mirror image gives the quantity again. */
  lemma {:induction false} CrossBack(e: Conversion, r: Conversion, q: real, name: string, f: string, t: string)
    requires Bridges(e, name, f, t) && Mirror(e, r)
    ensures Cross(e, q, f, t).Defined?
    ensures Cross(r, Cross(e, q, f, t).value, t, f) == Defined(q)
  {
    CrossDefined(e, q, name, f, t);
    var v := Cross(e, q, f, t).value;
    assert ConvertPlain(q, f, e.fromUnit).Defined? by { PlainRoundTrip(q, f, e.fromUnit); }
    var a := ConvertPlain(q, f, e.fromUnit).value;
    var x := a * e.factor;
    assert Cross(e, q, f, t) == ConvertPlain(x, e.toUnit, t) by { CrossVia(e, q, f, t, a, x); }
    assert ConvertPlain(v, t, r.fromUnit) == Defined(x) by { PlainRoundTrip(x, e.toUnit, t); }
    assert x * r.factor == a by { Uncross(a, e.factor, r.factor); }
    assert Cross(r, v, t, f) == ConvertPlain(a, r.toUnit, f) by { CrossVia(r, v, t, f, x, a); }
    PlainRoundTrip(q, f, e.fromUnit);
  }

  /**
    Conversion is invertible: with nonzero declared factors, `f` converts to `t` exactly when `t`
    converts to `f`, and then the two conversions compose to the identity, whether the conversion is
    fixed, declared or bridged by one of several declared densities.
   */
  lemma {:induction false} ConversionInvertible(conversions: seq<Conversion>, q: real, f: string, t: string, name: Option<string>)
    requires NonZero(conversions)
    ensures var s := Declared(conversions);
      && (forall v :: ConvertFor(s, q, f, t, name).Defined? <==> ConvertFor(s, v, t, f, name).Defined?)
      && (ConvertFor(s, q, f, t, name).Defined? ==>
            ConvertFor(s, ConvertFor(s, q, f, t, name).value, t, f, name) == Defined(q))
  {
    var s := Declared(conversions);
    DeclaredPaired(conversions);
    forall v ensures ConvertFor(s, q, f, t, name).Defined? <==> ConvertFor(s, v, t, f, name).Defined? {
      DefinedBothWays(s, q, v, f, t, name);
    }
    if SameDimension(f, t) || name.None? {
      PlainRoundTrip(q, f, t);
    } else if Lookup(s, name.value, f, t).Defined? {
      DirectBothWays(s, name.value, f, t);
      Uncross(q, Lookup(s, name.value, f, t).value, Lookup(s, name.value, t, f).value);
    } else if ConvertFor(s, q, f, t, name).Defined? {
      DirectBothWays(s, name.value, f, t);
      BridgedBack(s, q, name.value, f, t);
    }
  }

  lemma {:induction false} DefinedBothWays(s: seq<Conversion>, q: real, v: real, f: string, t: string, name: Option<string>)
    requires Paired(s)
    ensures ConvertFor(s, q, f, t, name).Defined? <==> ConvertFor(s, v, t, f, name).Defined?
  {
    PlainRoundTrip(q, f, t);
    PlainRoundTrip(v, t, f);
    if !SameDimension(f, t) && name.Some? {
      DirectBothWays(s, name.value, f, t);
      BridgedFirst(s, q, name.value, f, t);
      BridgedFirst(s, v, name.value, t, f);
      FirstBridgesMirror(s, name.value, f, t);
      var i, j := FirstBridge(s, name.value, f, t), FirstBridge(s, name.value, t, f);
      if i < |s| {
        CrossDefined(s[i], q, name.value, f, t);
        CrossDefined(s[j], v, name.value, t, f);
      }
    }
  }

  lemma {:induction false} BridgedBack(s: seq<Conversion>, q: real, name: string, f: string, t: string)
    requires Paired(s) && !SameDimension(f, t)
    requires Bridged(s, q, name, f, t).Defined?
    ensures Bridged(s, Bridged(s, q, name, f, t).value, name, t, f) == Defined(q)
  {
    BridgedFirst(s, q, name, f, t);
    FirstBridgesMirror(s, name, f, t);
    BridgedFirst(s, Bridged(s, q, name, f, t).value, name, t, f);
    CrossBack(s[FirstBridge(s, name, f, t)], s[FirstBridge(s, name, t, f)], q, name, f, t);
  }

  /** One declared conversion between two dimensions is invertible if and only if its factor is not zero. */
  lemma {:induction false} SingleInvertible(c: Conversion, q: real)
    requires !SameDimension(c.fromUnit, c.toUnit) && q != 0.0
    ensures var s := Declared([c]);
      var there := ConvertFor(s, q, c.fromUnit, c.toUnit, Some(c.name));
      && there.Defined?
      && (ConvertFor(s, there.value, c.toUnit, c.fromUnit, Some(c.name)) == Defined(q) <==> c.factor != 0.0)
  {
    var s := Declared([c]);
    assert Declared([c][..0]) == [];
    assert s == Declare([], c);
    assert Lookup(s, c.name, c.fromUnit, c.toUnit).Defined?;
    if c.factor != 0.0 {
      ConversionInvertible([c], q, c.fromUnit, c.toUnit, Some(c.name));
    } else {
      BridgedFirst(s, 0.0, c.name, c.toUnit, c.fromUnit);
      assert s == [c];
      if Bridges(c, c.name, c.toUnit, c.fromUnit) {
        SameDimensionTransitive(c.fromUnit, c.toUnit, c.fromUnit);
      }
    }
  }
}
