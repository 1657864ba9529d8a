/**
  The formats of one product are compared by their bare quantities, whatever their units.  What is bought covers
  the need when a format comes in the unit of the need or in a larger one, and only then.
 */
module PackageUnits {
  import opened Wrappers
  import opened Contracts
  import opened Demand
  import opened Packaging
  import opened Units

  /** The packages that `compute_packages` counts for the need hold at least as much of it, in its own unit. */
  predicate Suffices(pending: real, unit: string, option: PackageOption)
    requires Usable(option)
  {
    var bought := ConvertPlain(CeilDiv(pending, option.quantity) as real * option.quantity, option.unit, unit);
    bought.Defined? && bought.value >= pending
  }

  ghost predicate AlwaysSuffices(unit: string, option: PackageOption)
    requires Usable(option)
  {
    forall pending: real :: pending >= 0.0 ==> Suffices(pending, unit, option)
  }

  /** A format suffices for every need exactly when its unit converts to that of the need and is no smaller. */
  lemma {:induction false} SufficesExactly(unit: string, option: PackageOption)
    requires Usable(option)
    ensures AlwaysSuffices(unit, option) <==> Rate(option.unit, unit).Defined? && Rate(option.unit, unit).value >= 1.0
  {
    var rate, q := Rate(option.unit, unit), option.quantity;
    if rate.Defined? && rate.value >= 1.0 {
      forall pending: real | pending >= 0.0 ensures Suffices(pending, unit, option) {
        LargerUnitSuffices(pending, unit, option);
      }
    } else {
      ConvertsByRate(q, option.unit, unit);
      OnePackage(q);
      if rate.Defined? {
        ScaleLess(rate.value, 1.0, q);
      }
      assert !Suffices(q, unit, option);
    }
  }

  lemma {:induction false} LargerUnitSuffices(pending: real, unit: string, option: PackageOption)
    requires Usable(option) && pending >= 0.0
    requires Rate(option.unit, unit).Defined? && Rate(option.unit, unit).value >= 1.0
    ensures Suffices(pending, unit, option)
  {
    var bought := CeilDiv(pending, option.quantity) as real * option.quantity;
    CeilDivLeast(pending, option.quantity);
    assert bought >= pending;
    ConvertsByRate(bought, option.unit, unit);
    AtLeast(bought, Rate(option.unit, unit).value);
  }

  lemma {:induction false} AtLeast(q: real, rate: real)
    requires q >= 0.0 && rate >= 1.0
    ensures q * rate >= q
  {
    assert q * (rate - 1.0) >= 0.0;
  }

  /** One package covers its own quantity. */
  lemma {:induction false} OnePackage(quantity: real)
    requires quantity > 0.0
    ensures CeilDiv(quantity, quantity) == 1
  {
    CeilDivLeast(quantity, quantity);
    assert Covers(1, quantity, quantity);
  }

  ghost predicate OneUnit(product: Product) {
    forall o | o in product.packages :: o.unit == product.packages[0].unit
  }

  /** When all formats of a product come in one unit, whichever is chosen covers what is to be bought. */
  lemma {:induction false} ChosenSuffices(product: Product, fallback: string, pending: real, terms: Terms)
    requires OneUnit(product) && pending >= 0.0
    ensures var best := Best(pending, product.packages, terms);
      best.Some? ==> Suffices(pending, TargetUnit(product, fallback), best.value)
  {
    BestIsLeast(pending, product.packages, terms);
    var best := Best(pending, product.packages, terms);
    if best.Some? {
      LargerUnitSuffices(pending, TargetUnit(product, fallback), best.value);
    }
  }

  // ----- Kilograms and grams --------------------------------------------------------------------

  const KILOGRAM := PackageOption(0, 1.0, "kg", 5.0, InStock, None, true)
  const THREE_GRAMS := PackageOption(0, 3.0, "g", 1.0, InStock, None, true)
  const TWO_UNITS := Product(0, "saffron", "Saffron", "dry", [KILOGRAM, THREE_GRAMS], {})

  /** With the default weights, one package of three grams is bought for two kilograms. */
  lemma {:induction false} GramsForKilograms(terms: Terms)
    requires terms == Terms(None, 1.0, 1.5)
    ensures TargetUnit(TWO_UNITS, "kg") == "kg"
    ensures Best(2.0, TWO_UNITS.packages, terms) == Some(THREE_GRAMS)
    ensures CeilDiv(2.0, THREE_GRAMS.quantity) == 1 && ConvertPlain(3.0, "g", "kg") == Defined(0.003)
    ensures !Suffices(2.0, "kg", THREE_GRAMS)
  {
    var options := TWO_UNITS.packages;
    CeilDivLeast(2.0, 1.0);
    CeilDivLeast(2.0, 3.0);
    assert Covers(2, 1.0, 2.0) && Covers(1, 3.0, 2.0);
    assert options[..1] == [KILOGRAM] && options[..1][..0] == [];
    assert Best(2.0, [], terms) == None;
    assert Best(2.0, options[..1], terms) == Some(KILOGRAM);
    assert KeyOf(2.0, KILOGRAM, terms).score == 15.0 && KeyOf(2.0, THREE_GRAMS, terms).score == 2.5;
  }
}
