/**
  Whole-package selection: the number of packages that covers a quantity, and the choice between the
  formats of one product.  Quantities and money are exact; identifiers are ordered numbers.
 */
module Packaging {
  import opened Wrappers

  // ----- How many packages ----------------------------------------------------------------------

  /** `decimal_ceil_div` for a positive package quantity. */
  function CeilDiv(pending: real, quantity: real): (n: nat)
    requires quantity > 0.0
  {
    if pending <= 0.0 then 0
    else
      var n := -(-(pending / quantity)).Floor;
      CeilPositive(pending, quantity);
      n
  }

  lemma {:induction false} CeilPositive(pending: real, quantity: real)
    requires pending > 0.0 && quantity > 0.0
    ensures -(-(pending / quantity)).Floor > 0
  {
    assert pending / quantity > 0.0;
  }

  lemma {:induction false} DivideCancel(a: real, b: real)
    requires b != 0.0
    ensures a / b * b == a
  {
  }

  lemma {:induction false} ScaleAtMost(x: real, y: real, q: real)
    requires q > 0.0 && x <= y
    ensures x * q <= y * q
  {
  }

  lemma {:induction false} ScaleLess(x: real, y: real, q: real)
    requires q > 0.0 && x < y
    ensures x * q < y * q
  {
  }

  lemma {:induction false} OneLess(n: real, q: real)
    ensures (n - 1.0) * q == n * q - q
  {
  }

  lemma {:induction false} CeilCovers(x: real, n: real, q: real, pending: real)
    requires q > 0.0 && x <= n && x * q == pending
    ensures pending <= n * q
  {
    ScaleAtMost(x, n, q);
  }

  lemma {:induction false} CeilNotTooMany(x: real, n: real, q: real, pending: real)
    requires q > 0.0 && n - 1.0 < x && x * q == pending
    ensures n * q < pending + q
  {
    OneLess(n, q);
    ScaleLess(n - 1.0, x, q);
  }

  predicate Covers(n: nat, quantity: real, pending: real) {
    n as real * quantity >= pending
  }

  /** One package fewer than a cover that exceeds the need by less than a package is no cover. */
  lemma {:induction false} FewerFail(m: nat, n: nat, q: real, pending: real)
    requires m < n && q > 0.0 && n as real * q < pending + q
    ensures !Covers(m, q, pending)
  {
    var few, most, all := m as real * q, (n as real - 1.0) * q, n as real * q;
    assert few <= most by { ScaleAtMost(m as real, n as real - 1.0, q); }
    assert most == all - q by { OneLess(n as real, q); }
  }

  /** The count is the least number of packages that covers the pending quantity. */
  lemma {:induction false} CeilDivLeast(pending: real, quantity: real)
    requires quantity > 0.0
    ensures var n := CeilDiv(pending, quantity);
      && Covers(n, quantity, pending)
      && (forall m: nat :: Covers(m, quantity, pending) ==> n <= m)
      && (pending >= 0.0 ==> 0.0 <= n as real * quantity - pending < quantity)
  {
    var n := CeilDiv(pending, quantity);
    if pending > 0.0 {
      var x := pending / quantity;
      assert x * quantity == pending by { DivideCancel(pending, quantity); }
      CeilCovers(x, n as real, quantity, pending);
      CeilNotTooMany(x, n as real, quantity, pending);
      forall m: nat | Covers(m, quantity, pending) ensures n <= m {
        if m < n {
          FewerFail(m, n, quantity, pending);
        }
      }
    }
  }

  /** Needing more never takes fewer packages. */
  lemma {:induction false} CeilDivMonotone(a: real, b: real, quantity: real)
    requires quantity > 0.0 && a <= b
    ensures CeilDiv(a, quantity) <= CeilDiv(b, quantity)
  {
    CeilDivLeast(a, quantity);
    CeilDivLeast(b, quantity);
    assert Covers(CeilDiv(b, quantity), quantity, a);
  }

  // ----- One format -----------------------------------------------------------------------------

  datatype PackageResult = PackageResult(
    needed: real, pantry: real, pending: real, packageQuantity: real, packagePrice: real,
    packages: nat, purchased: real, used: real, leftover: real, totalCost: real)

  /** `compute_packages`; a package quantity that is not positive is an error. */
  function ComputePackages(needed: real, pantryAvailable: real, quantity: real, price: real): Option<PackageResult> {
    if quantity <= 0.0 then None
    else
      var pending := if needed - pantryAvailable < 0.0 then 0.0 else needed - pantryAvailable;
      var packages := CeilDiv(pending, quantity);
      var purchased := packages as real * quantity;
      Some(PackageResult(needed, needed - pending, pending, quantity, price, packages, purchased, pending,
                         purchased - pending, packages as real * price))
  }

  /** Whole packages are bought: the least number that covers what the pantry does not. */
  lemma {:induction false} WholePackages(needed: real, pantryAvailable: real, quantity: real, price: real)
    requires quantity > 0.0
    ensures var r := ComputePackages(needed, pantryAvailable, quantity, price).value;
      && r.pending >= 0.0 && r.pending >= needed - pantryAvailable
      && r.purchased == r.packages as real * quantity >= r.used == r.pending
      && (forall m: nat :: Covers(m, quantity, r.pending) ==> r.packages <= m)
      && 0.0 <= r.leftover < quantity
      && r.pantry + r.pending == needed
      && r.totalCost == r.packages as real * price
  {
    var pending := if needed - pantryAvailable < 0.0 then 0.0 else needed - pantryAvailable;
    CeilDivLeast(pending, quantity);
  }

  // ----- The choice between formats -------------------------------------------------------------

  datatype Availability = InStock | OutOfStock | Unknown

  datatype PackageOption = PackageOption(
    productId: nat, quantity: real, unit: string, amount: real, availability: Availability,
    expiresAt: Option<int>, hasPrice: bool)

  datatype PackageChoice = PackageChoice(option: PackageOption, result: PackageResult, priceKnown: bool, expired: bool)

  /** What the choice depends on besides the options. */
  datatype Terms = Terms(asOf: Option<int>, wWaste: real, wCost: real)

  predicate IsExpired(option: PackageOption, asOf: Option<int>) {
    option.expiresAt.Some? && asOf.Some? && option.expiresAt.value < asOf.value
  }

  predicate Usable(option: PackageOption) {
    option.quantity > 0.0
  }

  function ChoiceOf(pending: real, option: PackageOption, terms: Terms): PackageChoice
    requires Usable(option)
  {
    var expired := IsExpired(option, terms.asOf);
    PackageChoice(option, ComputePackages(pending, 0.0, option.quantity, option.amount).value,
                  option.hasPrice && !expired, expired)
  }

  datatype Key = Key(outOfStock: bool, unknownPrice: bool, score: real, productId: nat, quantity: real)

  function KeyOf(pending: real, option: PackageOption, terms: Terms): Key
    requires Usable(option)
  {
    var c := ChoiceOf(pending, option, terms);
    Key(option.availability == OutOfStock, !c.priceKnown,
        terms.wWaste * c.result.leftover + terms.wCost * c.result.totalCost, option.productId, option.quantity)
  }

  /** The lexicographic order of the keys; `false` comes before `true`. */
  predicate KeyLess(a: Key, b: Key) {
    if a.outOfStock != b.outOfStock then b.outOfStock
    else if a.unknownPrice != b.unknownPrice then b.unknownPrice
    else if a.score != b.score then a.score < b.score
    else if a.productId != b.productId then a.productId < b.productId
    else a.quantity < b.quantity
  }

  lemma {:induction false} KeyLessTransitive(a: Key, b: Key, c: Key)
    requires !KeyLess(b, a) && !KeyLess(c, b)
    ensures !KeyLess(c, a)
  {
  }

  /** `option` is usable and no usable option of `options` comes before it. */
  ghost predicate IsBest(pending: real, options: seq<PackageOption>, terms: Terms, option: PackageOption) {
    && option in options && Usable(option)
    && (forall o | o in options && Usable(o) :: !KeyLess(KeyOf(pending, o, terms), KeyOf(pending, option, terms)))
  }

  /** The format `choose` settles on: the first of the least keys, over the options in their order. */
  function Best(pending: real, options: seq<PackageOption>, terms: Terms): (r: Option<PackageOption>)
    ensures r.Some? ==> Usable(r.value)
  {
    if options == [] then None
    else
      var last := options[|options| - 1];
      var best := Best(pending, options[..|options| - 1], terms);
      if !Usable(last) then best
      else if best.None? || KeyLess(KeyOf(pending, last, terms), KeyOf(pending, best.value, terms))
      then Some(last) else best
  }

  lemma {:induction false} BestIsLeast(pending: real, options: seq<PackageOption>, terms: Terms)
    ensures Best(pending, options, terms).None? <==> forall o | o in options :: !Usable(o)
    ensures Best(pending, options, terms).Some? ==> IsBest(pending, options, terms, Best(pending, options, terms).value)
  {
    if options != [] {
      var rest := options[..|options| - 1];
      var last := options[|options| - 1];
      BestIsLeast(pending, rest, terms);
      assert options == rest + [last];
      var best := Best(pending, rest, terms);
      if best.Some? && Usable(last) && KeyLess(KeyOf(pending, last, terms), KeyOf(pending, best.value, terms)) {
        forall o | o in rest && Usable(o) ensures !KeyLess(KeyOf(pending, o, terms), KeyOf(pending, last, terms)) {
          KeyLessTransitive(KeyOf(pending, last, terms), KeyOf(pending, best.value, terms), KeyOf(pending, o, terms));
        }
      }
    }
  }

  predicate IsPriced(option: PackageOption, asOf: Option<int>) {
    option.hasPrice && !(option.expiresAt.Some? && asOf.Some? && option.expiresAt.value < asOf.value)
  }

  /** Waste and cost of covering the need with whole packages of the format, weighted. */
  function Burden(pending: real, option: PackageOption, terms: Terms): real
    requires Usable(option)
  {
    var need := if pending < 0.0 then 0.0 else pending;
    var count := CeilDiv(need, option.quantity) as real;
    terms.wWaste * (count * option.quantity - need) + terms.wCost * (count * option.amount)
  }

  /** A format in stock comes before one that is not, then one with a current price, then the lesser burden. */
  ghost predicate Favoured(pending: real, option: PackageOption, other: PackageOption, terms: Terms)
    requires Usable(option) && Usable(other)
  {
    var stocked, otherStocked := option.availability != OutOfStock, other.availability != OutOfStock;
    var priced, otherPriced := IsPriced(option, terms.asOf), IsPriced(other, terms.asOf);
    && (otherStocked ==> stocked)
    && (stocked == otherStocked && otherPriced ==> priced)
    && (stocked == otherStocked && priced == otherPriced ==> Burden(pending, option, terms) <= Burden(pending, other, terms))
  }

  /** The chosen format is favoured over every usable one. */
  lemma {:induction false} BestIsFavoured(pending: real, options: seq<PackageOption>, terms: Terms, best: PackageOption, other: PackageOption)
    requires IsBest(pending, options, terms, best) && other in options && Usable(other)
    ensures Favoured(pending, best, other, terms)
  {
    assert !KeyLess(KeyOf(pending, other, terms), KeyOf(pending, best, terms));
    BurdenIsScore(pending, best, terms);
    BurdenIsScore(pending, other, terms);
  }

  lemma {:induction false} BurdenIsScore(pending: real, option: PackageOption, terms: Terms)
    requires Usable(option)
    ensures KeyOf(pending, option, terms).score == Burden(pending, option, terms)
  {
  }

  method Choose(pending: real, options: seq<PackageOption>, terms: Terms) returns (choice: Option<PackageChoice>)
    ensures choice.None? <==> forall o | o in options :: !Usable(o)
    ensures choice.Some? ==>
      && IsBest(pending, options, terms, choice.value.option)
      && choice.value == ChoiceOf(pending, choice.value.option, terms)
      && Best(pending, options, terms) == Some(choice.value.option)
  {
    choice := None;
    for i := 0 to |options|
      invariant match choice
        case None => Best(pending, options[..i], terms) == None
        case Some(c) =>
          Usable(c.option) && Best(pending, options[..i], terms) == Some(c.option) && c == ChoiceOf(pending, c.option, terms)
    {
      var option := options[i];
      assert options[..i + 1][..i] == options[..i];
      if option.quantity <= 0.0 {
        continue;
      }
      if choice.None? || KeyLess(KeyOf(pending, option, terms), KeyOf(pending, choice.value.option, terms)) {
        choice := Some(ChoiceOf(pending, option, terms));
      }
    }
    assert options[..|options|] == options;
    BestIsLeast(pending, options, terms);
  }

  /** Formats with equal keys are bought in the same number, with the same leftover and cost. */
  lemma {:induction false} EqualKeys(pending: real, a: PackageOption, b: PackageOption, terms: Terms)
    requires Usable(a) && Usable(b) && terms.wCost != 0.0
    requires KeyOf(pending, a, terms) == KeyOf(pending, b, terms)
    ensures var ra, rb := ChoiceOf(pending, a, terms).result, ChoiceOf(pending, b, terms).result;
      ra.packages == rb.packages && ra.leftover == rb.leftover && ra.totalCost == rb.totalCost
  {
    var ra, rb := ChoiceOf(pending, a, terms).result, ChoiceOf(pending, b, terms).result;
    assert terms.wCost * ra.totalCost == terms.wCost * rb.totalCost;
    assert ra.totalCost == terms.wCost * ra.totalCost / terms.wCost;
    assert rb.totalCost == terms.wCost * rb.totalCost / terms.wCost;
  }

  /** With a cost weight, the order of the options changes neither the packages nor the cost. */
  lemma {:induction false} ChoiceOrderIndependent(pending: real, options: seq<PackageOption>, options': seq<PackageOption>, terms: Terms)
    requires multiset(options) == multiset(options') && terms.wCost != 0.0
    ensures var b, b' := Best(pending, options, terms), Best(pending, options', terms);
      && (b.None? <==> b'.None?)
      && (b.Some? ==>
            var r, r' := ChoiceOf(pending, b.value, terms).result, ChoiceOf(pending, b'.value, terms).result;
            && r.packages == r'.packages && r.leftover == r'.leftover && r.totalCost == r'.totalCost
            && ChoiceOf(pending, b.value, terms).priceKnown == ChoiceOf(pending, b'.value, terms).priceKnown)
  {
    BestIsLeast(pending, options, terms);
    BestIsLeast(pending, options', terms);
    forall o ensures o in options <==> o in options' {
      assert o in options <==> o in multiset(options);
      assert o in options' <==> o in multiset(options');
    }
    var b, b' := Best(pending, options, terms), Best(pending, options', terms);
    if b.Some? {
      EqualKeys(pending, b.value, b'.value, terms);
    }
  }

  /** Both orders of the options give the same number of packages, leftover and cost. */
  predicate SamePurchase(pending: real, options: seq<PackageOption>, options': seq<PackageOption>, terms: Terms) {
    var b, b' := Best(pending, options, terms), Best(pending, options', terms);
    && (b.None? <==> b'.None?)
    && (b.Some? ==>
          var r, r' := ChoiceOf(pending, b.value, terms).result, ChoiceOf(pending, b'.value, terms).result;
          r.packages == r'.packages && r.leftover == r'.leftover && r.totalCost == r'.totalCost)
  }

  ghost predicate OrderIndependent(terms: Terms) {
    forall pending: real, options: seq<PackageOption>, options': seq<PackageOption> ::
      multiset(options) == multiset(options') ==> SamePurchase(pending, options, options', terms)
  }

  /** The order of the options is without effect exactly when cost has a weight. */
  lemma {:induction false} OrderIndependentExactly(terms: Terms)
    ensures OrderIndependent(terms) <==> terms.wCost != 0.0
  {
    if terms.wCost != 0.0 {
      forall pending: real, options: seq<PackageOption>, options': seq<PackageOption> | multiset(options) == multiset(options')
        ensures SamePurchase(pending, options, options', terms)
      {
        ChoiceOrderIndependent(pending, options, options', terms);
      }
    } else {
      ChoiceOrderMatters(terms);
    }
  }

  /** Without a cost weight, two formats of one size and different prices tie, and the first is bought. */
  lemma {:induction false} ChoiceOrderMatters(terms: Terms)
    requires terms.wCost == 0.0
    ensures exists options, options' :: multiset(options) == multiset(options') && !SamePurchase(1.0, options, options', terms)
  {
    var cheap := PackageOption(0, 1.0, "g", 1.0, InStock, None, true);
    var dear := cheap.(amount := 2.0);
    var xs, ys := [cheap, dear], [dear, cheap];
    assert CeilDiv(1.0, 1.0) == 1 by { CeilDivLeast(1.0, 1.0); }
    assert xs[..1] == [cheap] && ys[..1] == [dear];
    assert Best(1.0, [], terms) == None;
    assert Best(1.0, [cheap], terms) == Some(cheap) && Best(1.0, [dear], terms) == Some(dear);
    assert KeyOf(1.0, cheap, terms) == KeyOf(1.0, dear, terms);
    assert Best(1.0, xs, terms) == Some(cheap) && Best(1.0, ys, terms) == Some(dear);
    assert multiset(xs) == multiset(ys);
    assert !SamePurchase(1.0, xs, ys, terms);
  }
}
