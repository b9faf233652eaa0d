/**
 * Brands, amounts and ratios, and the validating ratio constructor `makeRatio`
 * of contract/src/onrampPriceRegistry.proposal.js.
 */
module Ratios {
  import opened Wrappers

  /**
   * An asset kind. Equality is identity: `id` tells apart brands that report the
   * same name. `allegedName` is what getAllegedName() returns and `decimalPlaces`
   * the (possibly missing) field of getDisplayInfo(); both are fixed for the
   * life of the brand.
   */
  datatype Brand = Brand(id: nat, allegedName: string, decimalPlaces: Option<nat>)

  /** A quantity of one brand. */
  datatype Amount = Amount(brand: Brand, value: nat)

  /** `denominator.value` units of the denominator brand are worth `numerator.value` units of the numerator brand. */
  datatype Ratio = Ratio(numerator: Amount, denominator: Amount)

  /** The "No infinite ratios!" failure, naming the denominator brand. */
  datatype RatioError = InfiniteRatio(denominatorBrand: Brand)

  /** The denominator used when the caller gives none. */
  const PERCENT: nat := 100

  /** A ratio that `makeRatio` can produce: its denominator is positive. */
  predicate IsProperRatio(r: Ratio)
  {
    r.denominator.value > 0
  }

  /**
   * makeRatio(numerator, numeratorBrand, denominator = 100, denominatorBrand = numeratorBrand).
   * An omitted argument is `None`. The denominator is an `int` because the source
   * checks its sign; a non-positive one is refused.
   */
  function MakeRatio(numerator: nat, numeratorBrand: Brand,
                     denominator: Option<int> := None,
                     denominatorBrand: Option<Brand> := None): (r: Result<Ratio, RatioError>)
    ensures r.Success? <==> denominator.GetOr(PERCENT) > 0
    ensures r.Failure? ==> r.error == InfiniteRatio(denominatorBrand.GetOr(numeratorBrand))
    ensures r.Success? ==> IsProperRatio(r.value)
    ensures r.Success? ==> r.value.numerator == Amount(numeratorBrand, numerator)
    ensures r.Success? ==> r.value.denominator.value == denominator.GetOr(PERCENT)
    ensures r.Success? ==> r.value.denominator.brand == denominatorBrand.GetOr(numeratorBrand)
  {
    var d := denominator.GetOr(PERCENT);
    var db := denominatorBrand.GetOr(numeratorBrand);
    if d > 0 then Success(Ratio(Amount(numeratorBrand, numerator), Amount(db, d)))
    else Failure(InfiniteRatio(db))
  }

  /** Every proper ratio is built by `makeRatio` from its own four components, and by nothing else. */
  lemma MakeRatioRoundTrip(r: Ratio)
    requires IsProperRatio(r)
    ensures MakeRatio(r.numerator.value, r.numerator.brand,
                      Some(r.denominator.value), Some(r.denominator.brand)) == Success(r)
  {
  }

  /** With both optional arguments omitted the result is a percentage of the numerator brand. */
  lemma MakeRatioDefaults(numerator: nat, brand: Brand)
    ensures MakeRatio(numerator, brand) == Success(Ratio(Amount(brand, numerator), Amount(brand, PERCENT)))
  {
  }

  /** A zero or negative denominator is refused, whatever the other arguments. */
  lemma MakeRatioRejectsNonPositive(numerator: nat, numeratorBrand: Brand, denominator: int, denominatorBrand: Option<Brand>)
    requires denominator <= 0
    ensures MakeRatio(numerator, numeratorBrand, Some(denominator), denominatorBrand)
            == Failure(InfiniteRatio(denominatorBrand.GetOr(numeratorBrand)))
  {
  }

  /** The price the bootstrap publishes: 1,000,000 IST for 99,000,000 BLD. */
  lemma MakeRatioBootstrapPrice(ist: Brand, bld: Brand)
    ensures MakeRatio(1000000, ist, Some(99000000), Some(bld))
            == Success(Ratio(Amount(ist, 1000000), Amount(bld, 99000000)))
  {
  }
}
