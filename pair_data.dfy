/**
 * What the registry stores per pair (contract/src/onrampPriceRegistry.contract.js):
 * the pair's manual price authority, reduced to the brands it was made for and
 * its current price, and its recorder, reduced to the storage node name and the
 * sequence of quote records written so far. Also the decimal-adjusted initial
 * price and the record that `updatePrice` writes.
 */
module PairData {
  import opened Wrappers
  import opened Ratios
  import opened PairIds

  /** Used when a brand's display info has no (or a zero) decimalPlaces. */
  const DEFAULT_DECIMAL_PLACES: nat := 6

  /** A reading of the timer service. */
  type Timestamp = nat

  datatype AmountWithDisplay = AmountWithDisplay(amount: Amount, decimalPlaces: nat)

  /** One entry of a pair's published price history. */
  datatype PriceQuoteRecord = PriceQuoteRecord(amountIn: AmountWithDisplay,
                                               amountOut: AmountWithDisplay,
                                               lastUpdated: Timestamp)

  /** The pair's price authority, as far as this contract observes it. */
  datatype ManualPriceAuthority = ManualPriceAuthority(actualBrandIn: Brand,
                                                       actualBrandOut: Brand,
                                                       currentPrice: Ratio)

  /** A recorder kit: the storage node it publishes under and what it has written, oldest first. */
  datatype Recorder = Recorder(node: string, records: seq<PriceQuoteRecord>)

  datatype PairEntry = PairEntry(priceAuthority: ManualPriceAuthority, recorder: Recorder)

  /** `decimalPlaces || DEFAULT_DECIMAL_PLACES`: a missing or zero value falls back to the default. */
  function DecimalsOrDefault(brand: Brand): (d: nat)
    ensures d > 0
    ensures brand.decimalPlaces.Some? && brand.decimalPlaces.value > 0 ==> d == brand.decimalPlaces.value
    ensures brand.decimalPlaces == None || brand.decimalPlaces == Some(0) ==> d == DEFAULT_DECIMAL_PLACES
  {
    match brand.decimalPlaces
    case Some(places) => if places != 0 then places else DEFAULT_DECIMAL_PLACES
    case None => DEFAULT_DECIMAL_PLACES
  }

  /** `10n ** BigInt(n)`. */
  function Pow10(n: nat): (p: nat)
    ensures p >= 1
    ensures n > 0 ==> p >= 10
  {
    if n == 0 then 1 else 10 * Pow10(n - 1)
  }

  /**
   * The price a new pair starts at: one whole unit of `brandIn` for one whole
   * unit of `brandOut`, i.e. 10^outDecimals of `brandOut` over 10^inDecimals of
   * `brandIn`, built with `makeRatio` (which cannot refuse it).
   */
  function InitialPrice(brandIn: Brand, brandOut: Brand): (price: Ratio)
    ensures IsProperRatio(price)
    ensures price.numerator == Amount(brandOut, Pow10(DecimalsOrDefault(brandOut)))
    ensures price.denominator == Amount(brandIn, Pow10(DecimalsOrDefault(brandIn)))
  {
    var made := MakeRatio(Pow10(DecimalsOrDefault(brandOut)), brandOut,
                          Some(Pow10(DecimalsOrDefault(brandIn))), Some(brandIn));
    made.value
  }

  /** Two six-decimal brands (IST and BLD) start at 1,000,000 / 1,000,000. */
  lemma InitialPriceSixDecimals(ist: Brand, bld: Brand)
    requires ist.decimalPlaces == Some(6) && bld.decimalPlaces == None
    ensures InitialPrice(ist, bld) == Ratio(Amount(bld, 1000000), Amount(ist, 1000000))
  {
  }

  /** The entry `registerPricePair(brandIn, brandOut)` creates. */
  function NewEntry(brandIn: Brand, brandOut: Brand): (entry: PairEntry)
    ensures entry.priceAuthority.actualBrandIn == brandIn
    ensures entry.priceAuthority.actualBrandOut == brandOut
    ensures entry.priceAuthority.currentPrice == InitialPrice(brandIn, brandOut)
    ensures entry.recorder.node == MakePairId(brandIn, brandOut)
    ensures entry.recorder.records == []
  {
    PairEntry(ManualPriceAuthority(brandIn, brandOut, InitialPrice(brandIn, brandOut)),
              Recorder(MakePairId(brandIn, brandOut), []))
  }

  /**
   * The record `updatePrice(newPrice)` writes: the numerator as amountIn, the
   * denominator as amountOut, each with its brand's decimals, stamped `now`.
   */
  function QuoteRecordFor(newPrice: Ratio, now: Timestamp): (rec: PriceQuoteRecord)
    ensures rec.amountIn.amount == newPrice.numerator
    ensures rec.amountOut.amount == newPrice.denominator
    ensures rec.amountIn.decimalPlaces == DecimalsOrDefault(newPrice.numerator.brand) > 0
    ensures rec.amountOut.decimalPlaces == DecimalsOrDefault(newPrice.denominator.brand) > 0
    ensures rec.lastUpdated == now
  {
    var brandIn, brandOut := newPrice.numerator.brand, newPrice.denominator.brand;
    PriceQuoteRecord(
      AmountWithDisplay(Amount(brandIn, newPrice.numerator.value), DecimalsOrDefault(brandIn)),
      AmountWithDisplay(Amount(brandOut, newPrice.denominator.value), DecimalsOrDefault(brandOut)),
      now)
  }
}
