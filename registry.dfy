/**
 * The pair registry kept by `start` in contract/src/onrampPriceRegistry.contract.js:
 * the mutable nested map `assetToPriceMap`, `registerPricePair`, the price
 * authority's `setPrice` router and `updatePrice`. Each method states its new
 * map through the functions of Registration and PriceUpdates, whose lemmas say
 * what the change means.
 */
module OnrampRegistry {
  import opened Wrappers
  import opened Ratios
  import opened PairIds
  import opened PairData
  import opened PriceMaps
  import opened Registration
  import opened PriceUpdates

  class PriceRegistry {
    var assetToPriceMap: PriceMap

    ghost predicate Valid()
      reads this
    {
      WellFormed(assetToPriceMap)
    }

    /** The registry starts with no pairs. */
    constructor ()
      ensures Valid()
      ensures assetToPriceMap == map[]
    {
      assetToPriceMap := map[];
    }

    /**
     * registerPricePair(brandIn, brandOut): refused, with the map untouched, when
     * the pair exists in either order; otherwise the new entry, at the
     * decimal-adjusted initial price, goes under `brandIn -> brandOut`.
     */
    method RegisterPricePair(brandIn: Brand, brandOut: Brand) returns (outcome: Outcome<RegistryError>)
      requires Valid()
      modifies this
      ensures Valid()
      ensures outcome.Fail? <==> PricePairExists(old(assetToPriceMap), brandIn, brandOut)
      ensures outcome.Fail? ==> outcome.error == PairAlreadyExists(MakePairId(brandIn, brandOut))
      ensures outcome.Fail? ==> assetToPriceMap == old(assetToPriceMap)
      ensures outcome.Pass? ==> assetToPriceMap == Registered(old(assetToPriceMap), brandIn, brandOut)
    {
      var pairId := MakePairId(brandIn, brandOut);
      var exists_ := PricePairExists(assetToPriceMap, brandIn, brandOut);
      if exists_ {
        return Fail(PairAlreadyExists(pairId));
      }
      var priceMap: map<Brand, PairEntry>;
      if brandIn in assetToPriceMap {
        priceMap := assetToPriceMap[brandIn];
      } else {
        priceMap := map[];
        assetToPriceMap := assetToPriceMap[brandIn := priceMap];
      }
      var pricePairAuthority := ManualPriceAuthority(brandIn, brandOut, InitialPrice(brandIn, brandOut));
      var recorderKit := Recorder(pairId, []);
      priceMap := priceMap[brandOut := PairEntry(pricePairAuthority, recorderKit)];
      assetToPriceMap := assetToPriceMap[brandIn := priceMap];
      assert assetToPriceMap == Registered(old(assetToPriceMap), brandIn, brandOut);
      RegisterPreservesWellFormed(old(assetToPriceMap), brandIn, brandOut);
      return Pass;
    }

    /**
     * The router's setPrice(newPrice): fails through `paFor` when no pair exists
     * for the ratio's brands in either order; otherwise sets that authority's price.
     */
    method SetPrice(newPrice: Ratio) returns (outcome: Outcome<RegistryError>)
      requires Valid()
      modifies this
      ensures Valid()
      ensures outcome.Fail? <==> !Routable(old(assetToPriceMap), newPrice)
      ensures outcome.Fail? ==> outcome.error == NoPriceAuthority(RouteIn(newPrice).allegedName, RouteOut(newPrice).allegedName)
      ensures outcome.Fail? ==> assetToPriceMap == old(assetToPriceMap)
      ensures outcome.Pass? ==> assetToPriceMap == PriceSet(old(assetToPriceMap), newPrice)
    {
      var pa := PaFor(assetToPriceMap, newPrice.numerator.brand, newPrice.denominator.brand);
      if pa.Failure? {
        return Fail(pa.error);
      }
      var (a, b) := Locate(assetToPriceMap, newPrice.numerator.brand, newPrice.denominator.brand).value;
      var entry := assetToPriceMap[a][b];
      assetToPriceMap := assetToPriceMap[a := assetToPriceMap[a][b := WithPrice(entry, newPrice)]];
      UpdatePreservesWellFormed(old(assetToPriceMap), newPrice, 0);
      return Pass;
    }

    /**
     * updatePrice(newPrice) at timer reading `now`: set the price through the
     * router, then append one record to the recorder found for the same brands.
     * Fails, changing nothing, when the pair is unknown.
     */
    method UpdatePrice(newPrice: Ratio, now: Timestamp) returns (outcome: Outcome<RegistryError>)
      requires Valid()
      modifies this
      ensures Valid()
      ensures outcome.Fail? <==> !Routable(old(assetToPriceMap), newPrice)
      ensures outcome.Fail? ==> outcome.error == NoPriceAuthority(RouteIn(newPrice).allegedName, RouteOut(newPrice).allegedName)
      ensures outcome.Fail? ==> assetToPriceMap == old(assetToPriceMap)
      ensures outcome.Pass? ==> assetToPriceMap == PriceUpdated(old(assetToPriceMap), newPrice, now)
    {
      outcome := SetPrice(newPrice);
      if outcome.Fail? {
        return;
      }
      var recorderKey := Locate(assetToPriceMap, newPrice.numerator.brand, newPrice.denominator.brand);
      // The recorder is found wherever the authority was: both live in one entry.
      var (a, b) := recorderKey.value;
      var entry := assetToPriceMap[a][b];
      var record := QuoteRecordFor(newPrice, now);
      assetToPriceMap := assetToPriceMap[a := assetToPriceMap[a][b := WithRecord(entry, record)]];
      UpdatePreservesWellFormed(old(assetToPriceMap), newPrice, now);
    }
  }

  /**
   * The bootstrap's use of the registry: register IST/BLD, publish the price
   * 1,000,000 IST : 99,000,000 BLD; a second registration in either order is
   * refused.
   */
  method BootstrapScenario(ist: Brand, bld: Brand, now: Timestamp)
    requires ist != bld
  {
    var registry := new PriceRegistry();
    var registered := registry.RegisterPricePair(ist, bld);
    assert registered == Pass;
    RegisterFindsBothOrders(map[], ist, bld);
    var price := MakeRatio(1000000, ist, Some(99000000), Some(bld));
    var updated := registry.UpdatePrice(price.value, now);
    assert updated == Pass;
    var again := registry.RegisterPricePair(bld, ist);
    assert again.Fail?;
  }
}
