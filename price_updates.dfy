/**
 * The state changes of the registry's `setPrice` router and of `updatePrice`
 * (contract/src/onrampPriceRegistry.contract.js) as functions of the old map.
 * Both route by the ratio's numerator and denominator brands, in either order;
 * `updatePrice` also appends one quote record to that pair's recorder.
 */
module PriceUpdates {
  import opened Wrappers
  import opened Ratios
  import opened PairData
  import opened PriceMaps

  /** The numerator and denominator brands the ratio is routed by. */
  function RouteIn(newPrice: Ratio): Brand { newPrice.numerator.brand }
  function RouteOut(newPrice: Ratio): Brand { newPrice.denominator.brand }

  /** A pair is registered for the ratio's two brands, so the update is routed somewhere. */
  predicate Routable(m: PriceMap, newPrice: Ratio)
  {
    PricePairExists(m, RouteIn(newPrice), RouteOut(newPrice))
  }

  /** The entry with its authority's current price replaced. */
  function WithPrice(entry: PairEntry, newPrice: Ratio): PairEntry
  {
    entry.(priceAuthority := entry.priceAuthority.(currentPrice := newPrice))
  }

  /** The entry with one more record written by its recorder. */
  function WithRecord(entry: PairEntry, rec: PriceQuoteRecord): PairEntry
  {
    entry.(recorder := entry.recorder.(records := entry.recorder.records + [rec]))
  }

  /** The stored key path that the ratio is routed to. */
  function Target(m: PriceMap, newPrice: Ratio): (key: (Brand, Brand))
    requires Routable(m, newPrice)
    ensures Stored(m, key.0, key.1)
    ensures {key.0, key.1} == {RouteIn(newPrice), RouteOut(newPrice)}
  {
    Locate(m, RouteIn(newPrice), RouteOut(newPrice)).value
  }

  /** `setPrice(newPrice)` on the routed authority. */
  function PriceSet(m: PriceMap, newPrice: Ratio): (m': PriceMap)
    requires Routable(m, newPrice)
    ensures forall a, b :: Stored(m', a, b) <==> Stored(m, a, b)
  {
    var (a, b) := Target(m, newPrice);
    m[a := m[a][b := WithPrice(m[a][b], newPrice)]]
  }

  /**
   * `updatePrice(newPrice)` read at timer reading `now`: set the price, then
   * write one record to the recorder found for the same two brands.
   */
  function PriceUpdated(m: PriceMap, newPrice: Ratio, now: Timestamp): (m': PriceMap)
    requires Routable(m, newPrice)
    ensures forall a, b :: Stored(m', a, b) <==> Stored(m, a, b)
  {
    var priced := PriceSet(m, newPrice);
    var (a, b) := Target(priced, newPrice);
    priced[a := priced[a][b := WithRecord(priced[a][b], QuoteRecordFor(newPrice, now))]]
  }

  /** Both updates leave the target where it was: the entry found before is the entry found after. */
  lemma TargetStable(m: PriceMap, newPrice: Ratio)
    requires Routable(m, newPrice)
    ensures Routable(PriceSet(m, newPrice), newPrice)
    ensures Target(PriceSet(m, newPrice), newPrice) == Target(m, newPrice)
  {
  }

  /**
   * After `updatePrice`, the pair, looked up in the order of the ratio's brands,
   * has the new price and exactly one more record at the end of its history.
   */
  lemma UpdateSetsPriceAndAppends(m: PriceMap, newPrice: Ratio, now: Timestamp)
    requires Routable(m, newPrice)
    ensures var before := FindEntry(m, RouteIn(newPrice), RouteOut(newPrice)).value;
            FindEntry(PriceUpdated(m, newPrice, now), RouteIn(newPrice), RouteOut(newPrice))
              == Some(WithRecord(WithPrice(before, newPrice), QuoteRecordFor(newPrice, now)))
  {
  }

  /** The same holds for the lookup in the other order, since the registry keeps one entry per pair. */
  lemma UpdateSeenInBothOrders(m: PriceMap, newPrice: Ratio, now: Timestamp)
    requires AtMostOnePerPair(m)
    requires Routable(m, newPrice)
    ensures FindEntry(PriceUpdated(m, newPrice, now), RouteOut(newPrice), RouteIn(newPrice))
         == FindEntry(PriceUpdated(m, newPrice, now), RouteIn(newPrice), RouteOut(newPrice))
  {
  }

  /** Every entry other than the routed one, prices and histories alike, is unchanged. */
  lemma UpdateLeavesOthers(m: PriceMap, newPrice: Ratio, now: Timestamp)
    requires Routable(m, newPrice)
    ensures forall a, b :: Stored(m, a, b) && (a, b) != Target(m, newPrice) ==>
                             PriceUpdated(m, newPrice, now)[a][b] == m[a][b]
  {
  }

  /**
   * Histories are append-only: every pair's old records are a prefix of its
   * new ones, only the routed pair gains a record, and it gains exactly one.
   */
  lemma UpdateAppendOnly(m: PriceMap, newPrice: Ratio, now: Timestamp)
    requires Routable(m, newPrice)
    ensures forall a, b :: Stored(m, a, b) ==>
              m[a][b].recorder.records <= PriceUpdated(m, newPrice, now)[a][b].recorder.records
    ensures forall a, b :: Stored(m, a, b) ==>
              |PriceUpdated(m, newPrice, now)[a][b].recorder.records|
                == |m[a][b].recorder.records| + (if (a, b) == Target(m, newPrice) then 1 else 0)
  {
  }

  /** The router's `setPrice` alone changes the price and writes nothing to any history. */
  lemma SetPriceWritesNoRecord(m: PriceMap, newPrice: Ratio)
    requires Routable(m, newPrice)
    ensures forall a, b :: Stored(m, a, b) ==> PriceSet(m, newPrice)[a][b].recorder == m[a][b].recorder
    ensures forall a, b :: Stored(m, a, b) && (a, b) != Target(m, newPrice) ==> PriceSet(m, newPrice)[a][b] == m[a][b]
    ensures var (a, b) := Target(m, newPrice);
            PriceSet(m, newPrice)[a][b].priceAuthority.currentPrice == newPrice
  {
  }

  /** `updatePrice` keeps the registry invariant: the new price is between the pair's two brands. */
  lemma UpdatePreservesWellFormed(m: PriceMap, newPrice: Ratio, now: Timestamp)
    requires WellFormed(m)
    requires Routable(m, newPrice)
    ensures WellFormed(PriceSet(m, newPrice))
    ensures WellFormed(PriceUpdated(m, newPrice, now))
  {
  }

  /** On the unordered-pair view, `updatePrice` replaces the one entry under the ratio's two brands. */
  lemma {:induction false} UpdateView(m: PriceMap, newPrice: Ratio, now: Timestamp)
    requires AtMostOnePerPair(m)
    requires Routable(m, newPrice)
    ensures var k := {RouteIn(newPrice), RouteOut(newPrice)};
            View(PriceUpdated(m, newPrice, now))
              == View(m)[k := WithRecord(WithPrice(View(m)[k], newPrice), QuoteRecordFor(newPrice, now))]
  {
    var m' := PriceUpdated(m, newPrice, now);
    var (x, y) := Target(m, newPrice);
    var k0 := {RouteIn(newPrice), RouteOut(newPrice)};
    TargetStable(m, newPrice);
    ViewAt(m, x, y);
    assert AtMostOnePerPair(m') by {
      forall a, b | Stored(m', a, b) && Stored(m', b, a)
        ensures a == b
      {
        assert Stored(m, a, b) && Stored(m, b, a);
      }
    }
    ViewAt(m', x, y);
    var expected := View(m)[k0 := WithRecord(WithPrice(View(m)[k0], newPrice), QuoteRecordFor(newPrice, now))];
    forall k | k in View(m')
      ensures k in expected && View(m')[k] == expected[k]
    {
      var a, b :| Stored(m', a, b) && {a, b} == k;
      ViewAt(m, a, b);
      ViewAt(m', a, b);
      if (a, b) != (x, y) && k == k0 {
        PairSetsEqual(a, b, x, y);
      }
    }
    forall k | k in expected
      ensures k in View(m')
    {
      var a, b :| Stored(m, a, b) && {a, b} == k;
      InView(m', a, b);
    }
  }
}
