/**
 * The state change of `registerPricePair` (contract/src/onrampPriceRegistry.contract.js)
 * as a function of the old map, and what it guarantees: the new pair is found in
 * both orders, it is stored only under `brandIn -> brandOut`, nothing else
 * changes, and the registry invariant is kept.
 */
module Registration {
  import opened Wrappers
  import opened Ratios
  import opened PairData
  import opened PriceMaps

  /**
   * The map after a successful registration: `brandIn`'s inner map (created
   * empty if missing) gains the new entry under `brandOut`.
   */
  function Registered(m: PriceMap, brandIn: Brand, brandOut: Brand): (m': PriceMap)
    ensures m'.Keys == m.Keys + {brandIn}
    ensures Stored(m', brandIn, brandOut) && m'[brandIn][brandOut] == NewEntry(brandIn, brandOut)
  {
    var priceMap := if brandIn in m then m[brandIn] else map[];
    m[brandIn := priceMap[brandOut := NewEntry(brandIn, brandOut)]]
  }

  /** Registration adds exactly one stored key path and changes no existing entry. */
  lemma RegisterLeavesOthers(m: PriceMap, brandIn: Brand, brandOut: Brand)
    requires !PricePairExists(m, brandIn, brandOut)
    ensures forall a, b :: Stored(Registered(m, brandIn, brandOut), a, b) <==>
                             Stored(m, a, b) || (a == brandIn && b == brandOut)
    ensures forall a, b :: Stored(m, a, b) ==> Registered(m, brandIn, brandOut)[a][b] == m[a][b]
  {
  }

  /** The new entry is stored under `brandIn -> brandOut` and, for two distinct brands, not under `brandOut -> brandIn`. */
  lemma RegisterStoresOneDirection(m: PriceMap, brandIn: Brand, brandOut: Brand)
    requires !PricePairExists(m, brandIn, brandOut)
    ensures Registered(m, brandIn, brandOut)[brandIn][brandOut] == NewEntry(brandIn, brandOut)
    ensures brandIn != brandOut ==> !Stored(Registered(m, brandIn, brandOut), brandOut, brandIn)
  {
  }

  /**
   * After registering, both orders find the new entry, so a second
   * registration of the pair in either order is refused.
   */
  lemma RegisterFindsBothOrders(m: PriceMap, brandIn: Brand, brandOut: Brand)
    requires !PricePairExists(m, brandIn, brandOut)
    ensures FindEntry(Registered(m, brandIn, brandOut), brandIn, brandOut) == Some(NewEntry(brandIn, brandOut))
    ensures FindEntry(Registered(m, brandIn, brandOut), brandOut, brandIn) == Some(NewEntry(brandIn, brandOut))
    ensures PricePairExists(Registered(m, brandIn, brandOut), brandIn, brandOut)
    ensures PricePairExists(Registered(m, brandIn, brandOut), brandOut, brandIn)
  {
  }

  /** Lookups of every other unordered pair return what they returned before. */
  lemma RegisterLookupsElsewhere(m: PriceMap, brandIn: Brand, brandOut: Brand, x: Brand, y: Brand)
    requires !PricePairExists(m, brandIn, brandOut)
    requires {x, y} != {brandIn, brandOut}
    ensures FindEntry(Registered(m, brandIn, brandOut), x, y) == FindEntry(m, x, y)
  {
  }

  /** Registration keeps the registry invariant. */
  lemma {:induction false} RegisterPreservesWellFormed(m: PriceMap, brandIn: Brand, brandOut: Brand)
    requires WellFormed(m)
    requires !PricePairExists(m, brandIn, brandOut)
    ensures WellFormed(Registered(m, brandIn, brandOut))
  {
    var m' := Registered(m, brandIn, brandOut);
    RegisterLeavesOthers(m, brandIn, brandOut);
    forall a, b | Stored(m', a, b) && Stored(m', b, a)
      ensures a == b
    {
      if (a, b) != (brandIn, brandOut) && (b, a) != (brandIn, brandOut) {
        assert Stored(m, a, b) && Stored(m, b, a);
      }
    }
    forall a, b | Stored(m', a, b)
      ensures EntryMatchesKey(m', a, b)
    {
      if (a, b) == (brandIn, brandOut) {
        assert PriceOnPair(InitialPrice(brandIn, brandOut), brandIn, brandOut) by {
          assert {brandOut, brandIn} == {brandIn, brandOut};
        }
      } else {
        assert EntryMatchesKey(m, a, b);
      }
    }
  }

  /** On the unordered-pair view, registration is one insertion under `{brandIn, brandOut}`. */
  lemma {:induction false} RegisterView(m: PriceMap, brandIn: Brand, brandOut: Brand)
    requires AtMostOnePerPair(m)
    requires !PricePairExists(m, brandIn, brandOut)
    ensures View(Registered(m, brandIn, brandOut)) == View(m)[{brandIn, brandOut} := NewEntry(brandIn, brandOut)]
  {
    var m' := Registered(m, brandIn, brandOut);
    var k0 := {brandIn, brandOut};
    RegisterLeavesOthers(m, brandIn, brandOut);
    assert AtMostOnePerPair(m') by {
      forall a, b | Stored(m', a, b) && Stored(m', b, a)
        ensures a == b
      {
        if (a, b) != (brandIn, brandOut) && (b, a) != (brandIn, brandOut) {
          assert Stored(m, a, b) && Stored(m, b, a);
        }
      }
    }
    var expected := View(m)[k0 := NewEntry(brandIn, brandOut)];
    ViewAt(m', brandIn, brandOut);
    forall k | k in View(m')
      ensures k in expected && View(m')[k] == expected[k]
    {
      var a, b :| Stored(m', a, b) && {a, b} == k;
      if (a, b) != (brandIn, brandOut) {
        ViewAt(m, a, b);
        ViewAt(m', a, b);
        if k == k0 {
          PairSetsEqual(a, b, brandIn, brandOut);
        }
      }
    }
    forall k | k in expected
      ensures k in View(m')
    {
      if k != k0 {
        var a, b :| Stored(m, a, b) && {a, b} == k;
        InView(m', a, b);
      }
    }
  }
}
