/**
 * The registry's nested map `Map<Brand, Map<Brand, PairData>>` and the lookups
 * over it (contract/src/onrampPriceRegistry.contract.js): `findPa`,
 * `recorderFor`, `pricePairExists` and `paFor`. Also the registry invariant and
 * the view of the registry as one map keyed by the unordered pair of brands.
 */
module PriceMaps {
  import opened Wrappers
  import opened Ratios
  import opened PairIds
  import opened PairData

  type PriceMap = map<Brand, map<Brand, PairEntry>>

  datatype RegistryError =
    | PairAlreadyExists(pairId: string)                  // "Price pair already exists for <pairId>"
    | NoPriceAuthority(nameIn: string, nameOut: string)  // "No price authority for <in> -> <out>"

  /** An entry is stored under `x -> y`. */
  predicate Stored(m: PriceMap, x: Brand, y: Brand)
  {
    x in m && y in m[x]
  }

  /**
   * The key path under which the lookups find the pair (x, y): the direct
   * entry `x -> y` when there is one, otherwise the reverse entry `y -> x`.
   */
  function Locate(m: PriceMap, x: Brand, y: Brand): (key: Option<(Brand, Brand)>)
    ensures key.Some? <==> Stored(m, x, y) || Stored(m, y, x)
    ensures key.Some? ==> Stored(m, key.value.0, key.value.1) && {key.value.0, key.value.1} == {x, y}
    ensures Stored(m, x, y) ==> key == Some((x, y))
  {
    if Stored(m, x, y) then Some((x, y))
    else if Stored(m, y, x) then Some((y, x))
    else None
  }

  /** The entry for the pair, in either order, or nothing. */
  function FindEntry(m: PriceMap, x: Brand, y: Brand): (entry: Option<PairEntry>)
    ensures entry.Some? <==> Stored(m, x, y) || Stored(m, y, x)
    ensures entry.Some? && Stored(m, x, y) ==> entry.value == m[x][y]
    ensures entry.Some? && !Stored(m, x, y) ==> entry.value == m[y][x]
  {
    match Locate(m, x, y)
    case Some((a, b)) => Some(m[a][b])
    case None => None
  }

  /** findPa(brandIn, brandOut). */
  function FindPa(m: PriceMap, brandIn: Brand, brandOut: Brand): (pa: Option<ManualPriceAuthority>)
    ensures pa.Some? <==> FindEntry(m, brandIn, brandOut).Some?
    ensures pa.Some? ==> pa.value == FindEntry(m, brandIn, brandOut).value.priceAuthority
  {
    match FindEntry(m, brandIn, brandOut)
    case Some(entry) => Some(entry.priceAuthority)
    case None => None
  }

  /** recorderFor(brandIn, brandOut). */
  function RecorderFor(m: PriceMap, brandIn: Brand, brandOut: Brand): (recorder: Option<Recorder>)
    ensures recorder.Some? <==> FindEntry(m, brandIn, brandOut).Some?
    ensures recorder.Some? ==> recorder.value == FindEntry(m, brandIn, brandOut).value.recorder
  {
    match FindEntry(m, brandIn, brandOut)
    case Some(entry) => Some(entry.recorder)
    case None => None
  }

  /** pricePairExists(brandA, brandB): registered in either order. */
  function PricePairExists(m: PriceMap, brandA: Brand, brandB: Brand): (exists_: bool)
    ensures exists_ <==> Stored(m, brandA, brandB) || Stored(m, brandB, brandA)
  {
    FindPa(m, brandA, brandB).Some?
  }

  /** paFor(brandIn, brandOut): the pair's authority, or the "No price authority" failure. */
  function PaFor(m: PriceMap, brandIn: Brand, brandOut: Brand): (r: Result<ManualPriceAuthority, RegistryError>)
    ensures r.Failure? <==> !PricePairExists(m, brandIn, brandOut)
    ensures r.Failure? ==> r.error == NoPriceAuthority(brandIn.allegedName, brandOut.allegedName)
    ensures r.Success? ==> Some(r.value) == FindPa(m, brandIn, brandOut)
  {
    match FindPa(m, brandIn, brandOut)
    case Some(pa) => Success(pa)
    case None => Failure(NoPriceAuthority(brandIn.allegedName, brandOut.allegedName))
  }

  /** `findPa` and `recorderFor` agree: one finds the pair exactly when the other does, and from the same entry. */
  lemma FindPaRecorderForAgree(m: PriceMap, x: Brand, y: Brand)
    ensures FindPa(m, x, y).Some? <==> RecorderFor(m, x, y).Some?
    ensures FindPa(m, x, y).Some? ==>
              FindEntry(m, x, y) == Some(PairEntry(FindPa(m, x, y).value, RecorderFor(m, x, y).value))
  {
  }

  /** Each unordered pair of brands has at most one entry across both directions. */
  ghost predicate AtMostOnePerPair(m: PriceMap)
  {
    forall a, b :: Stored(m, a, b) && Stored(m, b, a) ==> a == b
  }

  /** The price `ratio` is between brands `a` and `b`, in either orientation. */
  predicate PriceOnPair(ratio: Ratio, a: Brand, b: Brand)
  {
    {ratio.numerator.brand, ratio.denominator.brand} == {a, b}
  }

  /** The entry under `a -> b` was made for `a -> b` and publishes under the pair's identifier. */
  ghost predicate EntryMatchesKey(m: PriceMap, a: Brand, b: Brand)
    requires Stored(m, a, b)
  {
    var entry := m[a][b];
    && entry.priceAuthority.actualBrandIn == a
    && entry.priceAuthority.actualBrandOut == b
    && PriceOnPair(entry.priceAuthority.currentPrice, a, b)
    && entry.recorder.node == MakePairId(a, b)
  }

  /** The registry invariant. */
  ghost predicate WellFormed(m: PriceMap)
  {
    && AtMostOnePerPair(m)
    && forall a, b :: Stored(m, a, b) ==> EntryMatchesKey(m, a, b)
  }

  /** Two-element sets are equal only when their elements are, in some order. */
  lemma PairSetsEqual(a: Brand, b: Brand, x: Brand, y: Brand)
    requires {a, b} == {x, y}
    ensures (a == x && b == y) || (a == y && b == x)
  {
  }

  /** The unordered pairs the registry holds an entry for. */
  ghost function PairKeys(m: PriceMap): set<set<Brand>>
  {
    set a, b | a in m && b in m[a] :: {a, b}
  }

  /**
   * The registry as a single map keyed by the unordered pair `{a, b}`. Under
   * the invariant each key has exactly one entry, so the choice is determined.
   */
  ghost function View(m: PriceMap): map<set<Brand>, PairEntry>
  {
    map k | k in PairKeys(m) :: var a, b :| Stored(m, a, b) && {a, b} == k; m[a][b]
  }

  /** `{x, y}` is a key of the view exactly when the pair is stored in some order. */
  lemma InView(m: PriceMap, x: Brand, y: Brand)
    ensures {x, y} in View(m) <==> Stored(m, x, y) || Stored(m, y, x)
  {
    if Stored(m, y, x) {
      assert {y, x} == {x, y};
      assert {y, x} in PairKeys(m);
    }
    if {x, y} in PairKeys(m) {
      var a, b :| a in m && b in m[a] && {a, b} == {x, y};
      PairSetsEqual(a, b, x, y);
    }
  }

  /** Under the invariant the view maps `{x, y}` to the one entry stored for the pair. */
  lemma ViewAt(m: PriceMap, x: Brand, y: Brand)
    requires AtMostOnePerPair(m)
    requires Stored(m, x, y)
    ensures {x, y} in View(m) && View(m)[{x, y}] == m[x][y]
  {
  }

  /**
   * The two-direction lookup is exactly a lookup of the unordered pair: under
   * the invariant the order of the two brands does not matter.
   */
  lemma FindEntryIsViewLookup(m: PriceMap, x: Brand, y: Brand)
    requires AtMostOnePerPair(m)
    ensures FindEntry(m, x, y) == if {x, y} in View(m) then Some(View(m)[{x, y}]) else None
  {
  }

  /** Lookups are order-independent. */
  lemma FindEntrySymmetric(m: PriceMap, x: Brand, y: Brand)
    requires AtMostOnePerPair(m)
    ensures FindEntry(m, x, y) == FindEntry(m, y, x)
    ensures PaFor(m, x, y).Success? <==> PaFor(m, y, x).Success?
  {
  }
}
