# Onramp price registry — Dafny model

This project models the pair registry of the onramp price registry contract
(`contract/src/onrampPriceRegistry.contract.js`) and the `makeRatio` ratio
constructor of its proposal (`contract/src/onrampPriceRegistry.proposal.js`).

The registry is a nested map from an input brand to an output brand to the
pair's data: a manual price authority holding the pair's current price, and a
recorder that publishes the pair's price history. Pairs are looked up in both
orders. A pair may be registered only once across both orders. A new pair
starts at a decimal-adjusted 1:1 price. Each price update sets the routed
authority's price and appends one quote record to that pair's history.

Files and modules:

- `wrappers.dfy` (`Wrappers`): `Option`, `Result` and `Outcome`, for the values and errors the source returns or throws.
- `ratios.dfy` (`Ratios`): brands, amounts, ratios and `MakeRatio` with its defaults and its zero-denominator check.
- `pair_ids.dfy` (`PairIds`): `MakePairId`, the sorted `nameA_nameB` storage name, over a lexicographic name order.
- `pair_data.dfy` (`PairData`): the per-pair data, the `decimalPlaces || 6` fallback, the initial price and the quote record.
- `price_map.dfy` (`PriceMaps`): the lookups `findPa`, `recorderFor`, `pricePairExists` and `paFor`, and the registry invariant.
  It also gives the view of the registry as one map keyed by the unordered pair `{a, b}`.
- `registration.dfy` (`Registration`): the effect of `registerPricePair` as a function of the old map, with its lemmas.
- `price_updates.dfy` (`PriceUpdates`): the effects of the `setPrice` router and of `updatePrice`, with their lemmas.
- `registry.dfy` (`OnrampRegistry`): the class `PriceRegistry`.
  Its field `assetToPriceMap` is the mutable map, and the methods `RegisterPricePair`, `SetPrice` and `UpdatePrice` change it.
  Each method keeps the invariant and states its new map through the functions above.
  `BootstrapScenario` is a client.
  It registers IST/BLD, publishes 1,000,000 IST : 99,000,000 BLD, and checks that registering BLD/IST afterwards is refused.

Modelling choices:

- A brand is a value `Brand(id, allegedName, decimalPlaces)`, and equality is by the whole value.
  Two brands can share a name; the `id` tells them apart.
  `decimalPlaces` is an `Option` so that a missing value can be told apart from 0.
- The price authority is reduced to the brands it was made for and its current price.
  The recorder is reduced to its storage node name and the sequence of records it has written.
  Both are reachable only through the registry's map, so replacing the entry in the map models their in-place updates.
- The timer reading is the parameter `now` of `UpdatePrice`.
- `localeCompare(...) <= 0` is modelled as lexicographic order on character codes (`NameLe`).
- Registration and update each run as one atomic step.

## Model

| member | source | states |
|---|---|---|
| `Ratios.MakeRatio` | contract/src/onrampPriceRegistry.proposal.js:19-33 | Fails exactly when the (defaulted) denominator is not > 0, naming the denominator brand. On success the result has a positive denominator. Its numerator is the given brand and value. Its denominator is the given value (default 100) and brand (default: the numerator brand). |
| `Ratios.MakeRatioRoundTrip` | contract/src/onrampPriceRegistry.proposal.js:29-32 | Every ratio with a positive denominator is rebuilt exactly by `makeRatio` from its own four components. |
| `Ratios.MakeRatioDefaults` | contract/src/onrampPriceRegistry.proposal.js:10-24 | With both optional arguments omitted, the result is numerator/100 of the numerator brand. |
| `Ratios.MakeRatioRejectsNonPositive` | contract/src/onrampPriceRegistry.proposal.js:25-26 | A zero or negative denominator fails with the "no infinite ratios" error, whatever the other arguments are. |
| `Ratios.MakeRatioBootstrapPrice` | contract/src/onrampPriceRegistry.proposal.js:129 | `makeRatio(1000000, IST, 99000000, BLD)` succeeds with exactly those components. |
| `PairIds.NameLeTotal` | contract/src/onrampPriceRegistry.contract.js:101 | The name order used for sorting relates any two names. |
| `PairIds.NameLeAntisymmetric` | contract/src/onrampPriceRegistry.contract.js:101 | Two names that each sort no later than the other are equal. |
| `PairIds.NameLeTransitive` | contract/src/onrampPriceRegistry.contract.js:101 | The name order is transitive. |
| `PairIds.MakePairId` | contract/src/onrampPriceRegistry.contract.js:95-104 | Whichever name sorts first comes first, then `_`, then the other name. This holds in both argument orders, and the length is the two names' lengths plus one. |
| `PairIds.PairIdSymmetric` | contract/src/onrampPriceRegistry.contract.js:95-104 | `makePairId(a, b) == makePairId(b, a)`. |
| `PairIds.PairIdSameName` | contract/src/onrampPriceRegistry.contract.js:101-103 | Two brands with the same name give `name_name`. |
| `PairIds.PairIdCollision` | contract/src/onrampPriceRegistry.contract.js:101-103 | The identifier is not injective: the name pairs {`a_b`, `c`} and {`a`, `b_c`} both give `a_b_c`. |
| `PairData.DecimalsOrDefault` | contract/src/onrampPriceRegistry.contract.js:234-236 | A brand's decimals are its `decimalPlaces` when present and non-zero. When that value is missing or 0 they are 6. They are always positive. |
| `PairData.Pow10` | contract/src/onrampPriceRegistry.contract.js:247-249 | `10 ** n` is at least 1, and at least 10 for n > 0. |
| `PairData.InitialPrice` | contract/src/onrampPriceRegistry.contract.js:238-251 | The initial price is `10^outDecimals` of `brandOut` over `10^inDecimals` of `brandIn`, built by `makeRatio`. Its denominator is positive. |
| `PairData.InitialPriceSixDecimals` | contract/src/onrampPriceRegistry.contract.js:234-251 | A 6-decimal brand paired with a brand lacking decimals starts at 1,000,000 / 1,000,000. |
| `PairData.NewEntry` | contract/src/onrampPriceRegistry.contract.js:240-259 | A new entry's authority is made for `brandIn -> brandOut` at the initial price. Its recorder publishes under `makePairId(brandIn, brandOut)` and starts with no records. |
| `PairData.QuoteRecordFor` | contract/src/onrampPriceRegistry.contract.js:344-358 | The written record has the numerator as `amountIn` and the denominator as `amountOut`. Each carries its brand's decimals (defaulting to 6, always positive), and `lastUpdated` is the timer reading. |
| `PriceMaps.Locate` | contract/src/onrampPriceRegistry.contract.js:142-153 | The pair is found iff it is stored in either order. The key found is stored and is the same unordered pair. The direct order wins when it is stored. |
| `PriceMaps.FindEntry` | contract/src/onrampPriceRegistry.contract.js:128-153 | Returns the `in -> out` entry if present, otherwise the `out -> in` entry, otherwise nothing. |
| `PriceMaps.FindPa` | contract/src/onrampPriceRegistry.contract.js:142-153 | Finds an authority exactly when an entry exists in either order, and it is that entry's authority. |
| `PriceMaps.RecorderFor` | contract/src/onrampPriceRegistry.contract.js:128-135 | Finds a recorder exactly when an entry exists in either order, and it is that entry's recorder. |
| `PriceMaps.PricePairExists` | contract/src/onrampPriceRegistry.contract.js:161-165 | True iff an entry is stored under `a -> b` or `b -> a`. |
| `PriceMaps.PaFor` | contract/src/onrampPriceRegistry.contract.js:172-181 | Fails with "No price authority for in -> out" exactly when no entry exists in either order. Otherwise it returns the authority `findPa` finds. |
| `PriceMaps.FindPaRecorderForAgree` | contract/src/onrampPriceRegistry.contract.js:128-153 | `findPa` and `recorderFor` succeed together and read the same entry, so the "No recorder" assertion after a found authority cannot fire. |
| `PriceMaps.InView` | contract/src/onrampPriceRegistry.contract.js:128-153 | The unordered pair `{x, y}` is a key of the registry's view iff the pair is stored in some order. |
| `PriceMaps.FindEntryIsViewLookup` | contract/src/onrampPriceRegistry.contract.js:128-153 | Under the one-entry-per-pair invariant, the two-direction lookup equals a lookup of the unordered pair `{x, y}`. |
| `PriceMaps.FindEntrySymmetric` | contract/src/onrampPriceRegistry.contract.js:128-181 | Under the invariant, lookup is order-independent, and `paFor(x, y)` succeeds iff `paFor(y, x)` does. |
| `Registration.Registered` | contract/src/onrampPriceRegistry.contract.js:228-260 | After registration the brands with an inner map are the old ones plus `brandIn`, and the new entry is stored under `brandIn -> brandOut`. |
| `Registration.RegisterLeavesOthers` | contract/src/onrampPriceRegistry.contract.js:228-260 | Registration adds exactly one stored key path, `brandIn -> brandOut`, and leaves every existing entry unchanged. |
| `Registration.RegisterStoresOneDirection` | contract/src/onrampPriceRegistry.contract.js:256-260 | The new entry is stored under `brandIn -> brandOut` only: for distinct brands, nothing appears under `brandOut -> brandIn`. |
| `Registration.RegisterFindsBothOrders` | contract/src/onrampPriceRegistry.contract.js:223-260 | After registering, lookups in both orders return the new entry, so a second registration in either order is refused. |
| `Registration.RegisterLookupsElsewhere` | contract/src/onrampPriceRegistry.contract.js:228-260 | Lookups of every other unordered pair return what they returned before. |
| `Registration.RegisterPreservesWellFormed` | contract/src/onrampPriceRegistry.contract.js:223-260 | Registration keeps the invariant. The invariant says each unordered pair has at most one entry across both directions. It also says each entry matches its key, its price is between the pair's brands, and its recorder uses the pair id. |
| `Registration.RegisterView` | contract/src/onrampPriceRegistry.contract.js:223-260 | On the unordered-pair view, registration is one insertion of the new entry under `{brandIn, brandOut}`. |
| `PriceUpdates.Target` | contract/src/onrampPriceRegistry.contract.js:303-304 | A routable ratio resolves to a stored key path made of the ratio's numerator and denominator brands, in some order. |
| `PriceUpdates.PriceSet` | contract/src/onrampPriceRegistry.contract.js:303-306 | Setting a price neither adds nor removes any stored key path. |
| `PriceUpdates.PriceUpdated` | contract/src/onrampPriceRegistry.contract.js:323-358 | An update neither adds nor removes any stored key path. |
| `PriceUpdates.TargetStable` | contract/src/onrampPriceRegistry.contract.js:324-328 | After `setPrice`, `recorderFor` on the same brands finds the same key path that `paFor` found. |
| `PriceUpdates.UpdateSetsPriceAndAppends` | contract/src/onrampPriceRegistry.contract.js:323-358 | After `updatePrice(r)`, the pair's entry has current price `r`. Its history is the old history plus exactly one record built from `r` and the timer reading. |
| `PriceUpdates.UpdateSeenInBothOrders` | contract/src/onrampPriceRegistry.contract.js:323-358 | Under the invariant, the updated entry is also what the lookup in the reverse order returns. |
| `PriceUpdates.UpdateLeavesOthers` | contract/src/onrampPriceRegistry.contract.js:323-358 | Every entry other than the routed one, both price and history, is unchanged. |
| `PriceUpdates.UpdateAppendOnly` | contract/src/onrampPriceRegistry.contract.js:344-358 | Every pair's old records are a prefix of its new ones. The routed pair gains exactly one record and every other pair gains none. |
| `PriceUpdates.SetPriceWritesNoRecord` | contract/src/onrampPriceRegistry.contract.js:303-306 | The router's `setPrice` sets the routed authority's price, writes no record to any history, and changes no other entry. |
| `PriceUpdates.UpdatePreservesWellFormed` | contract/src/onrampPriceRegistry.contract.js:323-358 | `setPrice` and `updatePrice` keep the registry invariant. |
| `PriceUpdates.UpdateView` | contract/src/onrampPriceRegistry.contract.js:323-358 | On the unordered-pair view, `updatePrice(r)` replaces only the entry under `{numerator brand, denominator brand}`. The replacement is that entry with price `r` and one more record. |
| `OnrampRegistry.PriceRegistry.constructor` | contract/src/onrampPriceRegistry.contract.js:78-79 | The registry starts empty and well formed. |
| `OnrampRegistry.PriceRegistry.RegisterPricePair` | contract/src/onrampPriceRegistry.contract.js:201-265 | Fails with "Price pair already exists for <pairId>" iff the pair exists in either order, and then the map is unchanged. Otherwise the new map is `Registered(old, brandIn, brandOut)`. The invariant is kept in both cases. |
| `OnrampRegistry.PriceRegistry.SetPrice` | contract/src/onrampPriceRegistry.contract.js:303-306 | Fails through `paFor`, changing nothing, iff no pair exists for the ratio's brands. Otherwise the new map is `PriceSet(old, r)`. |
| `OnrampRegistry.PriceRegistry.UpdatePrice` | contract/src/onrampPriceRegistry.contract.js:323-360 | Fails, appending nothing, iff no pair exists for the ratio's brands in either order. Otherwise the new map is `PriceUpdated(old, r, now)`. The invariant is kept. |

## Left out

- The quote engine of `makeManualPriceAuthority` (quoteGiven, quoteWanted, quoteWhen*, mutableQuoteWhen*, makeQuoteNotifier, quoteAtTime, getQuoteIssuer) is an external library whose code is not part of this model. Its routers are represented by their one local step, `PaFor`.
- The authority's `setPrice` is modelled as replacing the current price. Notifying pending conditional quotes happens inside the external library.
- Zoe invitations and seats (`updatePriceHandler`, `makePriceUpdateInvitationMaker`, `registerPairHandler`, `registerNewPair`, `seat.exit`) are left out. Their one-shot use is enforced by Zoe, and each handler only calls `updatePrice` or `registerPricePair`.
- Storage and marshalling (`makeChildNode`, `prepareRecorderKitMakers`, the marshaller) are left out. A recorder is its node name plus the sequence of records it has written.
- The `namesByAddress` lookup and the delivery of the first invitation to the oracle address are left out: they are external directory I/O.
- The timer service is left out; its reading is the parameter `now`. That readings never decrease is a property of the timer, so it is not stated.
- Asynchrony is left out. The source awaits `makePairRecorder` between the existence check and the insert, so concurrent registrations of one pair could both pass the check. The model runs registration as one atomic step.
- Partial failure is left out. If recorder creation throws, the source keeps the empty inner map it created. If the timer or display-info calls throw after `setPrice`, the price is set but no record is written. The model treats the external calls as succeeding.
- `localeCompare` is locale-sensitive. The model uses lexicographic order on character codes.
- Brand metadata (`getAllegedName`, `getDisplayInfo`) comes from external calls. In the model it is carried inside the `Brand` value.
- `AmountMath.make`'s own validation is left out. Amount values are `nat` by type, so `MakeRatio`'s numerator is a `nat`.
- The contract imports `makeRatio` from Zoe's ratio library, whose code is not part of this model. The initial price is built with the proposal's `makeRatio`, which has the same defaults and check.
- Neither `updatePrice` nor `setPrice` checks its ratio's denominator (the source does not). So the invariant says stored prices are between the pair's brands, but does not say their denominators are positive.
- Bootstrap and logging (`startPriceRegistry`, `permit`, `console`/`trace` calls) are left out: they are installation glue and I/O.
