# A verified model of the city builder, the settlement money and the delivery protocols

This project restates, in Dafny, five parts of the repository whose correctness does not show in any one
function, and proves what they promise.

1. **The demo city's layout** (`Sorting`, `Terrain`, `Packing`, `Roads`, `CitySite`, `CityLayout`). Two jogged street
   grids and a highway over any terrain window, then seven centre-out passes that pack buildings. The occupied grid
   and the list of lots are the fields of a class and are changed in place; each method is proved against a function
   on plans, and the packing, maximality and nearest-first theorems are about that function. Distances from the
   centre are four times their square, so that a centre between lots stays a whole number.
2. **A settlement's own money** (`Rates`, `Ledgers`, `Currency`, `CurrencyReserve`, `CurrencyInvariant`,
   `CurrencyReserveInvariant`, `CurrencyRuns`, `CurrencyOffer`, `CurrencyOfferGaps`, `CurrencyCharter`,
   `CurrencyWindDown`, `CurrencyReserveEffect`, `SettlementWork`). Exact integer conversions with the 64-bit overflow of their products; the
   double-entry ledger; and charter, mint, conversion, payment, burn, withdrawal, intervention and wind-down as
   transactions over the ledger and the counter row. `SettlementWork` holds the step-by-step code, each method proved
   equal to its specification in `Currency`, including that a failure leaves the books as they were.
3. **Three protocols** as step relations, with the code of one pass beside each: the command inbox (`CommandInbox`), the
   transactional outbox (`Outbox`), and the gateway's priority lanes (`PriorityLanes`). A run is any sequence of steps
   of any number of workers, with crashes, redeliveries and repeats.
4. **The command-rate watch** (`CommandRate`): the bounded recorder against one that remembers everything.
5. **Arithmetic and search**: the crime dice (`CrimeDice`), the property tax (`PropertyTax`), the river stroke
   (`RiverStroke`, over real numbers) and the flattest city window (`CityWindow`).

## What the proofs found

- **The catch-all housing pass never places anything** (`CityLayout.CatchAllPlacesNothing`). Its comment calls it a safety
  net for gaps between zones, but the three zones divide the window and each was filled with a 2x2 footprint already.
- **A street may run over ground barred to it exactly when some row or column of the window has no tile the class may
  cross** (`Roads.StreetsAvoidBarredGround`). The highway ignores terrain altogether.
- **An offered conversion may be refused though nothing changed.** The offer asks the desk for the units the payer lacks;
  the desk sells whole SUP and may have to deliver more. `CurrencyOffer.OfferForetellsConverted` gives the exact
  condition, `CurrencyOfferGaps.OfferedConversionMayBeRefused` a run at the default charter terms that ends there.
- **A price quoted for price and tax together may be refused as moved, though nothing moved.** The shop quotes one
  rounding of the total and the burn converts for two; `Rates.TwoCeilings` says when they differ,
  `CurrencyOffer.OfferForTheTotal` when that refuses a payer, `CurrencyOfferGaps.QuotedPriceMayMoveByItself` a sale of 35
  taxed at three percent that it does refuse.
- The error after a tax payment is unreachable, as its comment says, even where the sum of price and tax leaves 64 bits
  (`CurrencyOffer.BurnErrorsNeedOverflow`).
- The desk's price search returns zero "or overflow", as its comment says: for some requests at the edge of 64 bits it
  returns zero although an amount buys the units. `Rates.NothingMayHideAPrice` says exactly for which.
- "No free money" when minting fails at rates so large that the reference rate times ten thousand leaves 64 bits;
  `Rates.WhichRatesPrintForFree` gives the exact rates, `Rates.OneSUPMintsAMillion` one of them.
- The shares of a wind-down are equal whatever the order of the claims exactly when the pot divides evenly
  (`CurrencyWindDown.OrderIsNothingToEvenPots`); otherwise rounding leaves a later claimant up to a coin more for each
  claim before, and never less (`CurrencyWindDown.ClaimsAreFair`).
- Claiming the inbox row before the work loses commands (`CommandInbox.ClaimingFirstLosesCommands`). The comment at
  internal/infrastructure/postgres/inbox.go:46 asks for the claim inside the work's own transaction; the service records
  afterwards instead, and the model follows the service.
- The downtown radius is a fifth of the window; its comment says a sixth. The model follows the code.
- A window of no lots still yields one grid line, 0 (`Roads.LineIndices`); no street is traced along it.

## Model

| member | source | states |
|---|---|---|
| Sorting.StableSortRanks | cmd/worldpreview/citylayout.go:330-334 | A stable sort orders by key, and any relation from earlier to later elements of the input survives between equal keys |
| Packing.PutKeepsPacked | cmd/worldpreview/citylayout.go:310-317 | Placing a footprint that fits keeps occupancy equal to roads plus lots, and the lots disjoint, inside, off the roads, on dry level ground |
| Packing.PassKeepsPacked | cmd/worldpreview/citylayout.go:379-393 | Every centre-out pass keeps the packing, for any footprint, quota, eligibility and order of positions |
| Packing.FillKeepsPacked | cmd/worldpreview/citylayout.go:457-468 | So does filling a zone with any list of footprints |
| Packing.PackedArea | cmd/worldpreview/citylayout.go:284-317 | In a packed plan the number of occupied lots is the number of road lots plus the areas of the buildings |
| Packing.FootprintSize | cmd/worldpreview/citylayout.go:310-314 | A w by h footprint covers exactly w times h lots |
| Packing.FreeIsDryAndLevel | cmd/worldpreview/citylayout.go:291-296 | Free means inside the window, not taken, not wet and not steep |
| Packing.FitsOnFreeLots | cmd/worldpreview/citylayout.go:299-309 | A footprint fits exactly when every lot under it is free; none of it hangs over the edge |
| Packing.PassAddsItsOwn | cmd/worldpreview/citylayout.go:377-410 | A pass adds only its own footprint, only at eligible positions of the order |
| Packing.FillAddsItsOwn | cmd/worldpreview/citylayout.go:457-468 | A fill adds only footprints of its list, only in its zone |
| Packing.PassExtends | cmd/worldpreview/citylayout.go:291-317 | A pass only adds: what was occupied stays occupied, what was placed stays placed, and never more than the quota is added |
| Packing.RoomOnlyShrinks | cmd/worldpreview/citylayout.go:291-317 | A footprint that fits later also fitted before |
| Packing.PassLeavesNoRoom | cmd/worldpreview/citylayout.go:395-410 | A pass that missed its quota, or had none, leaves no eligible position where its footprint fits, now or ever after |
| Packing.FillLeavesNoRoom | cmd/worldpreview/citylayout.go:457-468 | A filled zone has no room for any of its footprints, now or ever after |
| Packing.LargestFirstOrders | cmd/worldpreview/citylayout.go:458-459 | The footprints of a zone are tried by decreasing area, none lost |
| Packing.LargestFirstByGround | cmd/worldpreview/citylayout.go:458-459 | No footprint is tried before one that covers more lots |
| Packing.LargerFootprintsAreExhausted | cmd/worldpreview/citylayout.go:440-468 | When a zone comes to a footprint, no earlier one, each at least as large, fits anywhere in the zone, for the rest of the layout |
| Packing.PassTakesFirstFit | cmd/worldpreview/citylayout.go:319-334 | Each lot a pass adds stands on the first eligible position of the order that had room at that moment |
| Roads.LineIndices | cmd/worldpreview/citylayout.go:520-534 | For every positive spacing the loop ends with exactly the in-range indices congruent to size/2, strictly increasing |
| Roads.ArterialLinesAreLocal | cmd/worldpreview/citylayout.go:163-179 | Every arterial line is one of the local lines |
| Roads.Jog | cmd/worldpreview/citylayout.go:613-626 | The passing index nearest the nominal one, the larger on a tie, the nominal one only if it passes or none does |
| Roads.JogIsUnique | cmd/worldpreview/citylayout.go:613-626 | That description fits one index at most |
| Roads.JogExists | cmd/worldpreview/citylayout.go:613-626 | And always fits one, for any test |
| Roads.TraceLineSet | cmd/worldpreview/citylayout.go:568-585 | A traced set holds exactly the jogged lots of each line, across and down |
| Roads.StreetsAvoidBarredGround | cmd/worldpreview/citylayout.go:541-585 | No street of a class runs over ground barred to it if and only if every row and column has a tile passable for the class |
| Roads.OnlyWideRiversPartTheClasses | cmd/worldpreview/citylayout.go:541-549 | An arterial crosses all that a local road may, and wide rivers besides; neither crosses impassable or steep ground |
| Roads.TopClassIsTheHighest | cmd/worldpreview/citylayout.go:249-273 | A lot's class is the highest of all the roads traced over it, and none without one |
| Roads.ElevatedHighwayPath | cmd/worldpreview/citylayout.go:595-608 | The highway is one full row, inside the window, whatever the terrain |
| Roads.SetClasses | cmd/worldpreview/citylayout.go:259-273 | Listed lots rise to the class, a higher class already there stays, all other lots are untouched |
| CitySite.Site.constructor | cmd/worldpreview/citylayout.go:284-287 | At first exactly the road lots are occupied and nothing is placed |
| CitySite.Site.IsBuildable | cmd/worldpreview/citylayout.go:291-296 | True exactly for a lot inside the window, unoccupied, dry and not steep |
| CitySite.Site.HasRoom | cmd/worldpreview/citylayout.go:299-309 | True exactly when every lot under the footprint is free |
| CitySite.Site.Place | cmd/worldpreview/citylayout.go:299-317 | Places exactly when it fits, adding exactly the footprint and the lot; otherwise the site is as it was |
| CitySite.Site.PlaceUpTo | cmd/worldpreview/citylayout.go:377-410 | The in-place pass computes the specified pass, whose packing, maximality and first-fit are the lemmas of Packing |
| CitySite.Site.FillZone | cmd/worldpreview/citylayout.go:457-468 | The in-place fill computes the specified fill, footprints by decreasing area |
| CityLayout.CentreOrderIsByDistance | cmd/worldpreview/citylayout.go:319-334 | The order holds every position of the window, by distance from the centre, equal distances in reading order |
| CityLayout.CentreDistanceMeasures | cmd/worldpreview/citylayout.go:323-335 | The integer distance is exactly four times the squared distance from the window's middle |
| CityLayout.MiddleIsInTheMiddle | cmd/worldpreview/citylayout.go:323-334 | The distance is the same mirrored and turned over, and grows outwards |
| CityLayout.WithinIsADistance | cmd/worldpreview/citylayout.go:335-355 | Being within a radius means at most that far from the middle |
| CityLayout.RadiiScale | cmd/worldpreview/citylayout.go:188-236 | Radii, band and counts are a fifth, a third, a sixteenth, an eighth and a sixth of the window, rounded down, each with its least value |
| CityLayout.EachCivicKindOnce | cmd/worldpreview/citylayout.go:125-134 | Eight civic kinds, each wanted once, the port alone on the coast and the mine alone by a deposit |
| CityLayout.NearEdgeIsNearASide | cmd/worldpreview/citylayout.go:340-352 | Near the edge means within the band of one of the four sides |
| CityLayout.RankPositions | cmd/worldpreview/citylayout.go:323-334 | The loops and the stable sort build that order |
| CityLayout.ZonesPartition | cmd/worldpreview/citylayout.go:353-355 | Every position lies in exactly one of the downtown, mid-rise and outer zones, for every window size |
| CityLayout.AnyCornerCoast | cmd/worldpreview/citylayout.go:628-640 | True exactly when the footprint is in the window and touches a coast lot |
| CityLayout.AnyCornerDeposit | cmd/worldpreview/citylayout.go:649-675 | True exactly when a deposit lies under the footprint or within the margin around it |
| CityLayout.OnCoastTouchesIt | cmd/worldpreview/citylayout.go:628-640 | On the coast means that no lot of the building leaves the window and some lot of it is on the coast |
| CityLayout.NearDepositIsThreeLots | cmd/worldpreview/citylayout.go:649-675 | Near a deposit means that some lot of the building lies within three lots of one, both ways |
| CityLayout.BuiltIsInPlace | cmd/worldpreview/citylayout.go:357-428 | Every building of the finished city has its kind's shape and stands on its kind's ground: coast, deposit, outside downtown, edge, or its zone |
| CityLayout.ParksAndFarmsAreAsWanted | cmd/worldpreview/citylayout.go:377-410 | As many parks and farms as the size asks for stand, or no eligible spot had room for one more |
| CityLayout.LotsStandOnGoodGround | cmd/worldpreview/citylayout.go:284-317 | Every lot under a building is inside the window, dry, level and off every road |
| CityLayout.BuiltIsPacked | cmd/worldpreview/citylayout.go:284-428 | After all seven passes occupancy is exactly roads plus lots; lots are disjoint, inside, off roads, never on water or steep ground |
| CityLayout.BuiltLeavesNoGap | cmd/worldpreview/citylayout.go:422-428 | No 2x2 square of free buildable lots is left anywhere |
| CityLayout.ZonesAreFull | cmd/worldpreview/citylayout.go:412-420 | Each zone, once filled, has no room for either of its own footprints |
| CityLayout.CatchAllPlacesNothing | cmd/worldpreview/citylayout.go:422-428 | The last pass changes nothing, on any window and terrain |
| CityLayout.BuiltFillsItsZones | cmd/worldpreview/citylayout.go:412-428 | The finished city has no room left in any zone for any footprint of that zone |
| CityLayout.CivicTakesNearestSite | cmd/worldpreview/citylayout.go:357-375 | Each civic building takes the nearest suitable spot to the centre, in reading order between equals, and is missing only when no spot suits it |
| CityLayout.PlaceCivics | cmd/worldpreview/citylayout.go:357-375 | The civic loops compute the specified civic passes |
| CityLayout.TraceClasses | cmd/worldpreview/citylayout.go:249-273 | The class grid holds, for each lot, the highest class of road traced over it |
| CityLayout.CollectRoads | cmd/worldpreview/citylayout.go:275-282 | Each road lot is listed once, in reading order, with that class, and no other lot is |
| CityLayout.RoadsAvoidBarredGround | cmd/worldpreview/citylayout.go:536-585 | On crossable windows no local or arterial road lies on impassable or steep ground, no local one on a wide river |
| CityLayout.CollectBridges | cmd/worldpreview/citylayout.go:430-435 | The bridges are exactly the roads over water, each once |
| CityLayout.PlaceBuildings | cmd/worldpreview/citylayout.go:357-428 | The seven in-place passes compute the specified city |
| CityLayout.LayoutCity | cmd/worldpreview/citylayout.go:246-438 | For any size and terrain: the road network, its bridges, well-packed lots, no free 2x2 square, and every zone full |
| Rates.CeilCoversThePrice | internal/domain/currency/currency.go:72-82 | What a payer owes is the least number of units worth at least the price |
| Rates.MulDivDivides | internal/domain/currency/currency.go:46-61 | The 128-bit product divides with remainder, and is refused exactly for inputs out of order or a quotient over 63 bits |
| Rates.FloorIsWorthAtMost | internal/domain/currency/currency.go:63-70 | What a holder receives is the greatest number of units worth at most the SUP |
| Rates.WorthIsAtMost | internal/domain/currency/currency.go:96-103 | What units are worth is the greatest SUP that costs at most them |
| Rates.BadRatesAreWorthNothing | internal/domain/currency/currency.go:63-103 | An invalid rate, or a conversion out of range, comes to nothing |
| Rates.DeskRefusesNonsense | internal/domain/currency/currency.go:200-229 | The desk trades nothing for nothing, at no invalid rate and no impossible fee; at a fee of everything it keeps everything |
| Rates.TwoCeilings | internal/application/currency_local_offer.go:123-127 | Rounding price and tax apart asks at most one unit more than rounding their sum, and asks it exactly when both leave a remainder that together fit one unit |
| Rates.FeeLeavesNet | internal/domain/currency/currency.go:200-212 | The desk's rounded-up fee is the same as converting the rounded-down net |
| Rates.NetIsWhatTheFeeLeaves | internal/domain/currency/currency.go:200-229 | The desk's fee is the least whole amount that covers its share |
| Rates.SaleLeavesNet | internal/domain/currency/currency.go:217-229 | A sale keeps the same fee out of the units and pays exactly what the rest is worth |
| Rates.BuyGrows | internal/domain/currency/currency.go:200-212 | Within range, paying more never buys fewer units |
| Rates.EstimateSuffices | internal/domain/currency/currency.go:234-261 | One SUP above the closed-form estimate already buys the units |
| Rates.DeskCost | internal/domain/currency/currency.go:231-261 | The search's answer is the least SUP that buys the units, or nothing when the request is out of its reach |
| Rates.BuysFromTheExactPrice | internal/domain/currency/currency.go:200-212 | An amount buys the units exactly when it reaches the closed-form exact price and its net still converts |
| Rates.ForSaleIsForSale | internal/domain/currency/currency.go:231-233 | Some amount buys the units if and only if the exact price is a 64-bit amount whose net converts |
| Rates.NothingMayHideAPrice | internal/domain/currency/currency.go:231-261 | An answer is the exact price; and zero is returned although some amount buys the units if and only if they are for sale but out of the search's 64-bit reach |
| Rates.TheGreatestAmountHasNoPrice | internal/domain/currency/currency.go:231-233 | For every desk fee, an input for which the search returns zero though the greatest amount buys the units |
| Rates.WalkFindsLeast | internal/domain/currency/currency.go:248-253 | Walking down from the estimate stops on the least price, though it only looks one step ahead |
| Rates.DeskBuyCost | internal/domain/currency/currency.go:234-261 | The estimate, the walk down and the climb, wrap-around included, return exactly that answer |
| Rates.RoundTripLosesTheFee | internal/domain/currency/currency.go:200-229 | Buying units and selling them back never gains SUP and loses some under any fee |
| Rates.MintIsBacked | internal/domain/currency/currency.go:118-132 | Basis and fee add up to the deposit; and while the reference rate times ten thousand stays in 64 bits, units are never worth more than the deposit less its fee |
| Rates.MintIsTheMost | internal/domain/currency/currency.go:118-132 | Within 64 bits a deposit mints the greatest number of units, and adds the greatest basis, that what is left of it is worth |
| Rates.MintRefusesNonsense | internal/domain/currency/currency.go:118-132 | What a mint refuses, and that a deposit of nothing or a fee of everything mints nothing |
| Rates.WhichRatesPrintForFree | internal/domain/currency/currency.go:115-132 | A rate never mints units worth more than the deposit less its fee if and only if that product stays in 64 bits, or wraps to nothing positive, or the rate mints no units |
| Rates.OneSUPMintsAMillion | internal/domain/currency/currency.go:127 | A rate outside that condition, at which one SUP mints 1192748 units worth far more |
| Rates.BurnTakesItsShare | internal/domain/currency/currency.go:266-278 | A burn takes between nothing and the whole basis, never more than its exact share, and all of it with the last unit |
| Rates.BurnTakesNoLess | internal/domain/currency/currency.go:266-278 | What a burn takes is the greatest amount up to its exact share of the basis |
| Rates.PlanIsAffordable | internal/domain/currency/currency.go:156-172 | A planned charter is one the treasury can pay and deposits at most the minimum |
| Rates.PlanIsTheMost | internal/domain/currency/currency.go:147-172 | A founding that covers fee and minimum deposits the minimum in full; any other charter deposits the greatest amount within the minimum and the share; none is planned only when that is under the floor or nothing |
| Ledgers.PostMoves | internal/infrastructure/postgres/ledger.go:257-269 | A post adds each account's legs to its balance and leaves every other account alone |
| Ledgers.PostOutcome | internal/application/ports_ledger.go:635-663 | Exactly when a transaction is posted, and which of the three refusals it gets otherwise |
| Ledgers.PostKeepsSound | internal/application/ports_ledger.go:635-663 | A post keeps balances equal to the entries, every currency summing to zero, and only a source below zero |
| Ledgers.MoveEffect | internal/infrastructure/postgres/ledger.go:276-342 | A plain movement happens exactly when the payer holds it, and is refused for insufficient funds otherwise |
| Ledgers.HoldingsOutside | internal/application/currency.go:87-88 | The balances of all accounts outside the system add up to the currency's entries outside it |
| Ledgers.CurrencySplits | internal/application/ports_ledger.go:94-106 | A currency's entries are its source's, its sink's and those outside |
| CurrencyRuns.StepKeepsInv | internal/application/currency.go:79-88 | Every operation, failed or not, keeps source, sink and pot equal to the counters, the pot at its floor while chartered, and the ledger sound |
| CurrencyInvariant.CharterKeepsInv | internal/application/currency.go:198-289 | A charter opens a row that agrees with the ledger |
| CurrencyInvariant.BurnKeepsInv | internal/application/currency_local_offer.go:154-176 | A burn keeps counters and ledger together: the sink grows with the burnt counter, the pot stays, the basis stays within it |
| CurrencyInvariant.BurnLocalKeepsInv | internal/application/currency_local_offer.go:106-192 | So does a whole purchase with conversion and tax |
| CurrencyInvariant.PayLocalKeepsInv | internal/application/currency_local.go:131-230 | And a local payment in any direction |
| CurrencyInvariant.DeskKeepsInv | internal/application/currency_local.go:283-362 | And a desk conversion on either side |
| CurrencyReserveInvariant.MintMoreKeepsInv | internal/application/reserve.go:217-278 | And a further issue against a deposit |
| CurrencyReserveInvariant.WithdrawKeepsInv | internal/application/reserve.go:331-369 | And a withdrawal, after which the pot still holds the whole basis |
| CurrencyReserveInvariant.BudgetKeepsTheFloor | internal/domain/reserve/reserve.go:59-67 | Whatever the period's cap and use, a purchase within the budget leaves the pot at its floor of the basis or above |
| CurrencyReserveInvariant.InterveneKeepsInv | internal/application/reserve.go:391-462 | The head's purchase moves the pot and its counter together and keeps the floor |
| CurrencyReserveInvariant.ReturnToPotKeepsInv | internal/application/fx.go:296-327 | Change coming back from the book, like proceeds, raises the pot and its counter together |
| CurrencyReserveInvariant.FeeReturnShifts | internal/application/fx.go:481-505 | Of what a sale's buyer pays, fee included, exactly the proceeds reach the pot, and no other settlement's accounts move |
| CurrencyReserveInvariant.TreasuryBurnKeepsInv | internal/application/reserve.go:283-305 | So does a burn of the treasury's units |
| CurrencyReserveInvariant.ClaimKeepsInv | internal/application/reserve.go:560-615 | And a claim while the money winds down: units burnt and SUP released are both counted |
| CurrencyReserveInvariant.FinishKeepsInv | internal/application/reserve.go:619-664 | And the end of a wind-down, whose payment out of the pot is counted as released |
| CurrencyReserveEffect.MintMoreEffect | internal/application/reserve.go:217-278 | Each refusal of a further issue, or exactly whose SUP goes into the pot, who receives the units, and the new row |
| CurrencyReserveEffect.WithdrawEffect | internal/application/reserve.go:331-369 | A withdrawal is carried out exactly within the excess over the basis, and the treasury receives it |
| CurrencyReserveEffect.FloorIsItsShare | internal/domain/reserve/reserve.go:59-67 | The floor of the pot is the greatest amount up to its share of the basis |
| CurrencyReserveEffect.BudgetIsTheMost | internal/domain/reserve/reserve.go:59-67 | Exactly what the head may take: the period's cap of the pot as it was, and never below the floor |
| CurrencyReserveEffect.BudgetIsNatural | internal/domain/reserve/reserve.go:59-67 | The budget is never negative, and nothing when the cap's product is out of range |
| CurrencyReserveEffect.InterveneEffect | internal/application/reserve.go:395-462 | A purchase is refused without chartered money or budget; otherwise exactly its escrow leaves the pot, and is counted |
| CurrencyReserveEffect.ReturnEffect | internal/application/fx.go:481-505 | Exactly what the escrow, the pot and whoever is due the fee receive when the book pays back |
| CurrencyReserveEffect.TreasuryBurnEffect | internal/application/reserve.go:283-305 | Each refusal of a treasury burn, or the units to the money's sink, counted and on record |
| CurrencyReserveEffect.BeginWindDownEffect | internal/application/reserve.go:491-507 | Chartered money begins to wind down and nothing else about it changes |
| CurrencyReserveEffect.RateAndFeeMove | internal/infrastructure/postgres/currency.go:287-293 | The rate and the desk's fee move alone, the rate until the money is retired |
| CurrencyInvariant.SupplyIsHeld | internal/application/currency.go:87-88 | The units outside the system equal the supply, so no more is burnt than was minted |
| CurrencyRuns.RunKeepsInv | internal/application/currency.go:79-88 | All of this after any sequence of operations from empty books |
| CurrencyRuns.MoneyAddsUp | internal/application/currency.go:79-88 | After any run, interventions, wind-downs and rate moves among the operations: every currency sums to zero, outside holdings equal the supply, the pot equals its counters, and while chartered it covers the share of the basis that every purchase had to leave, the whole basis when that share is all |
| CurrencyCharter.CharterEffect | internal/application/currency.go:198-289 | A first charter is issued exactly when the deposit buys a unit and the treasury covers fee and deposit; exactly which accounts move and which row appears |
| CurrencyCharter.CharterHappensOnce | internal/application/currency.go:194-204 | A second charter, on whatever terms, writes nothing |
| CurrencyCharter.AutoCharterIsAffordable | internal/application/currency.go:291-323 | An automatic charter never fails for lack of money, spends at most fee plus minimum deposit, and outside a founding only the allowed share |
| CurrencyCharter.AutoCharterDecides | internal/application/currency.go:295-323 | When an automatic charter is declined, and for what; a founding that covers both spends fee and minimum in full, any other the most the share allows |
| CurrencyWindDown.ClaimsAreFair | internal/domain/reserve/reserve.go:75-83 | After any sequence of earlier claims, in any order, a holder receives at least their share of the pot as it was and at most one coin more for each claim before |
| CurrencyWindDown.TwoClaimsMayAddTwoCoins | internal/domain/reserve/reserve.go:75-83 | An input at which two earlier claims add two coins, so that shares are not quite equal whatever the order |
| CurrencyWindDown.OrderIsNothingToEvenPots | internal/domain/reserve/reserve.go:75-83 | The shares are equal whatever the order of the claims if and only if the pot is a whole number of coins per unit |
| CurrencyWindDown.EverybodyEmptiesThePot | internal/application/reserve.go:556-559 | When all the claimable units have claimed, in any order and sizes, the pot is empty |
| CurrencyWindDown.ClaimsPayFairly | internal/application/reserve.go:553-615 | In the books: the same bounds, and the same equality, on what each of a queue of holders is paid |
| CurrencyWindDown.FinishEffect | internal/application/reserve.go:617-664 | The end of a wind-down retires the money, empties the pot into the treasury, and moves nothing else |
| CurrencyWindDown.SharesAreWithinThePot | internal/domain/reserve/reserve.go:75-83 | A share is within the pot, rounded down, and the last units take all of it |
| CurrencyWindDown.HolderIsClaimant | internal/infrastructure/postgres/currency_reserve.go:236-244 | No holder has more than all holders together, so no claim comes to nothing for that |
| CurrencyWindDown.ClaimEffect | internal/application/reserve.go:553-615 | A claim burns all the holder's units and pays exactly their share of the pot; nothing else moves |
| CurrencyWindDown.ClaimRefusals | internal/application/reserve.go:560-580 | What a claim is refused for |
| CurrencyWindDown.HoldersUnitsCount | internal/infrastructure/postgres/currency_reserve.go:236-244 | Units outside the treasury can be claimed with, the treasury's own and other money cannot |
| CurrencyWindDown.NoUnitsNoShare | internal/domain/reserve/reserve.go:78-83 | Without claimable units, without any, or for more than all there is no share |
| CurrencyCharter.SaleOutcome | internal/application/currency_local.go:283-362 | A sale to the desk: each refusal in order, or exactly these four accounts move |
| CurrencyCharter.SettleEffect | internal/application/currency_local.go:208-229 | A covered payment moves exactly its units, cut included, and records its row |
| CurrencyCharter.CutIsItsShare | internal/application/currency_local.go:175-180 | The treasury's cut is the greatest whole number of units up to its share; a share of everything or of nothing takes none |
| CurrencyCharter.PaymentOutcome | internal/application/currency_local.go:131-230 | Every outcome of a payment, with the condition of each |
| CurrencyCharter.PaymentEffect | internal/application/currency_local.go:131-230 | A local payment either writes nothing, or moves exactly the conversion and the owed units; a repeat only reports them; a dry run writes nothing |
| CurrencyOffer.FundOutcome | internal/application/currency_local_offer.go:137-153 | A shortfall is bought exactly when the desk has a price within the limit, the payer the SUP and the desk all the units it buys; otherwise the first failing reason; exactly these accounts move |
| CurrencyOffer.BurnEffect | internal/application/currency_local_offer.go:154-176 | Held units go to the currency's sink and onto the counters, nothing else moves |
| CurrencyOffer.TaxEffect | internal/application/currency_local_offer.go:178-190 | The tax is collected once per flow row, into the treasury's holding |
| CurrencyOffer.CoveredPurchaseIsPaid | internal/application/currency_local_offer.go:137-191 | A covered purchase is paid in full: every account's movement, the counters, the burn and tax rows, the reported units and conversion |
| CurrencyOffer.BurnIsAllOrNothing | internal/application/currency_local_offer.go:106-192 | Every outcome of a first purchase, in 64-bit arithmetic: nothing written, one of the desk's refusals, a refusal for missing units, or paid in full |
| CurrencyOffer.BurnErrorsNeedOverflow | internal/application/currency_local_offer.go:186-188 | The error after a tax payment is unreachable for every 64-bit balance; the burn is refused for its units exactly when the price is not held and the shortfall, or the rounded tax, left 64 bits |
| CurrencyOffer.RepeatWritesNothing | internal/application/currency_local_offer.go:115-119 | A repeat for the same flow row writes nothing and reports the burnt units only, while the first call also counted the tax |
| CurrencyOffer.StaleBurnWritesNothing | internal/application/currency_local_offer.go:106-119 | A request that is incomplete, has no chartered money, or is already on record writes nothing, and what it reports |
| CurrencyOffer.OnlyCharteredMoneyIsSpent | internal/application/currency_local_offer.go:110-114 | Money winding down or retired is neither offered nor spent |
| CurrencyOffer.TruncatesTowardZero | internal/application/currency_local_offer.go:145 | Integer division rounds toward zero, for negative numbers too |
| CurrencyOffer.LimitAllowsSlippage | internal/application/currency_local_offer.go:145-147 | The limit is the agreed most and the agreed slippage on it; with no most there is none |
| CurrencyOffer.BurnNeverShrinksExcess | internal/application/currency_local_offer.go:99-105 | A burn leaves the pot alone, and the pot less the basis grows by the burnt units' share of the basis rounded down, by all of it with the last unit |
| CurrencyOffer.OfferForetellsUnconverted | internal/application/currency_local_offer.go:34-80 | Without tax: no offer and a short payer who does not convert write nothing; a local offer is paid from held units without converting |
| CurrencyOffer.OfferShowsTheBooks | internal/application/currency_local_offer.go:34-80 | When there is an offer, and that each of its figures is the book's |
| CurrencyOffer.OfferForetellsConverted | internal/application/currency_local_offer.go:73-79 | A converting payer is served at the quoted SUP and fee if and only if they hold the SUP and the desk holds every unit that SUP buys; whoever is served was offered it, and an offered one is refused only by an empty desk |
| CurrencyOfferGaps.OfferedConversionMayBeRefused | internal/application/currency_local_offer.go:77 | A run at the default charter terms after which the screen offers a conversion and the desk refuses it |
| CurrencyOffer.TaxedShortfall | internal/application/currency_local_offer.go:123-137 | With tax the shortfall is the offer's, or one unit more exactly when the split costs a unit |
| CurrencyOffer.OfferForTheTotal | internal/application/handlers/village_shop.go:700-719 | An offer for price and tax foretells payment exactly when the extra unit is held too; with no slippage the price has moved exactly when that unit costs more |
| CurrencyOfferGaps.QuotedPriceMayMoveByItself | internal/application/handlers/village_shop.go:700-719 | A run after which a sale of 35 with its tax at three percent is quoted two SUP and refused as moved, though nothing changed |
| SettlementWork.UnitOfWork.PostEntries | internal/infrastructure/postgres/ledger.go:276-342 | Posts the legs, or leaves the books untouched |
| SettlementWork.UnitOfWork.ExecuteDesk | internal/application/currency_local.go:283-362 | Both legs or none, with the specified refusals in order |
| SettlementWork.UnitOfWork.BuyShort | internal/application/currency_local_offer.go:137-153 | The inlined conversion does what its specification says |
| SettlementWork.UnitOfWork.PayLocal | internal/application/currency_local.go:131-230 | The ordered posts and rows do what the payment's specification says, and a failure undoes them |
| SettlementWork.UnitOfWork.BurnLocal | internal/application/currency_local_offer.go:106-192 | The ordered posts, rows and early exits do what the purchase's specification says, and a failure undoes them |
| SettlementWork.UnitOfWork.LocalOfferFor | internal/application/currency_local_offer.go:34-80 | The step-by-step offer is the specified one |
| SettlementWork.UnitOfWork.CharterCurrency | internal/application/currency.go:198-289 | The three transactions, the row and the log do what the charter's specification says |
| SettlementWork.UnitOfWork.AutoCharter | internal/application/currency.go:295-323 | The automatic charter decides and charters as specified, each reason for declining apart |
| CommandInbox.AcknowledgedMeansDone | cmd/game/main.go:935-1012 | In every run a well-formed command is acknowledged only after its effect or refusal and after its reply, if any, went out; no idempotency key takes effect twice; the inbox lists only settled commands |
| CommandInbox.UnacknowledgedCanFinish | cmd/game/main.go:920-927 | From any state an unacknowledged command can still be delivered, take effect and be acknowledged |
| CommandInbox.ClaimingFirstLosesCommands | cmd/game/main.go:957-968 | With the claim first, a fault and a redelivery acknowledge a command with no effect and no refusal |
| CommandInbox.ClaimingFirstWorksUndisturbed | cmd/game/main.go:957-968 | Without a fault the rejected order does the same work |
| CommandInbox.HandleStepsLeadThere | cmd/game/main.go:980-1012 | The steps of one delivery are possible and lead to the stated system, for each outcome, lost reply and lost inbox write |
| CommandInbox.HandledMeans | cmd/game/main.go:980-1012 | A delivery is asked for again exactly on a fault or when a bot is due an answer that could not be sent; otherwise its effect, refusal, reply and inbox row are all there |
| CommandInbox.Service.Handle | cmd/game/main.go:935-1012 | The code of one delivery is such a sequence of steps; it acknowledges exactly malformed commands and those worked and answered, and records those |
| Outbox.PublishedMeansDelivered | cmd/worker/main.go:235-308 | In every run: published rows reached the broker, every row is pending or on the broker, deduplicated events appear once, none is invented |
| Outbox.StepIsHonest | cmd/worker/main.go:244-299 | No step marks a row whose event the broker has not got, unmarks one, or takes an event back |
| Outbox.DeduplicatedOnce | cmd/worker/main.go:251-264 | Deduplication by event id keeps every event exactly once |
| Outbox.DeliveriesDecide | cmd/worker/main.go:250-288 | On the broker is exactly what was accepted, reported or not; reported as published is exactly what was known to be accepted |
| Outbox.RowsAreAppended | internal/infrastructure/postgres/outbox.go:38-48 | Rows enter pending, one by one, by an append alone, and nothing takes one away |
| Outbox.NothingIsPublishedAnew | internal/infrastructure/postgres/outbox.go:160-173 | Once every row is published the broker gets nothing more until a row is appended |
| Outbox.PollLeads | cmd/worker/main.go:235-308 | Where a whole poll leads, for any delivery results and a failed marking |
| Outbox.MarksCombine | internal/infrastructure/postgres/outbox.go:208-233 | Marks of overlapping workers combine and commute, repeating them changes nothing, and no published row returns to pending |
| Outbox.PendingCanFinish | internal/infrastructure/postgres/outbox.go:150-156 | From any state a pending row can still be fetched by an idle worker, reach the broker and be marked |
| Outbox.Publisher.PublishBatch | cmd/worker/main.go:235-308 | The code of one poll is such a sequence of steps; it counts what was acknowledged and reports any failure after the whole batch |
| PriorityLanes.LanesAreSound | cmd/gateway/notify.go:212-270 | Under any interleaving a bot has an open channel exactly while a direct send is unreleased, every channel ever made is closed exactly when it is no bot's current one and never twice, and no notice waits on an open channel without a live send of its bot |
| PriorityLanes.PassesOnlyWhenClear | cmd/gateway/notify.go:252-270 | yield returns nil exactly when its look finds no unreleased direct send |
| PriorityLanes.LastReleaseWakesAll | cmd/gateway/notify.go:238-249 | Releasing a bot's last send lets every notice blocked on it wake |
| PriorityLanes.NoNoticeWakesEarly | cmd/gateway/notify.go:264-268 | A notice waiting on its bot's current channel cannot go on |
| PriorityLanes.DoneIsDone | cmd/gateway/notify.go:252-270 | A notice that went through or gave up stays so |
| PriorityLanes.OneWaiterMoves | cmd/gateway/notify.go:252-270 | A step of a waiter moves that waiter alone: a new or woken one looks, one whose context ended is out |
| PriorityLanes.ClearLaneLetsThrough | cmd/gateway/notify.go:252-270 | On a lane without unreleased sends the next look of a new or woken notice goes through |
| PriorityLanes.OnlyTheLastReleaseCloses | cmd/gateway/notify.go:237-250 | Exactly the release that ends the last send closes a channel, and it panics exactly when there is no open one |
| PriorityLanes.EnterKeepsInv | cmd/gateway/notify.go:226-235 | Entering keeps counts, channels and waiters consistent |
| PriorityLanes.ReleaseKeepsInv | cmd/gateway/notify.go:237-250 | So does releasing, once or repeatedly, and it never closes a missing or closed channel |
| PriorityLanes.Gate.EnterDirect | cmd/gateway/notify.go:226-235 | The code under the lock takes the Enter step and keeps the invariant |
| PriorityLanes.Gate.ReleaseOnce | cmd/gateway/notify.go:237-250 | The release takes the Release step, keeps the invariant and does not panic |
| PriorityLanes.Gate.LookOnce | cmd/gateway/notify.go:257-263 | One look passes exactly when the bot has no unreleased send |
| CommandRate.ForgettingChangesNothing | cmd/game/watch.go:65-98 | With a clock that never runs back the bounded recorder, swept at any moments, flags exactly what one remembering everything flags |
| CommandRate.SweepsChangeNothing | cmd/game/watch.go:87-98 | Running sweeps at any moments changes no decision |
| CommandRate.KeptIsTheLastMinute | cmd/game/watch.go:68-77 | After a command the kept slice is the player's commands of the last minute |
| CommandRate.FlagsAreAMinuteApart | cmd/game/watch.go:80-84 | Two flags of one player are at least a minute apart |
| CommandRate.FlagsMeanTooMany | cmd/game/watch.go:65-85 | A command is flagged exactly when its player sent more than the limit in the sixty seconds up to it and was not flagged in them |
| CommandRate.SweepsForgetTheQuiet | cmd/game/watch.go:87-98 | After a sweep exactly the players of the last minute are remembered |
| CommandRate.CommandWatch.KeepAfter | cmd/game/watch.go:70-75 | The in-place filter keeps exactly the later times, in order |
| CommandRate.CommandWatch.Count | cmd/game/watch.go:65-85 | The whole new state, the decision, the score and the crowding |
| CommandRate.CommandWatch.DropQuiet | cmd/game/watch.go:88-98 | The deleting loop drops exactly the quiet players and their flags |
| CommandRate.CommandWatch.Note | cmd/game/watch.go:46-61 | A named player's command is counted, and the map swept exactly when crowded; an unnamed one changes nothing |
| CrimeDice.LimitIsWhole | cmd/game/commands_crime.go:162 | The accepted range is a multiple of n and more than half of all draws |
| CrimeDice.RollIsUnbiased | cmd/game/commands_crime.go:156-173 | For every n, of all eight-byte words exactly the same number roll each value |
| CrimeDice.BigEndianInjective | cmd/game/commands_crime.go:168 | Different buffers spell different words |
| CrimeDice.Roll | cmd/game/commands_crime.go:158-173 | The first accepted buffer decides, with its own value in range; a number below two rolls zero |
| PropertyTax.AssessOwners | internal/application/citizen.go:260-285 | Each owner once, by first appearance over lots then standing buildings, with all they own |
| PropertyTax.Roll.Add | internal/application/citizen.go:266-274 | Adding one value keeps the index map and the list consistent |
| PropertyTax.AssessmentsAddUp | internal/application/citizen.go:260-285 | The assessments add up to everything owned and no owner is listed twice or missed |
| PropertyTax.OwnersInOrderOfAppearance | internal/application/citizen.go:260-262 | An owner listed earlier is met earlier |
| PropertyTax.StandingBuildingsCount | internal/application/citizen.go:278-283 | A building counts exactly when nothing tells, or what tells says it stands |
| PropertyTax.TaxIsItsShare | internal/application/citizen.go:287-298 | The tax is the greatest whole amount up to its share, at least one on anything taxable, and nothing otherwise |
| PropertyTax.SplittingCostsAtMostACoinEach | internal/application/citizen.go:287-298 | Over n owners of positive value the taxes differ from the tax on the total by at most n-1, either way |
| PropertyTax.TaxingOwnersCostsAtMostACoinEach | internal/application/citizen.go:260-298 | The taxes of all assessed owners against one tax on everything owned: less than a coin each apart |
| RiverStroke.SmoothingIsGentle | cmd/worldpreview/render.go:422-433 | Two rounds of corner cutting keep the end points, stay in the run's box, lengthen no jump, and quadruple the points |
| RiverStroke.CutsAtAQuarter | cmd/worldpreview/render.go:427-429 | A cut point lies on its segment, three times as far from the far end as from the near one |
| RiverStroke.EverySegmentIsCut | cmd/worldpreview/render.go:422-433 | Every segment gives way to its two cut points, in order, between the run's own ends |
| RiverStroke.CutRounds | cmd/worldpreview/render.go:422-433 | The two-round loop, which stops at two points, computes that smoothing |
| RiverStroke.SegmentIsUnbroken | cmd/worldpreview/render.go:434-446 | The centres of a segment run from its first to its last point, each touching the next |
| RiverStroke.RoundIsNearest | cmd/worldpreview/render.go:439-444 | A centre is the nearest pixel, halves away from zero |
| RiverStroke.StepsAreFew | cmd/worldpreview/render.go:436 | A segment takes no more steps than its longer side needs |
| RiverStroke.BrushFollowsTheWidth | cmd/worldpreview/render.go:439-444 | At a cell the brush's radius is one less than the river's width there |
| RiverStroke.BrushIsAPixelAtLeast | cmd/worldpreview/render.go:439-442 | The brush is never thinner than one pixel |
| RiverStroke.RiverWidth | cmd/worldpreview/render.go:401-407 | The tripling loop computes the stroke's width, one to five |
| RiverStroke.WidthCountsTriplings | cmd/worldpreview/render.go:396-407 | The width is one more than the triplings of twenty the flow exceeds, up to five |
| RiverStroke.RunsKeepEveryCell | cmd/worldpreview/render.go:449-458 | Splitting loses no cell and keeps their order |
| RiverStroke.RunsNeverJumpFar | cmd/worldpreview/render.go:449-458 | Within a run no jump exceeds half the map |
| RiverStroke.RunsSplitOnlyAtJumps | cmd/worldpreview/render.go:452-454 | Between runs the river does jump more than half the map |
| RiverStroke.BreaksBeyondHalfTheMap | cmd/worldpreview/render.go:452 | A river breaks where it jumps more than half the map sideways, either way |
| RiverStroke.RunIsConsecutive | cmd/worldpreview/render.go:449-458 | Each run is made of consecutive cells of the river, in its order |
| RiverStroke.Canvas.DrawDot | cmd/worldpreview/render.go:481-495 | Paints exactly the disc, as far as it lies on the image |
| RiverStroke.DiscsAreRound | cmd/worldpreview/render.go:481-495 | A disc reaches its radius straight and leaves out the corners of its square |
| RiverStroke.InkStaysOnTheImage | cmd/worldpreview/render.go:488-490 | Ink falls on every inked pixel of the image and on none off it |
| RiverStroke.Canvas.DrawSegment | cmd/worldpreview/render.go:436-446 | Paints exactly the segment's dots |
| RiverStroke.Canvas.DrawRun | cmd/worldpreview/render.go:421-448 | Paints exactly the smoothed run's dots |
| RiverStroke.Canvas.DrawRiver | cmd/worldpreview/render.go:415-459 | Paints exactly the dots of every run, flushed at each jump and at the end |
| RiverStroke.RiverIsUnbroken | cmd/worldpreview/render.go:409-459 | Each run of two or more cells is an unbroken painted chain of centres from its first cell's pixel to its last cell's, no segment over half the map; a run of one cell draws nothing |
| CityWindow.IsSteepAt | cmd/worldpreview/export_city.go:849-870 | True exactly when some measured neighbour differs by more than the threshold |
| CityWindow.CliffsAreSteep | cmd/worldpreview/export_city.go:849-870 | More than 220 metres up or down to a tile one straight step away, within the grid's columns, is steep |
| CityWindow.SteepHasACliff | cmd/worldpreview/export_city.go:849-870 | And steep ground has such a tile beside it |
| CityWindow.WetIsAnyWater | cmd/worldpreview/export_city.go:795-799 | Wet means flagged as ocean, stream or lake |
| CityWindow.BadIsWetOrSteep | cmd/worldpreview/export_city.go:822-828 | A tile counts against a window when it is wet, or steep, or both |
| CityWindow.SteepTilesComeInPairs | cmd/worldpreview/export_city.go:849-870 | Beside every steep tile lies another |
| CityWindow.CountBad | cmd/worldpreview/export_city.go:816-829 | The running count is the number of wet or steep tiles of the window |
| CityWindow.BestCityWindow | cmd/worldpreview/export_city.go:810-837 | The first offset in row order with the fewest bad tiles among all windows that fit; the corner when none fits |
| CityWindow.ChunkWithinIsOnGrid | cmd/worldpreview/export_city.go:810-822 | A chunk within the grid's columns and rows meets what the search requires |
| CityWindow.FirstFlattestIsUnique | cmd/worldpreview/export_city.go:801-809 | At most one offset answers that description, so the grid alone settles it |

## Left out

- Machine integers: the products and sums inside the rate arithmetic, the shortfall and the slippage limit wrap at 64 bits as in the original; ledger balances, counters, a transfer's cut and the property tax product are unbounded.
- CurrencyOffer.BurnErrorsNeedOverflow: and the offer lemmas take the payer's balance to fit its 64-bit column, since the ledger's own sums are unbounded here.
- CurrencyWindDown.ClaimEffect: and the fairness lemmas take the pot to fit its 64-bit column, for the same reason.
- CurrencyRuns.MoneyAddsUp: other transactions of a run touch no reserve pot and no system account of a settlement's currency. The order book is reduced to what it moves: the escrow a purchase takes from the pot and the payments it returns; its matching and the reference rate it yields are inputs. The period's use and the claim window's end are inputs too.
- RiverStroke.RiverIsUnbroken: over real numbers, so rounding of 64-bit floats is not captured; nor are the stroke's colours, only which pixels are painted.
- CrimeDice.Roll: the supply of buffers is a finite input, so that the unbounded rejection loop ends; a failing random source is not modelled.
- PriorityLanes.LanesAreSound: safety and the ability to wake; notices may starve by design.
- CommandRate.ForgettingChangesNothing: the clock never runs back for commands, and a player never flagged counts as flagged long ago, as the zero time is; raising the flag with its recorder is left out.
- Outbox.PublishedMeansDelivered: batch limits, order by row id, attempt counters and log levels are left out; overlapping claims are allowed instead.
- CommandInbox.AcknowledgedMeansDone: idempotency keys never expire; activity stamps and money decoration are left out.
- CityLayout.LayoutCity: storey counts, rotation and the position hash are left out.
- CityWindow.BestCityWindow: requires the chunk to lie on the grid, where the original would index out of range.
- CurrencyReserve.MintMore: and the other operations of that module are functions only; their code is not restated step by step.
- Account opening, account-not-found errors, currency names, desk-trade rows, the quote's slippage setting and the time stamps of all rows.
- Interleavings inside one money operation: each is one transaction, its locks and unique keys taken as given.
- Players and settlements are different owners even under equal ids.
- The bot fleet, screens, SQL, configuration, hillshading, export formats and everything else of the repository.
