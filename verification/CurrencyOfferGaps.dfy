/** Two states that a handful of operations reach from empty books, at the default charter terms, in which
    the offer a payer confirmed is not the payment that follows. */
module CurrencyOfferGaps {
  import opened Rates
  import opened Ledgers
  import opened Currency
  import opened CurrencyInvariant
  import opened CurrencyReserve
  import opened CurrencyRuns
  import opened CurrencyOffer
  import opened CurrencyCharter

  const VC := "VC"
  const TOWN := "town"
  const BUYER := "buyer"
  const WORKER := "worker"
  const CODES := map[TOWN := VC]

  /** The default charter: ten units per SUP, a fee of 1000, a deposit of 5000 and half a percent kept. */
  const R0 := 10
  const FEE := 1000
  const DEPOSIT := 5000
  const MINT_FEE := 50
  const MINTED := 49_750
  const BASIS := 4_975

  function Row(xRefPPM: int): State {
    State(VC, Chartered, R0, xRefPPM, MINTED, 0, BASIS, DEPOSIT, 0, 0, 0, DEFAULT_DESK_FEE)
  }

  // ----- what the desk asks

  /** At ten units per SUP two SUP are the least that buys seven units, and they buy ten. */
  lemma SevenUnitsCostTwo(st: State)
    requires st == Row(PPM)
    ensures Price(st, 7) == 2 && Delivered(st, 7) == 10 && ToLocalCeil(st.Rate(), 1) == 10
  {
    var r := st.Rate();
    assert Wrap(10 * PPM) == 10 * PPM;
    assert DeskBuy(2, r, 30) == (10, 1);
    assert DeskBuy(1, r, 30) == (0, 1);
    assert Estimate(7, r, 30) == Quotient(1, 30);
    assert LeastPrice(2, 7, r, 30);
    LeastPriceIsUnique(2, DeskCost(7, r, 30), 7, r, 30);
  }

  /** At 12.5 units per SUP two SUP are the least that buys twelve units. */
  lemma TwelveCostTwo(st: State)
    requires st == Row(800_000)
    ensures Price(st, 12) == 2
  {
    var r := st.Rate();
    assert Wrap(10 * PPM) == 10 * PPM;
    assert DeskBuy(1, r, 30) == (0, 1);
    assert DeskBuy(2, r, 30) == (12, 1);
    assert Estimate(12, r, 30).q == 1;
    assert LeastPrice(2, 12, r, 30);
    LeastPriceIsUnique(2, DeskCost(12, r, 30), 12, r, 30);
  }

  /** And three are the least that buys thirteen. */
  lemma ThirteenCostThree(st: State)
    requires st == Row(800_000)
    ensures Price(st, 13) == 3
  {
    var r := st.Rate();
    assert Wrap(10 * PPM) == 10 * PPM;
    assert DeskBuy(2, r, 30) == (12, 1);
    assert DeskBuy(3, r, 30) == (25, 1);
    assert Estimate(13, r, 30).q == 2;
    assert LeastPrice(3, 13, r, 30);
    LeastPriceIsUnique(3, DeskCost(13, r, 30), 13, r, 30);
  }

  /** A price of 35 and its tax of 1 are 450 units together and 451 apart. */
  lemma ThirtySixSUP(st: State)
    requires st == Row(800_000)
    ensures ToLocalCeil(st.Rate(), 35) == 438 && ToLocalCeil(st.Rate(), 1) == 13 && ToLocalCeil(st.Rate(), 36) == 450
  {
    assert Wrap(10 * PPM) == 10 * PPM;
  }

  // ----- how the states come about

  /** A town and a buyer are given SUP; the town charters its money, pays the buyer some units and a worker
      others; and trade on the book moves the reference rate. */
  function Story(toBuyer: int, toWorker: int, xRefPPM: int): seq<Step> {
    [DoPost(Move(Source(SUP), Treasury(TOWN), 10_000))] + [DoPost(Move(Source(SUP), Cash(BUYER), 100))]
    + [DoCharter(TOWN, R0, FEE, DEPOSIT, MINT_FEE)]
    + [DoPost(Move(TreasuryHolding(TOWN, VC), PlayerHolding(BUYER, VC), toBuyer))]
    + [DoPost(Move(TreasuryHolding(TOWN, VC), PlayerHolding(WORKER, VC), toWorker))]
    + [DoMoveRate(TOWN, xRefPPM)]
  }

  lemma RunOneMore(floor: int, steps: seq<Step>, step: Step)
    ensures Run(NO_BOOKS, CODES, floor, steps + [step]) == After(Run(NO_BOOKS, CODES, floor, steps), CODES, floor, step)
  {
    assert (steps + [step])[..|steps|] == steps;
  }

  /** A movement among ordinary accounts, as a step. */
  lemma MoveStep(b: Books, floor: int, from: Account, to: Account, amount: int)
    requires Inv(b, CODES, floor) && amount > 0 && from != to && from.currency == to.currency
    requires Ordinary(CODES, from) && Ordinary(CODES, to)
    requires (from.kind.SystemSource? || b.ledger.Balance(from) >= amount)
    ensures var after := After(b, CODES, floor, DoPost(Move(from, to, amount)));
      && after == b.(ledger := after.ledger)
      && forall a :: after.ledger.Balance(a) == b.ledger.Balance(a)
           + (if a == to then amount else if a == from then -amount else 0)
  {
    hide Post, Sound, Ordinary;
    MoveEffect(b.ledger, from, to, amount);
  }

  lemma OnlyTheTown()
    ensures Reserved(CODES) && CODES.Values == {VC}
  {
    assert CODES[TOWN] == VC;
  }

  lemma DefaultMint()
    ensures Mint(DEPOSIT, Rates.Rate(R0, PPM), MINT_FEE) == Minted(MINTED, BASIS, 25)
  {
  }

  lemma CharterStep(b: Books, floor: int)
    requires Sound(b.ledger) && TOWN !in b.states && b.ledger.Balance(Treasury(TOWN)) >= FEE + DEPOSIT
    ensures var after := After(b, CODES, floor, DoCharter(TOWN, R0, FEE, DEPOSIT, MINT_FEE));
      && after == b.(ledger := after.ledger, states := b.states[TOWN := Row(PPM)])
      && forall a :: after.ledger.Balance(a) == b.ledger.Balance(a) + CharterMoves(TOWN, VC, FEE, DEPOSIT, MINTED, a)
  {
    hide Charter, Mint, Sound, CharterMoves;
    DefaultMint();
    CharterEffect(b, CODES, TOWN, R0, FEE, DEPOSIT, MINT_FEE);
  }

  /** Where the story ends. */
  ghost predicate Told(b: Books, toBuyer: int, toWorker: int, xRefPPM: int) {
    && b.states == map[TOWN := Row(xRefPPM)] && b.burns == map[] && b.payments == map[]
    && b.ledger.Balance(PlayerHolding(BUYER, VC)) == toBuyer
    && b.ledger.Balance(TreasuryHolding(TOWN, VC)) == MINTED - toBuyer - toWorker
    && b.ledger.Balance(Cash(BUYER)) == 100
  }

  lemma StoryEnds(floor: int, toBuyer: int, toWorker: int, xRefPPM: int)
    requires 0 <= floor <= BPS && toBuyer > 0 && toWorker > 0 && toBuyer + toWorker <= MINTED
    ensures var b := Run(NO_BOOKS, CODES, floor, Story(toBuyer, toWorker, xRefPPM));
      Inv(b, CODES, floor) && Told(b, toBuyer, toWorker, xRefPPM)
  {
    hide After, Inv, Run, Post, Story, CharterMoves;
    OnlyTheTown();
    var treasury, cash := Treasury(TOWN), Cash(BUYER);
    var s1 := [DoPost(Move(Source(SUP), treasury, 10_000))];
    var s2 := s1 + [DoPost(Move(Source(SUP), cash, 100))];
    var s3 := s2 + [DoCharter(TOWN, R0, FEE, DEPOSIT, MINT_FEE)];
    var s4 := s3 + [DoPost(Move(TreasuryHolding(TOWN, VC), PlayerHolding(BUYER, VC), toBuyer))];
    var s5 := s4 + [DoPost(Move(TreasuryHolding(TOWN, VC), PlayerHolding(WORKER, VC), toWorker))];
    var s6 := s5 + [DoMoveRate(TOWN, xRefPPM)];
    StoryIs(toBuyer, toWorker, xRefPPM);
    var b1, b2, b3 := Run(NO_BOOKS, CODES, floor, s1), Run(NO_BOOKS, CODES, floor, s2), Run(NO_BOOKS, CODES, floor, s3);
    var b4, b5 := Run(NO_BOOKS, CODES, floor, s4), Run(NO_BOOKS, CODES, floor, s5);
    Rehearsed(floor, [], s1, s1[0]);
    MoveStep(NO_BOOKS, floor, Source(SUP), treasury, 10_000);
    Rehearsed(floor, s1, s2, s2[1]);
    MoveStep(b1, floor, Source(SUP), cash, 100);
    Rehearsed(floor, s2, s3, s3[2]);
    assert Sound(b2.ledger) by { InvIsSound(b2, floor); }
    CharterStep(b2, floor);
    CharteredBalances(b2.ledger, b3.ledger);
    Rehearsed(floor, s3, s4, s4[3]);
    MoveStep(b3, floor, TreasuryHolding(TOWN, VC), PlayerHolding(BUYER, VC), toBuyer);
    Rehearsed(floor, s4, s5, s5[4]);
    MoveStep(b4, floor, TreasuryHolding(TOWN, VC), PlayerHolding(WORKER, VC), toWorker);
    Rehearsed(floor, s5, s6, s6[5]);
    RateStep(b5, floor, xRefPPM);
  }

  lemma StoryIs(toBuyer: int, toWorker: int, xRefPPM: int)
    ensures Story(toBuyer, toWorker, xRefPPM) ==
      [DoPost(Move(Source(SUP), Treasury(TOWN), 10_000))] + [DoPost(Move(Source(SUP), Cash(BUYER), 100))]
      + [DoCharter(TOWN, R0, FEE, DEPOSIT, MINT_FEE)]
      + [DoPost(Move(TreasuryHolding(TOWN, VC), PlayerHolding(BUYER, VC), toBuyer))]
      + [DoPost(Move(TreasuryHolding(TOWN, VC), PlayerHolding(WORKER, VC), toWorker))]
      + [DoMoveRate(TOWN, xRefPPM)]
  {
  }

  lemma Rehearsed(floor: int, before: seq<Step>, steps: seq<Step>, step: Step)
    requires 0 <= floor <= BPS && steps == before + [step]
    ensures before == [] ==> Run(NO_BOOKS, CODES, floor, before) == NO_BOOKS
    ensures Run(NO_BOOKS, CODES, floor, steps) == After(Run(NO_BOOKS, CODES, floor, before), CODES, floor, step)
    ensures Inv(Run(NO_BOOKS, CODES, floor, before), CODES, floor)
    ensures Inv(Run(NO_BOOKS, CODES, floor, steps), CODES, floor)
  {
    hide After, Inv;
    OnlyTheTown();
    RunKeepsInv(CODES, floor, before);
    RunKeepsInv(CODES, floor, steps);
    RunOneMore(floor, before, step);
  }

  lemma InvIsSound(b: Books, floor: int)
    requires Inv(b, CODES, floor)
    ensures Sound(b.ledger)
  {
  }

  lemma CharteredBalances(l: Ledger, after: Ledger)
    requires forall a :: after.Balance(a) == l.Balance(a) + CharterMoves(TOWN, VC, FEE, DEPOSIT, MINTED, a)
    ensures after.Balance(TreasuryHolding(TOWN, VC)) == l.Balance(TreasuryHolding(TOWN, VC)) + MINTED
    ensures after.Balance(PlayerHolding(BUYER, VC)) == l.Balance(PlayerHolding(BUYER, VC))
    ensures after.Balance(Cash(BUYER)) == l.Balance(Cash(BUYER))
  {
  }

  lemma RateStep(b: Books, floor: int, xRefPPM: int)
    requires b.states == map[TOWN := Row(PPM)]
    ensures After(b, CODES, floor, DoMoveRate(TOWN, xRefPPM)) == b.(states := map[TOWN := Row(xRefPPM)])
  {
  }

  // ----- two payers

  /** The screen offers a conversion and the desk then refuses it: the desk holds the seven units the payer
      lacks, but the two SUP they cost buy ten. */
  lemma OfferedConversionMayBeRefused(floor: int)
    requires 0 <= floor <= BPS
    ensures var b := Run(NO_BOOKS, CODES, floor, Story(3, 49_740, PPM));
            var q := LocalBurn(TOWN, BUYER, 1, 0, ("sale", "1"), Conversion(true, 2, 0));
            var o := OfferFor(b, TOWN, BUYER, 1);
      o.Some? && o.offer.canConvert && o.offer.convertSUP == 2 && BurnLocal(b, q) == Err(DeskEmpty)
  {
    hide BurnLocal, Sound, ToLocalCeil, DeskCost, DeskBuy, Run, Story, PaidInFull;
    StoryEnds(floor, 3, 49_740, PPM);
    var b := Run(NO_BOOKS, CODES, floor, Story(3, 49_740, PPM));
    SevenUnitsCostTwo(b.states[TOWN]);
    BurnIsAllOrNothing(b, LocalBurn(TOWN, BUYER, 1, 0, ("sale", "1"), Conversion(true, 2, 0)));
  }

  /** A sale of 35 SUP with its tax at three percent. */
  function TaxedSale(): LocalBurn { LocalBurn(TOWN, BUYER, 35, 35 * 300 / BPS, ("sale", "1"), Conversion(true, 2, 0)) }

  /** The screen quotes two SUP for the units lacking for price and tax together; the payer confirms, nothing
      has changed since, and is told the price moved: apart the two come to one unit more, and that unit
      costs a third SUP. */
  lemma QuotedPriceMayMoveByItself(floor: int)
    requires 0 <= floor <= BPS
    ensures var b := Run(NO_BOOKS, CODES, floor, Story(438, 1000, 800_000)); var q := TaxedSale();
            var o := OfferFor(b, TOWN, BUYER, q.sup + q.taxSUP);
      o.Some? && o.offer.canConvert && o.offer.convertSUP == 2 && BurnLocal(b, q) == Err(PriceMoved)
  {
    hide BurnLocal, Sound, ToLocalCeil, DeskCost, DeskBuy, Run, Story, PaidInFull;
    StoryEnds(floor, 438, 1000, 800_000);
    var b, q := Run(NO_BOOKS, CODES, floor, Story(438, 1000, 800_000)), TaxedSale();
    assert q.taxSUP == 1;
    ThirtySixSUP(b.states[TOWN]);
    TwelveCostTwo(b.states[TOWN]);
    ThirteenCostThree(b.states[TOWN]);
    BurnIsAllOrNothing(b, q);
  }
}
