/** Paying in a settlement's own money: what a burn writes and when it refuses, and whether the offer a
    payer confirmed is the payment that follows. */
module CurrencyOffer {
  import opened Rates
  import opened Ledgers
  import opened Currency
  import opened CurrencyInvariant

  // ----- what a conversion does

  /** The units the desk delivers for the least price of `short` units. */
  ghost function Delivered(st: State, short: int): int {
    DeskBuy(DeskCost(short, st.Rate(), st.feeBPS), st.Rate(), st.feeBPS).0
  }

  ghost function Price(st: State, short: int): int { DeskCost(short, st.Rate(), st.feeBPS) }

  lemma DeskDelivers(st: State, short: int)
    requires Price(st, short) > 0
    ensures Delivered(st, short) >= short && short > 0
  {
    assert Priceable(short, st.Rate(), st.feeBPS);
    assert Buys(Price(st, short), short, st.Rate(), st.feeBPS);
  }

  /** How far a purchase at the desk moves an account. */
  ghost function Conversions(settlement: string, st: State, player: string, short: int, a: Account): int {
    if short <= 0 then 0
    else if a == Cash(player) then -Price(st, short)
    else if a == Treasury(settlement) then Price(st, short)
    else if a == TreasuryHolding(settlement, st.code) then -Delivered(st, short)
    else if a == PlayerHolding(player, st.code) then Delivered(st, short)
    else 0
  }

  /** The shortfall is bought exactly when the desk has a price, the price is within the payer's limit,
      the payer has the SUP, and the treasury holds every unit that price delivers; otherwise the reason
      is the first of these that fails. */
  lemma FundOutcome(b: Books, settlement: string, st: State, player: string, short: int, c: Conversion)
    requires Sound(b.ledger)
    ensures short > 0 ==>
      var r := Fund(b, settlement, st, player, short, c);
      if Price(st, short) <= 0 then r == Err(NoDeal)
      else if !WithinLimit(Price(st, short), c) then r == Err(PriceMoved)
      else if b.ledger.Balance(Cash(player)) < Price(st, short) then r == Err(PayerShort)
      else if b.ledger.Balance(TreasuryHolding(settlement, st.code)) < Delivered(st, short) then r == Err(DeskEmpty)
      else
        && r.Ok? && r.value.1.sup == Price(st, short)
        && r.value.1.fee == DeskBuy(Price(st, short), st.Rate(), st.feeBPS).1
    ensures short <= 0 ==> Fund(b, settlement, st, player, short, c) == Ok((b, Quote(0, 0, 0)))
    ensures Fund(b, settlement, st, player, short, c).Ok? ==>
      var after := Fund(b, settlement, st, player, short, c).value.0;
      && Sound(after.ledger) && after == b.(ledger := after.ledger)
      && forall a :: after.ledger.Balance(a) == b.ledger.Balance(a) + Conversions(settlement, st, player, short, a)
  {
    hide Post, Sound, DeskCost, DeskBuy, WithinLimit;
    if short > 0 && Price(st, short) > 0 && WithinLimit(Price(st, short), c) {
      DeskDelivers(st, short);
      var cost, units := Price(st, short), Delivered(st, short);
      var cash, treasury := Cash(player), Treasury(settlement);
      var stock, holding := TreasuryHolding(settlement, st.code), PlayerHolding(player, st.code);
      if b.ledger.Balance(cash) >= cost && b.ledger.Balance(stock) >= units {
        MoveEffect(b.ledger, cash, treasury, cost);
        var paid := PostTo(b, Move(cash, treasury, cost)).value;
        MoveEffect(paid.ledger, stock, holding, units);
      }
    }
  }

  // ----- what a burn does

  lemma BurnEffect(b: Books, settlement: string, st: State, holding: Account, burn: int, ref: Ref)
    requires Sound(b.ledger) && settlement in b.states && burn > 0
    requires holding.kind.ForeignHolding? && holding.currency == st.code && b.ledger.Balance(holding) >= burn
    ensures var r := Burn(b, settlement, st, holding, burn, ref);
      && r.Ok? && Sound(r.value.ledger)
      && r.value == RecordBurn(b, settlement, burn, BurnBasis(st.basis, st.Supply(), burn), ref)
                    .(ledger := r.value.ledger)
      && forall a :: r.value.ledger.Balance(a) == b.ledger.Balance(a)
           + (if a == holding then -burn else if a == Sink(st.code) then burn else 0)
  {
    hide Post, Sound, BurnBasis;
    MoveEffect(b.ledger, holding, Sink(st.code), burn);
  }

  /** The units a tax moves: none when a collection for the same flow row was already made. */
  function TaxMoved(b: Books, q: LocalBurn, tax: int): int {
    if tax > 0 && (q.ref, Collect) !in b.payments then tax else 0
  }

  lemma TaxEffect(b: Books, q: LocalBurn, tax: int)
    requires Sound(b.ledger) && IsChartered(b, q.settlement) && q.player != "" && q.settlement != ""
    requires tax == TaxUnits(b.states[q.settlement], q.taxSUP) > 0
    requires b.ledger.Balance(PlayerHolding(q.player, b.states[q.settlement].code)) >= TaxMoved(b, q, tax)
    ensures var r, code := PayLocal(b, TaxPayment(q)), b.states[q.settlement].code;
            var moved := TaxMoved(b, q, tax);
      && r.Ok? && r.value.1.paid && Sound(r.value.0.ledger)
      && r.value.1.units == (if moved > 0 then tax else b.payments[(q.ref, Collect)])
      && r.value.0 == b.(ledger := r.value.0.ledger,
                         payments := if moved > 0 then b.payments[(q.ref, Collect) := tax] else b.payments)
      && forall a :: r.value.0.ledger.Balance(a) == b.ledger.Balance(a)
           + (if a == PlayerHolding(q.player, code) then -moved
              else if a == TreasuryHolding(q.settlement, code) then moved else 0)
  {
    hide Post, Sound, ToLocalCeil;
    var code := b.states[q.settlement].code;
    if (q.ref, Collect) !in b.payments {
      MoveEffect(b.ledger, PlayerHolding(q.player, code), TreasuryHolding(q.settlement, code), tax);
    }
  }

  /** How far a settled purchase moves an account. */
  ghost function Purchase(b: Books, q: LocalBurn, burn: int, tax: int, a: Account): int
    requires q.settlement in b.states
  {
    var st := b.states[q.settlement];
    var holding := PlayerHolding(q.player, st.code);
    Conversions(q.settlement, st, q.player, ShortOf(burn, tax, b.ledger.Balance(holding)), a)
    + if a == holding then -burn - TaxMoved(b, q, tax)
      else if a == Sink(st.code) then burn
      else if a == TreasuryHolding(q.settlement, st.code) then TaxMoved(b, q, tax)
      else 0
  }

  /** A purchase whose units are covered, by holding or by conversion, is paid in full: exactly these
      accounts move, the counters fall with them, and the burn and the tax are on record. */
  ghost predicate PaidInFull(b: Books, q: LocalBurn, burn: int, tax: int, after: Books)
    requires q.settlement in b.states
  {
    && Sound(after.ledger)
    && (forall a :: after.ledger.Balance(a) == b.ledger.Balance(a) + Purchase(b, q, burn, tax, a))
    && after.states.Keys == b.states.Keys
    && (forall s | s in b.states && s != q.settlement :: after.states[s] == b.states[s])
    && (var st, st' := b.states[q.settlement], after.states[q.settlement];
        st' == st.(burnt := st.burnt + burn, basis := st'.basis) && 0 <= st'.basis
        && (st.basis >= 0 ==> st'.basis == st.basis - BurnBasis(st.basis, st.Supply(), burn)))
    && q.ref in after.burns
    && after.burns[q.ref].settlement == q.settlement && after.burns[q.ref].units == burn
    && (b.states[q.settlement].basis >= 0 ==>
          after.burns[q.ref].basis == b.states[q.settlement].basis - after.states[q.settlement].basis)
    && (forall ref | ref in b.burns && ref != q.ref :: ref in after.burns && after.burns[ref] == b.burns[ref])
    && after.payments == if TaxMoved(b, q, tax) > 0 then b.payments[(q.ref, Collect) := tax] else b.payments
  }

  /** The purchase may go ahead: the payer is not short, or the shortfall was bought. */
  ghost predicate Funded(b: Books, q: LocalBurn, burn: int, tax: int)
    requires q.settlement in b.states
  {
    var st := b.states[q.settlement];
    var short := ShortOf(burn, tax, b.ledger.Balance(PlayerHolding(q.player, st.code)));
    && (short > 0 ==> q.conversion.allowed)
    && Fund(b, q.settlement, st, q.player, short, q.conversion).Ok?
  }

  /** The units the payer holds once any shortfall is bought. */
  ghost function HeldThen(b: Books, q: LocalBurn, burn: int, tax: int): int
    requires q.settlement in b.states
  {
    var st := b.states[q.settlement];
    var holding := PlayerHolding(q.player, st.code);
    b.ledger.Balance(holding)
    + Conversions(q.settlement, st, q.player, ShortOf(burn, tax, b.ledger.Balance(holding)), holding)
  }

  ghost predicate Covered(b: Books, q: LocalBurn, burn: int, tax: int)
    requires q.settlement in b.states
  {
    Funded(b, q, burn, tax) && HeldThen(b, q, burn, tax) >= burn + TaxMoved(b, q, tax)
  }

  /** The purchase after its burn and before its tax. */
  ghost predicate BurntOnly(b: Books, q: LocalBurn, burn: int, tax: int, after: Books)
    requires q.settlement in b.states
  {
    var st := b.states[q.settlement];
    var holding := PlayerHolding(q.player, st.code);
    var short := ShortOf(burn, tax, b.ledger.Balance(holding));
    && Sound(after.ledger)
    && after == RecordBurn(b, q.settlement, burn, BurnBasis(st.basis, st.Supply(), burn), q.ref)
                .(ledger := after.ledger)
    && (forall a :: after.ledger.Balance(a) == b.ledger.Balance(a) + Conversions(q.settlement, st, q.player, short, a)
          + (if a == holding then -burn else if a == Sink(st.code) then burn else 0))
    && after.ledger.Balance(holding) >= TaxMoved(b, q, tax)
  }

  lemma CoveredBurn(b: Books, q: LocalBurn, burn: int, tax: int)
    requires Sound(b.ledger) && q.settlement in b.states && burn > 0 && Covered(b, q, burn, tax)
    ensures var st := b.states[q.settlement];
            var holding := PlayerHolding(q.player, st.code);
            var short := ShortOf(burn, tax, b.ledger.Balance(holding));
            var funded := Fund(b, q.settlement, st, q.player, short, q.conversion).value.0;
      && funded.states == b.states
      && Burn(funded, q.settlement, st, holding, burn, q.ref).Ok?
      && BurntOnly(b, q, burn, tax, Burn(funded, q.settlement, st, holding, burn, q.ref).value)
  {
    hide Fund, Burn, Sound, BurnBasis, DeskBuy, DeskCost, Conversions, ShortOf;
    var st := b.states[q.settlement];
    var holding := PlayerHolding(q.player, st.code);
    var short := ShortOf(burn, tax, b.ledger.Balance(holding));
    FundOutcome(b, q.settlement, st, q.player, short, q.conversion);
    var funded := Fund(b, q.settlement, st, q.player, short, q.conversion).value.0;
    BurnEffect(funded, q.settlement, st, holding, burn, q.ref);
  }

  /** The row after a burn is the old one with the burn counted and its share off the basis. */
  lemma BurntRow(b: Books, q: LocalBurn, burn: int, tax: int, after: Books)
    requires q.settlement in b.states && BurntOnly(b, q, burn, tax, after)
    ensures var st, st' := b.states[q.settlement], after.states[q.settlement];
      && st' == st.(burnt := st.burnt + burn, basis := st'.basis) && 0 <= st'.basis
      && (st.basis >= 0 ==> st'.basis == st.basis - BurnBasis(st.basis, st.Supply(), burn))
  {
    hide Sound, BurnBasis, Conversions;
    BurnTakesItsShareOf(b.states[q.settlement], burn);
  }

  lemma CoveredPurchaseIsPaid(b: Books, q: LocalBurn, burn: int, tax: int)
    requires Sound(b.ledger) && IsChartered(b, q.settlement) && q.player != "" && q.settlement != "" && burn > 0
    requires tax == TaxUnits(b.states[q.settlement], q.taxSUP)
    requires Covered(b, q, burn, tax)
    ensures var st := b.states[q.settlement]; var r := BurnUnits(b, q, st, burn, tax);
            var short := ShortOf(burn, tax, b.ledger.Balance(PlayerHolding(q.player, st.code)));
      && r.Ok? && r.value.1.paid && !r.value.1.already && PaidInFull(b, q, burn, tax, r.value.0)
      && r.value.1.converted == (short > 0)
      && (short > 0 ==>
            && r.value.1.convertSUP == Price(st, short)
            && r.value.1.convertFee == DeskBuy(Price(st, short), st.Rate(), st.feeBPS).1)
      && (short <= 0 ==> r.value.1.convertSUP == 0 && r.value.1.convertFee == 0)
      && r.value.1.units == burn
           + (if tax <= 0 then 0 else if TaxMoved(b, q, tax) > 0 then tax else b.payments[(q.ref, Collect)])
  {
    hide Fund, Burn, PayLocal, Sound, BurnBasis, ToLocalCeil, DeskBuy, DeskCost, Conversions, ShortOf;
    var st := b.states[q.settlement];
    var holding := PlayerHolding(q.player, st.code);
    var short := ShortOf(burn, tax, b.ledger.Balance(holding));
    FundOutcome(b, q.settlement, st, q.player, short, q.conversion);
    var funded := Fund(b, q.settlement, st, q.player, short, q.conversion).value.0;
    CoveredBurn(b, q, burn, tax);
    var burnt := Burn(funded, q.settlement, st, holding, burn, q.ref).value;
    BurntRow(b, q, burn, tax, burnt);
    if tax > 0 {
      assert burnt.states[q.settlement].Rate() == st.Rate();
      TaxEffect(burnt, q, tax);
      TaxedIsInFull(b, q, burn, tax, burnt, PayLocal(burnt, TaxPayment(q)).value.0);
    } else {
      TaxedIsInFull(b, q, burn, tax, burnt, burnt);
    }
  }

  lemma TaxedIsInFull(b: Books, q: LocalBurn, burn: int, tax: int, burnt: Books, after: Books)
    requires q.settlement in b.states && BurntOnly(b, q, burn, tax, burnt) && Sound(after.ledger)
    requires var moved := TaxMoved(b, q, tax); var code := b.states[q.settlement].code;
      && after == burnt.(ledger := after.ledger,
                         payments := if moved > 0 then b.payments[(q.ref, Collect) := tax] else b.payments)
      && forall a :: after.ledger.Balance(a) == burnt.ledger.Balance(a)
           + (if a == PlayerHolding(q.player, code) then -moved
              else if a == TreasuryHolding(q.settlement, code) then moved else 0)
    ensures PaidInFull(b, q, burn, tax, after)
  {
    hide Sound, BurnBasis, Conversions;
    BurntRow(b, q, burn, tax, burnt);
  }

  lemma ConversionsCover(settlement: string, st: State, player: string, short: int)
    requires short > 0 ==> Price(st, short) > 0
    ensures Conversions(settlement, st, player, short, PlayerHolding(player, st.code)) >= short || short <= 0
    ensures short <= 0 ==> Conversions(settlement, st, player, short, PlayerHolding(player, st.code)) == 0
  {
    if short > 0 {
      DeskDelivers(st, short);
    }
  }

  lemma BurnTakesItsShareOf(st: State, burn: int)
    ensures st.basis >= 0 ==> 0 <= BurnBasis(st.basis, st.Supply(), burn) <= st.basis
  {
    if st.basis >= 0 {
      BurnTakesItsShare(st.basis, st.Supply(), burn);
    }
  }

  // ----- all or nothing

  /** The request reaches the payment: it is complete, the money is chartered, and no burn for this flow
      row exists yet. */
  ghost predicate Fresh(b: Books, q: LocalBurn) {
    && q.sup > 0 && q.player != "" && IsChartered(b, q.settlement) && q.settlement != ""
    && q.ref !in b.burns
  }

  function PriceUnits(b: Books, q: LocalBurn): int
    requires IsChartered(b, q.settlement)
  {
    ToLocalCeil(b.states[q.settlement].Rate(), q.sup)
  }

  function TaxDue(b: Books, q: LocalBurn): int
    requires IsChartered(b, q.settlement)
  {
    TaxUnits(b.states[q.settlement], q.taxSUP)
  }

  function Held(b: Books, q: LocalBurn): int
    requires IsChartered(b, q.settlement)
  {
    b.ledger.Balance(PlayerHolding(q.player, b.states[q.settlement].code))
  }

  function Shortfall(b: Books, q: LocalBurn): int
    requires IsChartered(b, q.settlement)
  {
    ShortOf(PriceUnits(b, q), TaxDue(b, q), Held(b, q))
  }

  /** Units short of the price: the burn itself is refused. */
  lemma UncoveredBurnIsRefused(b: Books, q: LocalBurn, burn: int, tax: int)
    requires Sound(b.ledger) && IsChartered(b, q.settlement) && burn > 0
    requires Funded(b, q, burn, tax) && HeldThen(b, q, burn, tax) < burn
    ensures BurnUnits(b, q, b.states[q.settlement], burn, tax) == Err(NotPosted(InsufficientFunds))
  {
    hide Fund, Post, Sound, BurnBasis, DeskBuy, DeskCost, Conversions, ShortOf;
    var st := b.states[q.settlement];
    var holding := PlayerHolding(q.player, st.code);
    var short := ShortOf(burn, tax, b.ledger.Balance(holding));
    FundOutcome(b, q.settlement, st, q.player, short, q.conversion);
    MoveEffect(Fund(b, q.settlement, st, q.player, short, q.conversion).value.0.ledger, holding, Sink(st.code), burn);
  }

  /** Units for the price but not for the tax: the purchase is refused after the burn. */
  lemma UncoveredTaxIsRefused(b: Books, q: LocalBurn, burn: int, tax: int)
    requires Sound(b.ledger) && IsChartered(b, q.settlement) && q.player != "" && q.settlement != "" && burn > 0
    requires tax == TaxUnits(b.states[q.settlement], q.taxSUP)
    requires Funded(b, q, burn, tax) && burn <= HeldThen(b, q, burn, tax) < burn + TaxMoved(b, q, tax)
    ensures BurnUnits(b, q, b.states[q.settlement], burn, tax) == Err(CannotPay)
  {
    hide Fund, Burn, PayLocal, Sound, BurnBasis, ToLocalCeil, DeskBuy, DeskCost, Conversions, ShortOf;
    var st := b.states[q.settlement];
    var holding := PlayerHolding(q.player, st.code);
    var short := ShortOf(burn, tax, b.ledger.Balance(holding));
    FundOutcome(b, q.settlement, st, q.player, short, q.conversion);
    var funded := Fund(b, q.settlement, st, q.player, short, q.conversion).value.0;
    BurnEffect(funded, q.settlement, st, holding, burn, q.ref);
    TaxIsRefused(Burn(funded, q.settlement, st, holding, burn, q.ref).value, q, tax);
  }

  lemma TaxIsRefused(b: Books, q: LocalBurn, tax: int)
    requires IsChartered(b, q.settlement) && q.player != "" && q.settlement != "" && (q.ref, Collect) !in b.payments
    requires tax == TaxUnits(b.states[q.settlement], q.taxSUP) > 0
    requires b.ledger.Balance(PlayerHolding(q.player, b.states[q.settlement].code)) < tax
    ensures PayLocal(b, TaxPayment(q)) == Ok((b, NOT_PAID))
  {
    hide Fund, Settle, ToLocalCeil;
  }

  /** Every outcome of a fresh purchase: nothing written when the price rounds to nothing or the payer is
      short and did not ask to convert; refused for the desk's reason; refused when the units fall short
      after all; otherwise paid in full. */
  lemma BurnIsAllOrNothing(b: Books, q: LocalBurn)
    requires Sound(b.ledger) && Fresh(b, q)
    ensures var r := BurnLocal(b, q); var st := b.states[q.settlement];
            var burn, tax, short := PriceUnits(b, q), TaxDue(b, q), Shortfall(b, q);
      if burn <= 0 || (short > 0 && !q.conversion.allowed) then r == Ok((b, NOT_PAID))
      else if short > 0 && Price(st, short) <= 0 then r == Err(NoDeal)
      else if short > 0 && !WithinLimit(Price(st, short), q.conversion) then r == Err(PriceMoved)
      else if short > 0 && b.ledger.Balance(Cash(q.player)) < Price(st, short) then r == Err(PayerShort)
      else if short > 0 && b.ledger.Balance(TreasuryHolding(q.settlement, st.code)) < Delivered(st, short) then
        r == Err(DeskEmpty)
      else if HeldThen(b, q, burn, tax) < burn then r == Err(NotPosted(InsufficientFunds))
      else if HeldThen(b, q, burn, tax) < burn + TaxMoved(b, q, tax) then r == Err(CannotPay)
      else r.Ok? && r.value.1.paid && !r.value.1.already && PaidInFull(b, q, burn, tax, r.value.0)
  {
    hide Fund, Burn, PayLocal, Sound, ToLocalCeil, DeskBuy, DeskCost, WithinLimit, PaidInFull, ShortOf, Conversions;
    var st := b.states[q.settlement];
    var burn, tax, short := PriceUnits(b, q), TaxDue(b, q), Shortfall(b, q);
    FundOutcome(b, q.settlement, st, q.player, short, q.conversion);
    if burn > 0 && Funded(b, q, burn, tax) {
      if Covered(b, q, burn, tax) {
        CoveredPurchaseIsPaid(b, q, burn, tax);
      } else if HeldThen(b, q, burn, tax) < burn {
        UncoveredBurnIsRefused(b, q, burn, tax);
      } else {
        UncoveredTaxIsRefused(b, q, burn, tax);
      }
    }
  }

  /** The 64-bit shortfall is the true one unless the true one leaves 64 bits. */
  lemma ShortOfIs(burn: int, tax: int, held: int)
    ensures ShortOf(burn, tax, held) == Wrap(burn + tax - held)
  {
    WrapAdds(burn + tax, -held);
  }

  /** Whoever holds the price's units, bought or not, holds the tax's too; and who does not, though not
      short by the 64-bit sum, had that sum or the tax leave 64 bits. */
  lemma HeldIsEnough(st: State, player: string, settlement: string, burn: int, tax: int, held: int)
    requires 0 < burn <= MAX64 && (0 <= tax <= MAX64 || tax == -MAX64 - 1) && 0 <= held <= MAX64
    requires var short := ShortOf(burn, tax, held); short > 0 ==> Price(st, short) > 0
    ensures var short := ShortOf(burn, tax, held);
            var after := held + Conversions(settlement, st, player, short, PlayerHolding(player, st.code));
      && (after >= burn ==> after >= burn + tax)
      && (after < burn <==> held < burn && (tax < 0 || burn + tax - held > MAX64))
  {
    hide ShortOf, Conversions, DeskCost;
    ShortOfIs(burn, tax, held);
    ConversionsCover(settlement, st, player, ShortOf(burn, tax, held));
  }

  /** With a balance that fits its 64-bit column, the error after a tax payment is unreachable, even where
      the sum of price and tax leaves 64 bits; and the burn is refused for its units exactly when the payer
      does not hold the price and the shortfall leaves 64 bits, or the tax, rounded up, did. */
  lemma BurnErrorsNeedOverflow(b: Books, q: LocalBurn)
    requires Sound(b.ledger) && Fresh(b, q) && Held(b, q) <= MAX64
    ensures BurnLocal(b, q) != Err(CannotPay)
    ensures var burn, tax := PriceUnits(b, q), TaxDue(b, q);
      BurnLocal(b, q) == Err(NotPosted(InsufficientFunds))
      <==> Held(b, q) < burn && (tax < 0 || burn + tax - Held(b, q) > MAX64)
  {
    hide BurnLocal, ToLocalCeil, DeskBuy, DeskCost, WithinLimit, PaidInFull, ShortOf, Conversions, Sound, Wrap;
    var st := b.states[q.settlement];
    var burn, tax, short := PriceUnits(b, q), TaxDue(b, q), Shortfall(b, q);
    BurnIsAllOrNothing(b, q);
    CeilIsStored(st.Rate(), q.sup);
    CeilIsStored(st.Rate(), q.taxSUP);
    NobodyOverdrawn(b.ledger, PlayerHolding(q.player, st.code));
    if burn > 0 && (short > 0 ==> Price(st, short) > 0) {
      HeldIsEnough(st, q.player, q.settlement, burn, tax, Held(b, q));
    }
    if burn > 0 && short > 0 {
      ShortIsTrue(burn, tax, Held(b, q));
    }
  }

  /** Short by the 64-bit sum: then the sum did not leave 64 bits. */
  lemma ShortIsTrue(burn: int, tax: int, held: int)
    requires 0 < burn <= MAX64 && (0 <= tax <= MAX64 || tax == -MAX64 - 1) && 0 <= held <= MAX64
    ensures ShortOf(burn, tax, held) > 0 ==> !(held < burn && (tax < 0 || burn + tax - held > MAX64))
  {
    hide ShortOf;
    ShortOfIs(burn, tax, held);
  }

  /** A repeat for the same flow row, whatever it asks for, writes nothing and reports the units burnt;
      the first call also counted the tax's units. */
  lemma RepeatWritesNothing(b: Books, q: LocalBurn, again: LocalBurn)
    requires Sound(b.ledger) && Fresh(b, q) && BurnLocal(b, q).Ok? && BurnLocal(b, q).value.1.paid
    requires again.ref == q.ref && again.settlement == q.settlement && again.sup > 0 && again.player != ""
    ensures var (after, first) := BurnLocal(b, q).value;
      && BurnLocal(after, again) == Ok((after, LocalResult(true, true, PriceUnits(b, q), false, 0, 0)))
      && (TaxDue(b, q) <= 0 ==> first.units == PriceUnits(b, q))
      && (TaxMoved(b, q, TaxDue(b, q)) > 0 ==> first.units == PriceUnits(b, q) + TaxDue(b, q))
  {
    hide Fund, Burn, PayLocal, Sound, ToLocalCeil, DeskBuy, DeskCost, WithinLimit;
    BurnIsAllOrNothing(b, q);
    CoveredPurchaseIsPaid(b, q, PriceUnits(b, q), TaxDue(b, q));
  }

  /** A burn leaves the reserve pot alone and lowers only the basis: what the pot holds above the basis
      grows by exactly the burnt units' share of the basis, rounded down, and by all of it with the last. */
  lemma BurnNeverShrinksExcess(b: Books, q: LocalBurn, after: Books, report: LocalResult)
    requires Sound(b.ledger) && Fresh(b, q) && BurnLocal(b, q) == Ok((after, report)) && report.paid
    requires b.states[q.settlement].basis >= 0
    ensures q.settlement in after.states
    ensures var st, st', burn := b.states[q.settlement], after.states[q.settlement], PriceUnits(b, q);
            var grown := (st'.PotSUP() - st'.basis) - (st.PotSUP() - st.basis);
      && after.ledger.Balance(Pot(q.settlement)) == b.ledger.Balance(Pot(q.settlement)) && st'.PotSUP() == st.PotSUP()
      && 0 <= grown <= st.basis
      && (burn <= st.Supply() ==> grown * st.Supply() <= st.basis * burn)
      && (burn <= st.Supply() && st.basis <= MAX64 ==> st.basis * burn < (grown + 1) * st.Supply())
      && (0 < st.Supply() <= burn ==> grown == st.basis)
  {
    hide BurnLocal, Sound, BurnBasis, ToLocalCeil, DeskBuy, DeskCost, TaxMoved;
    var st, burn := b.states[q.settlement], PriceUnits(b, q);
    BurnIsAllOrNothing(b, q);
    BurnTakesItsShare(st.basis, st.Supply(), burn);
    if burn <= st.Supply() && st.basis <= MAX64 {
      BurnTakesNoLess(st.basis, st.Supply(), burn, BurnBasis(st.basis, st.Supply(), burn) + 1);
    }
  }

  /** A request that is not fresh moves nothing: an incomplete one, or one where no money is chartered, leaves
      the price to be paid otherwise; one whose burn is on record reports it. */
  lemma StaleBurnWritesNothing(b: Books, q: LocalBurn)
    requires !Fresh(b, q)
    ensures BurnLocal(b, q) ==
      if q.sup > 0 && q.player != "" && q.settlement != "" && IsChartered(b, q.settlement) && q.ref in b.burns
      then Ok((b, Repeated(b.burns[q.ref].units)))
      else Ok((b, NOT_PAID))
  {
    hide BurnUnits;
  }

  /** Money that is not chartered, or no longer, is neither offered nor spent. */
  lemma OnlyCharteredMoneyIsSpent(b: Books, q: LocalBurn, p: LocalPayment, sup: int)
    requires q.settlement in b.states && p.settlement == q.settlement && b.states[q.settlement].status != Chartered
    ensures BurnLocal(b, q) == Ok((b, NOT_PAID)) && PayLocal(b, p) == Ok((b, NOT_PAID))
    ensures OfferFor(b, q.settlement, q.player, sup) == NoOffer
  {
    hide BurnUnits, PayUnits;
  }

  /** Division toward zero: the quotient's multiple is the nearest to the number that is no farther from zero. */
  lemma TruncatesTowardZero(n: int, d: int)
    requires d > 0
    ensures n >= 0 ==> 0 <= TruncDiv(n, d) * d <= n < TruncDiv(n, d) * d + d
    ensures n <= 0 ==> TruncDiv(n, d) * d - d < n <= TruncDiv(n, d) * d <= 0
  {
    DivMod(n, d);
    DivMod(-n, d);
    DivAtLeast(n, d, 0);
    DivAtLeast(-n, d, 0);
    Scales(0, n / d, d);
    Scales(0, (-n) / d, d);
    assert (-((-n) / d)) * d == -((-n) / d * d);
    assert n == 0 ==> TruncDiv(n, d) == 0 by { QuotientIs(0, d, 0); }
  }

  /** With some most the payer agreed to, the limit is that most and the agreed slippage on it, in basis
      points; with none there is no limit. */
  lemma LimitAllowsSlippage(cost: int, c: Conversion)
    requires 0 <= c.slippageBPS && 0 <= c.maxSUP && c.maxSUP * (BPS + c.slippageBPS) <= MAX64
    ensures WithinLimit(cost, c) <==> c.maxSUP == 0 || cost * BPS <= c.maxSUP * (BPS + c.slippageBPS)
  {
    hide Wrap;
    var extra := c.maxSUP * c.slippageBPS;
    Scales(0, c.maxSUP, c.slippageBPS);
    Scales(0, c.slippageBPS, c.maxSUP);
    assert c.maxSUP * (BPS + c.slippageBPS) == c.maxSUP * BPS + extra;
    DivAtLeast(extra, BPS, 0);
    DivAtLeast(extra, BPS, cost - c.maxSUP);
    DivMod(extra, BPS);
    WrapKeeps(extra);
    WrapKeeps(c.maxSUP + extra / BPS);
  }

  // ----- is the offer the payment?

  /** With no tax and nothing changed since, the offer foretells the payment. No offer: nothing is
      written. A local offer is paid from the units held, whether or not conversion is allowed. Otherwise
      nothing is written unless the payer converts. */
  lemma OfferForetellsUnconverted(b: Books, q: LocalBurn)
    requires Sound(b.ledger) && Fresh(b, q) && q.taxSUP <= 0 && Held(b, q) <= MAX64
    ensures var o := OfferFor(b, q.settlement, q.player, q.sup); var r := BurnLocal(b, q);
      && (o.NoOffer? ==> r == Ok((b, NOT_PAID)))
      && (o.Some? && o.offer.local ==>
            && r.Ok? && r.value.1 == LocalResult(true, false, o.offer.units, false, 0, 0)
            && PaidInFull(b, q, o.offer.units, 0, r.value.0))
      && (o.Some? && !o.offer.local && !q.conversion.allowed ==> r == Ok((b, NOT_PAID)))
  {
    hide Fund, Burn, PayLocal, Sound, ToLocalCeil, DeskBuy, DeskCost, WithinLimit, PaidInFull, ShortOf;
    var st := b.states[q.settlement];
    BurnIsAllOrNothing(b, q);
    UntaxedShortfall(b, q);
    if PriceUnits(b, q) > 0 && Shortfall(b, q) <= 0 {
      FundOutcome(b, q.settlement, st, q.player, Shortfall(b, q), q.conversion);
      CoveredPurchaseIsPaid(b, q, PriceUnits(b, q), 0);
    }
  }

  lemma UntaxedShortfall(b: Books, q: LocalBurn)
    requires Sound(b.ledger) && Fresh(b, q) && q.taxSUP <= 0 && Held(b, q) <= MAX64
    ensures TaxDue(b, q) == 0
    ensures PriceUnits(b, q) > 0 ==> Shortfall(b, q) == PriceUnits(b, q) - Held(b, q)
  {
    hide Sound, ToLocalCeil, ShortOf;
    NobodyOverdrawn(b.ledger, PlayerHolding(q.player, b.states[q.settlement].code));
    CeilIsStored(b.states[q.settlement].Rate(), q.sup);
    ShortOfIs(PriceUnits(b, q), 0, Held(b, q));
  }

  /** A payer who is short and converts within the quoted price is paid for, at exactly the quoted SUP
      and fee, if and only if they hold that SUP and the desk holds every unit that SUP buys. The desk
      buys whole units for whole SUP, so it may need more units than the offer counted. */
  lemma OfferForetellsConverted(b: Books, q: LocalBurn)
    requires Sound(b.ledger) && Fresh(b, q) && q.taxSUP <= 0 && q.conversion.allowed && Held(b, q) <= MAX64
    requires var o := OfferFor(b, q.settlement, q.player, q.sup);
      o.Some? && !o.offer.local && o.offer.convertSUP > 0 && WithinLimit(o.offer.convertSUP, q.conversion)
    ensures var o, r := OfferFor(b, q.settlement, q.player, q.sup).offer, BurnLocal(b, q);
            var delivered := DeskBuy(o.convertSUP, b.states[q.settlement].Rate(), b.states[q.settlement].feeBPS).0;
      && delivered >= o.convertUnits
      && (r.Ok? <==> o.cashSUP >= o.convertSUP && o.deskUnits >= delivered)
      && (r.Ok? ==>
            && r.value.1 == LocalResult(true, false, o.units, true, o.convertSUP, o.convertFee)
            && PaidInFull(b, q, o.units, 0, r.value.0))
      && (o.canConvert ==> (r == Err(DeskEmpty) <==> o.deskUnits < delivered))
      && (o.canConvert <==> r.Ok? || (r == Err(DeskEmpty) && o.deskUnits >= o.convertUnits))
  {
    hide Fund, Burn, PayLocal, Sound, ToLocalCeil, DeskBuy, DeskCost, WithinLimit, PaidInFull, ShortOf;
    var st, short := b.states[q.settlement], Shortfall(b, q);
    BurnIsAllOrNothing(b, q);
    UntaxedShortfall(b, q);
    DeskDelivers(st, short);
    FundOutcome(b, q.settlement, st, q.player, short, q.conversion);
    if Covered(b, q, PriceUnits(b, q), 0) {
      CoveredPurchaseIsPaid(b, q, PriceUnits(b, q), 0);
    }
  }

  /** The price and the tax, each rounded up, come to a 64-bit amount. */
  predicate SumsUp(b: Books, q: LocalBurn)
    requires IsChartered(b, q.settlement)
  {
    var r := b.states[q.settlement].Rate();
    && Converts(r, q.sup) && Converts(r, q.taxSUP) && Converts(r, q.sup + q.taxSUP)
    && PriceUnits(b, q) + TaxDue(b, q) <= MAX64
  }

  /** The unit that rounding price and tax apart may cost. */
  function SplitUnit(b: Books, q: LocalBurn): int
    requires IsChartered(b, q.settlement) && SumsUp(b, q)
  {
    if SplitCostsAUnit(b.states[q.settlement].Rate(), q.sup, q.taxSUP) then 1 else 0
  }

  /** What a purchase with tax is short of, against an offer made for price and tax together: the same,
      or one unit more when rounding the two apart costs a unit. */
  lemma TaxedShortfall(b: Books, q: LocalBurn)
    requires Sound(b.ledger) && Fresh(b, q) && q.taxSUP > 0 && SumsUp(b, q) && Held(b, q) <= MAX64
    requires OfferFor(b, q.settlement, q.player, q.sup + q.taxSUP).Some? && PriceUnits(b, q) > 0
    ensures var o := OfferFor(b, q.settlement, q.player, q.sup + q.taxSUP).offer;
      Shortfall(b, q) == o.units - o.holds + SplitUnit(b, q)
  {
    hide ToLocalCeil, Converts, SplitCostsAUnit, DeskCost, DeskBuy, Sound, ShortOf;
    var r := b.states[q.settlement].Rate();
    TwoCeilings(r, q.sup, q.taxSUP);
    NobodyOverdrawn(b.ledger, PlayerHolding(q.player, b.states[q.settlement].code));
    assert TaxDue(b, q) >= 0 by { CeilIsNatural(r, q.taxSUP); }
    ShortOfIs(PriceUnits(b, q), TaxDue(b, q), Held(b, q));
  }

  lemma CeilIsNatural(r: Rate, sup: int)
    requires Converts(r, sup)
    ensures ToLocalCeil(r, sup) >= 0
  {
    MulDivBounds(sup, r.Num(), r.Den());
  }

  /** So an offer made for the total foretells a taxed purchase exactly when its units, and the unit the
      split may cost, are held; and at the quoted price with no slippage a converting payer is refused for
      a moved price, though nothing moved, exactly when that one unit costs more SUP. */
  lemma OfferForTheTotal(b: Books, q: LocalBurn)
    requires Sound(b.ledger) && Fresh(b, q) && q.taxSUP > 0 && SumsUp(b, q) && Held(b, q) <= MAX64
    requires OfferFor(b, q.settlement, q.player, q.sup + q.taxSUP).Some? && PriceUnits(b, q) > 0
    ensures var o := OfferFor(b, q.settlement, q.player, q.sup + q.taxSUP).offer; var r := BurnLocal(b, q);
            var st := b.states[q.settlement];
      && (!q.conversion.allowed ==> r.Ok? && (r.value.1.paid <==> o.holds >= o.units + SplitUnit(b, q)))
      && (q.conversion == Conversion(true, o.convertSUP, 0) && o.convertSUP > 0
          && Price(st, o.convertUnits + SplitUnit(b, q)) > 0 ==>
            (r == Err(PriceMoved) <==> Price(st, o.convertUnits + SplitUnit(b, q)) > o.convertSUP))
  {
    hide BurnLocal, OfferFor, Sound, ToLocalCeil, SplitUnit, DeskCost, DeskBuy, PaidInFull, ShortOf, SumsUp,
      WithinLimit;
    var o := OfferFor(b, q.settlement, q.player, q.sup + q.taxSUP).offer;
    var short := o.units - o.holds + SplitUnit(b, q);
    TaxedShortfall(b, q);
    OfferFigures(b, q.settlement, q.player, q.sup + q.taxSUP);
    if !q.conversion.allowed {
      UnconvertedPurchase(b, q);
    } else if o.convertSUP > 0 && q.conversion == Conversion(true, o.convertSUP, 0)
              && Price(b.states[q.settlement], short) > 0 {
      MovedPurchase(b, q);
      NoSlippage(o.convertSUP, Price(b.states[q.settlement], short));
    }
  }

  /** Every figure of an offer is the book's: what is asked, what the payer, the desk and the purse hold, what
      is lacking, and the desk's price for it with its fee. */
  lemma OfferShowsTheBooks(b: Books, settlement: string, player: string, sup: int)
    ensures OfferFor(b, settlement, player, sup).Some? <==>
      && sup > 0 && settlement != "" && player != "" && IsChartered(b, settlement)
      && ToLocalCeil(b.states[settlement].Rate(), sup) > 0
    ensures OfferFor(b, settlement, player, sup).Some? ==>
      var o, st := OfferFor(b, settlement, player, sup).offer, b.states[settlement];
      && o.sup == sup && o.units == ToLocalCeil(st.Rate(), sup)
      && o.holds == b.ledger.Balance(PlayerHolding(player, st.code)) && o.cashSUP == b.ledger.Balance(Cash(player))
      && o.deskUnits == b.ledger.Balance(TreasuryHolding(settlement, st.code))
      && (o.local <==> o.units <= o.holds) && o.convertUnits == (if o.local then 0 else o.units - o.holds)
      && (o.canConvert <==> !o.local && o.convertSUP > 0 && o.convertSUP <= o.cashSUP && o.convertUnits <= o.deskUnits)
      && (!o.local && Price(st, o.convertUnits) > 0 ==>
            o.convertSUP == Price(st, o.convertUnits) && o.convertFee == DeskBuy(o.convertSUP, st.Rate(), st.feeBPS).1)
      && (o.local || Price(st, o.convertUnits) <= 0 ==> o.convertSUP == 0 && o.convertFee == 0)
  {
    hide ToLocalCeil, DeskCost, DeskBuy;
  }

  lemma OfferFigures(b: Books, settlement: string, player: string, sup: int)
    requires OfferFor(b, settlement, player, sup).Some?
    ensures var o := OfferFor(b, settlement, player, sup).offer;
      o.convertSUP > 0 ==> 0 < o.convertUnits == o.units - o.holds && o.convertSUP <= MAX64
  {
    hide ToLocalCeil, DeskBuy;
  }

  /** A payer who does not convert is paid for exactly when not short. */
  lemma UnconvertedPurchase(b: Books, q: LocalBurn)
    requires Sound(b.ledger) && Fresh(b, q) && Held(b, q) <= MAX64 && PriceUnits(b, q) > 0 && !q.conversion.allowed
    requires SumsUp(b, q)
    ensures BurnLocal(b, q).Ok? && (BurnLocal(b, q).value.1.paid <==> Shortfall(b, q) <= 0)
  {
    hide BurnLocal, Sound, ToLocalCeil, DeskBuy, DeskCost, PaidInFull, ShortOf, SumsUp;
    BurnIsAllOrNothing(b, q);
    BurnErrorsNeedOverflow(b, q);
    NobodyOverdrawn(b.ledger, PlayerHolding(q.player, b.states[q.settlement].code));
    SumsUpIs(b, q);
  }

  /** A converting payer is told the price moved exactly when what they lack costs more than they agreed to. */
  lemma MovedPurchase(b: Books, q: LocalBurn)
    requires Sound(b.ledger) && Fresh(b, q) && PriceUnits(b, q) > 0 && q.conversion.allowed
    requires Shortfall(b, q) > 0 && Price(b.states[q.settlement], Shortfall(b, q)) > 0
    ensures var cost := Price(b.states[q.settlement], Shortfall(b, q));
      BurnLocal(b, q) == Err(PriceMoved) <==> !WithinLimit(cost, q.conversion)
  {
    hide BurnLocal, Sound, ToLocalCeil, DeskBuy, DeskCost, PaidInFull, ShortOf, WithinLimit;
    BurnIsAllOrNothing(b, q);
  }

  lemma NoSlippage(most: int, cost: int)
    requires 0 < most <= MAX64
    ensures WithinLimit(cost, Conversion(true, most, 0)) <==> cost <= most
  {
    assert Wrap(most * 0) == 0 && TruncDiv(0, BPS) == 0;
  }

  lemma SumsUpIs(b: Books, q: LocalBurn)
    requires IsChartered(b, q.settlement) && SumsUp(b, q)
    ensures PriceUnits(b, q) + TaxDue(b, q) <= MAX64 && TaxDue(b, q) >= 0
  {
    if q.taxSUP > 0 {
      CeilIsNatural(b.states[q.settlement].Rate(), q.taxSUP);
    }
  }
}
