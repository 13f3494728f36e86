/** One unit of work over the books: posts and row writes in the order the operations issue them, with
    everything undone when an operation fails. */
module SettlementWork {
  import opened Rates
  import opened Ledgers
  import opened Currency

  /** An operation did what its specification says: the new books, or the error and the old books. */
  ghost predicate Did<R>(before: Books, after: Books, outcome: Result<R>, promised: Result<(Books, R)>) {
    match promised
    case Ok(pair) => after == pair.0 && outcome == Ok(pair.1)
    case Err(e) => after == before && outcome == Err(e)
  }

  class UnitOfWork {
    const reservations: map<string, string>
    var books: Books

    constructor (books: Books, reservations: map<string, string>)
      ensures this.books == books && this.reservations == reservations
    {
      this.books := books;
      this.reservations := reservations;
    }

    /** Posts one transaction, or leaves the books as they were. */
    method PostEntries(legs: seq<Leg>) returns (posted: bool)
      modifies this
      ensures posted == PostTo(old(books), legs).Ok?
      ensures books == if posted then PostTo(old(books), legs).value else old(books)
      ensures !posted ==> Post(old(books).ledger, legs).Refused?
    {
      match Post(books.ledger, legs)
      case Posted(l) =>
        books := books.(ledger := l);
        posted := true;
      case Refused(_) =>
        posted := false;
    }

    function RefusalOf(legs: seq<Leg>): Error
      reads this
      requires Post(books.ledger, legs).Refused?
    {
      NotPosted(Post(books.ledger, legs).error)
    }

    method ExecuteDesk(settlement: string, st: State, player: string, side: Side, amount: int,
                       minOut: int) returns (r: Result<Quote>)
      modifies this
      ensures Did(old(books), books, r, Desk(old(books), settlement, st, player, side, amount, minOut))
    {
      var before := books;
      var q := QuoteDesk(st, side, amount);
      var out := if side.Sell? then q.sup else q.units;
      if out <= 0 {
        return Err(NoDeal);
      }
      if out < minOut {
        return Err(PriceMoved);
      }
      var supFrom, supTo, locFrom, locTo;
      match side {
        case Buy =>
          supFrom, supTo := Cash(player), Treasury(settlement);
          locFrom, locTo := TreasuryHolding(settlement, st.code), PlayerHolding(player, st.code);
          if books.ledger.Balance(supFrom) < q.sup {
            return Err(PayerShort);
          }
          if books.ledger.Balance(locFrom) < q.units {
            return Err(DeskEmpty);
          }
        case Sell =>
          supFrom, supTo := Treasury(settlement), Cash(player);
          locFrom, locTo := PlayerHolding(player, st.code), TreasuryHolding(settlement, st.code);
          if books.ledger.Balance(locFrom) < q.units {
            return Err(PayerShort);
          }
          if books.ledger.Balance(supFrom) < q.sup {
            return Err(TreasuryShort);
          }
      }
      var posted := PostEntries(Move(supFrom, supTo, q.sup));
      if !posted {
        return Err(RefusalOf(Move(supFrom, supTo, q.sup)));
      }
      posted := PostEntries(Move(locFrom, locTo, q.units));
      if !posted {
        r := Err(RefusalOf(Move(locFrom, locTo, q.units)));
        books := before;
        return;
      }
      return Ok(q);
    }

    /** Buys the payer's shortfall at the desk, within the limit they agreed to. */
    method BuyShort(settlement: string, st: State, player: string, short: int, c: Conversion) returns (r: Result<Quote>)
      requires short > 0
      modifies this
      ensures Did(old(books), books, r, Fund(old(books), settlement, st, player, short, c))
    {
      var cost := DeskBuyCost(short, st.Rate(), st.feeBPS);
      if cost <= 0 {
        return Err(NoDeal);
      }
      if c.maxSUP > 0 && cost > Wrap(c.maxSUP + TruncDiv(Wrap(c.maxSUP * c.slippageBPS), BPS)) {
        return Err(PriceMoved);
      }
      r := ExecuteDesk(settlement, st, player, Buy, cost, short);
    }

    method PayLocal(p: LocalPayment) returns (r: Result<LocalResult>)
      modifies this
      ensures Did(old(books), books, r, Currency.PayLocal(old(books), p))
    {
      hide Fund, Post, ToLocalCeil, PaymentLegs;
      var before := books;
      if p.sup <= 0 || p.player == "" || p.settlement == "" || !IsChartered(books, p.settlement) {
        return Ok(NOT_PAID);
      }
      if (p.ref, p.direction) in books.payments {
        return Ok(Repeated(books.payments[(p.ref, p.direction)]));
      }
      var st := books.states[p.settlement];
      var units := ToLocalCeil(st.Rate(), p.sup);
      if units <= 0 {
        return Ok(NOT_PAID);
      }
      if p.direction.Transfer? && (p.payee == "" || p.payee == p.player) {
        return Ok(NOT_PAID);
      }
      var result := LocalResult(false, false, 0, false, 0, 0);
      var short := units - books.ledger.Balance(PayerOf(p, st.code));
      if short > 0 {
        if !p.conversion.allowed || p.direction.Pay? || p.dryRun {
          return Ok(NOT_PAID);
        }
        var bought := BuyShort(p.settlement, st, p.player, short, p.conversion);
        if bought.Err? {
          return Err(bought.error);
        }
        result := result.(converted := true, convertSUP := bought.value.sup, convertFee := bought.value.fee);
      } else {
        assert Fund(books, p.settlement, st, p.player, short, p.conversion) == Ok((books, Quote(0, 0, 0))) by {
          NothingToFund(books, p.settlement, st, p.player, short, p.conversion);
        }
      }
      if p.dryRun {
        return Ok(LocalResult(true, false, units, false, 0, 0));
      }
      var legs := PaymentLegs(p, st.code, units);
      var posted := PostEntries(legs);
      if !posted {
        r := Err(RefusalOf(legs));
        books := before;
        return;
      }
      books := books.(payments := books.payments[(p.ref, p.direction) := units]);
      return Ok(result.(paid := true, units := units));
    }

    method BurnLocal(q: LocalBurn) returns (r: Result<LocalResult>)
      modifies this
      ensures Did(old(books), books, r, Currency.BurnLocal(old(books), q))
    {
      hide Fund, Post, ToLocalCeil, BurnBasis, Currency.PayLocal;
      var before := books;
      if q.sup <= 0 || q.player == "" || q.settlement == "" || !IsChartered(books, q.settlement) {
        return Ok(NOT_PAID);
      }
      if q.ref in books.burns {
        return Ok(Repeated(books.burns[q.ref].units));
      }
      var st := books.states[q.settlement];
      var burn, tax := ToLocalCeil(st.Rate(), q.sup), 0;
      if q.taxSUP > 0 {
        tax := ToLocalCeil(st.Rate(), q.taxSUP);
      }
      if burn <= 0 {
        return Ok(NOT_PAID);
      }
      var result := LocalResult(false, false, 0, false, 0, 0);
      var holding := PlayerHolding(q.player, st.code);
      var short := Wrap(Wrap(burn + tax) - books.ledger.Balance(holding));
      if short > 0 {
        if !q.conversion.allowed {
          return Ok(NOT_PAID);
        }
        FundKeepsRowsIfOk(books, q.settlement, st, q.player, short, q.conversion);
        var bought := BuyShort(q.settlement, st, q.player, short, q.conversion);
        if bought.Err? {
          return Err(bought.error);
        }
        result := result.(converted := true, convertSUP := bought.value.sup, convertFee := bought.value.fee);
      } else {
        NothingToFund(books, q.settlement, st, q.player, short, q.conversion);
      }
      var legs := Move(holding, Sink(st.code), burn);
      var posted := PostEntries(legs);
      if !posted {
        r := Err(RefusalOf(legs));
        books := before;
        return;
      }
      books := RecordBurn(books, q.settlement, burn, BurnBasis(st.basis, st.Supply(), burn), q.ref);
      result := result.(paid := true, units := burn);
      if tax > 0 {
        var taxed := PayLocal(TaxPayment(q));
        if taxed.Err? {
          books := before;
          return Err(taxed.error);
        }
        if !taxed.value.paid {
          books := before;
          return Err(CannotPay);
        }
        result := result.(units := result.units + taxed.value.units);
      }
      return Ok(result);
    }

    /** What the payer is told; it changes nothing. */
    method LocalOfferFor(settlement: string, player: string, sup: int) returns (o: MaybeOffer)
      ensures o == OfferFor(books, settlement, player, sup)
    {
      hide ToLocalCeil;
      if sup <= 0 || settlement == "" || player == "" || !IsChartered(books, settlement) {
        return NoOffer;
      }
      var st := books.states[settlement];
      var units := ToLocalCeil(st.Rate(), sup);
      if units <= 0 {
        return NoOffer;
      }
      var hold := books.ledger.Balance(PlayerHolding(player, st.code));
      var desk := books.ledger.Balance(TreasuryHolding(settlement, st.code));
      var cash := books.ledger.Balance(Cash(player));
      var offer := Offer(sup, units, hold, false, false, 0, 0, 0, desk, cash);
      if offer.holds >= units {
        return Some(offer.(local := true));
      }
      offer := offer.(convertUnits := units - offer.holds);
      var cost := DeskBuyCost(offer.convertUnits, st.Rate(), st.feeBPS);
      if cost > 0 {
        var (_, fee) := DeskBuy(cost, st.Rate(), st.feeBPS);
        offer := offer.(convertSUP := cost, convertFee := fee,
                        canConvert := offer.deskUnits >= offer.convertUnits && offer.cashSUP >= cost);
      }
      return Some(offer);
    }

    method CharterCurrency(settlement: string, r0: int, fee: int, deposit: int,
                           mintFeeBPS: int) returns (r: Result<CharterResult>)
      modifies this
      ensures Did(old(books), books, r, Charter(old(books), reservations, settlement, r0, fee, deposit, mintFeeBPS))
    {
      hide Post, Mint;
      var before := books;
      if settlement in books.states {
        return Ok(AlreadyChartered);
      }
      if settlement !in reservations {
        return Ok(NoReservation);
      }
      var code := reservations[settlement];
      var m := Mint(deposit, Rates.Rate(r0, PPM), mintFeeBPS);
      if m.BadRate? || m.units <= 0 {
        return Err(BadDeposit);
      }
      books := Opened(books, settlement, code, r0);
      if fee > 0 {
        var charge := Move(Treasury(settlement), Sink(SUP), fee);
        var charged := PostEntries(charge);
        if !charged {
          r := Err(RefusalOf(charge));
          books := before;
          return;
        }
      }
      var deposits := Move(Treasury(settlement), Pot(settlement), deposit);
      var posted := PostEntries(deposits);
      if !posted {
        r := Err(RefusalOf(deposits));
        books := before;
        return;
      }
      var units := Move(Source(code), TreasuryHolding(settlement, code), m.units);
      posted := PostEntries(units);
      if !posted {
        r := Err(RefusalOf(units));
        books := before;
        return;
      }
      books := RecordMint(books, settlement, deposit, m);
      return Ok(Issued(m.units));
    }

    method AutoCharter(rules: Rules, settlement: string, atFounding: bool) returns (r: Result<CharterResult>)
      modifies this
      ensures Did(old(books), books, r, Currency.AutoCharter(old(books), reservations, rules, settlement, atFounding))
    {
      if !rules.Enabled() {
        return Ok(Disabled);
      }
      if settlement in books.states {
        return Ok(AlreadyChartered);
      }
      if settlement !in reservations {
        return Ok(NoReservation);
      }
      var plan := PlanAuto(books.ledger.Balance(Treasury(settlement)), rules.terms, atFounding);
      if plan.NoPlan? {
        return Ok(Unaffordable);
      }
      r := CharterCurrency(settlement, rules.charterR0, plan.fee, plan.deposit, rules.mintFeeBPS);
    }
  }

  lemma NothingToFund(b: Books, settlement: string, st: State, player: string, short: int, c: Conversion)
    requires short <= 0
    ensures Fund(b, settlement, st, player, short, c) == Ok((b, Quote(0, 0, 0)))
  {
  }

  lemma FundKeepsRowsIfOk(b: Books, settlement: string, st: State, player: string, short: int, c: Conversion)
    ensures Fund(b, settlement, st, player, short, c).Ok? ==>
      Fund(b, settlement, st, player, short, c).value.0.states == b.states
  {
    if Fund(b, settlement, st, player, short, c).Ok? {
      FundKeepsRows(b, settlement, st, player, short, c);
    }
  }
}
