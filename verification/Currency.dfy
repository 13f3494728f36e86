/** A settlement's own money: its counter row beside the ledger, and what each operation does to both.
    Every operation is one transaction: its result is the new books, or an error and no books at all. */
module Currency {
  import opened Rates
  import opened Ledgers

  const SUP := "SUP"

  datatype Status = Chartered | WindDown | Retired

  /** The counter row of a chartered currency. */
  datatype State = State(
    code: string, status: Status, r0: int, xRefPPM: int,
    minted: int, burnt: int, basis: int, deposited: int, released: int,
    interventionOut: int, interventionIn: int, feeBPS: int)
  {
    /** The SUP that went into the pot, less what came out. */
    function PotSUP(): int { deposited - released - interventionOut + interventionIn }
    function Supply(): int { minted - burnt }
    function Rate(): Rate { Rates.Rate(r0, xRefPPM) }
  }

  /** The flow row a movement stands for: its type and id. */
  type Ref = (string, string)

  datatype Direction = Pay | Collect | Transfer

  datatype BurnRow = BurnRow(settlement: string, units: int, basis: int)

  datatype Books = Books(
    ledger: Ledger,
    states: map<string, State>,
    burns: map<Ref, BurnRow>,
    payments: map<(Ref, Direction), int>)

  datatype Error =
    | NoDeal          // the conversion buys nothing
    | PriceMoved      // past what the payer agreed to
    | PayerShort      // the payer has too little to convert
    | DeskEmpty       // the desk has too few units
    | TreasuryShort   // the treasury has too little SUP to buy units back
    | CannotPay       // insufficient funds after the checks
    | BadDeposit      // a deposit that buys no unit
    | NoMoney         // no currency was chartered here
    | Winding         // its money is winding down
    | NoExcess        // the pot holds nothing above the basis for that
    | OverBudget      // past the limits on a purchase from the pot
    | NoUnits         // fewer units in the treasury than asked
    | NotWinding      // the money is not winding down
    | NothingToClaim  // the holder has no units
    | AlreadyLogged   // a burn for that row exists
    | NotPosted(error: LedgerError)

  datatype Result<+T> = Ok(value: T) | Err(error: Error) {
    predicate IsFailure() { Err? }
    function PropagateFailure<U>(): Result<U>
      requires Err?
    {
      Err(error)
    }
    function Extract(): T
      requires Ok?
    {
      value
    }
  }

  function Cash(player: string): Account { Account(PlayerCash, Player(player), SUP) }
  function Treasury(settlement: string): Account { Account(CityTreasury, Settlement(settlement), SUP) }
  function Pot(settlement: string): Account { Account(ReservePot, Settlement(settlement), SUP) }
  function PlayerHolding(player: string, code: string): Account { Account(ForeignHolding, Player(player), code) }
  function TreasuryHolding(settlement: string, code: string): Account {
    Account(ForeignHolding, Settlement(settlement), code)
  }

  function PostTo(b: Books, legs: seq<Leg>): Result<Books> {
    match Post(b.ledger, legs)
    case Posted(l) => Ok(b.(ledger := l))
    case Refused(e) => Err(NotPosted(e))
  }

  predicate IsChartered(b: Books, settlement: string) {
    settlement in b.states && b.states[settlement].status.Chartered?
  }

  // ----- the desk

  datatype Side = Buy | Sell

  datatype Quote = Quote(sup: int, units: int, fee: int)

  /** The desk's price: `amount` is the SUP paid for a buy, the units given for a sell. */
  function QuoteDesk(st: State, side: Side, amount: int): Quote {
    match side
    case Buy =>
      var (units, fee) := DeskBuy(amount, st.Rate(), st.feeBPS);
      Quote(amount, units, fee)
    case Sell =>
      var (sup, fee) := DeskSell(amount, st.Rate(), st.feeBPS);
      Quote(sup, amount, fee)
  }

  /** A conversion at the desk: both sides together or not at all, never below `minOut`, and only from
      what the treasury holds. */
  function Desk(b: Books, settlement: string, st: State, player: string, side: Side, amount: int,
                minOut: int): Result<(Books, Quote)> {
    var q := QuoteDesk(st, side, amount);
    var out := if side.Sell? then q.sup else q.units;
    var units, cash := PlayerHolding(player, st.code), Cash(player);
    var stock, treasury := TreasuryHolding(settlement, st.code), Treasury(settlement);
    if out <= 0 then Err(NoDeal)
    else if out < minOut then Err(PriceMoved)
    else match side
      case Buy =>
        if b.ledger.Balance(cash) < q.sup then Err(PayerShort)
        else if b.ledger.Balance(stock) < q.units then Err(DeskEmpty)
        else
          var paid :- PostTo(b, Move(cash, treasury, q.sup));
          var done :- PostTo(paid, Move(stock, units, q.units));
          Ok((done, q))
      case Sell =>
        if b.ledger.Balance(units) < q.units then Err(PayerShort)
        else if b.ledger.Balance(treasury) < q.sup then Err(TreasuryShort)
        else
          var paid :- PostTo(b, Move(treasury, cash, q.sup));
          var done :- PostTo(paid, Move(units, stock, q.units));
          Ok((done, q))
  }

  // ----- paying an obligation in the local money

  datatype LocalResult = LocalResult(paid: bool, already: bool, units: int, converted: bool, convertSUP: int,
                                     convertFee: int)

  /** No part of the books changed, and the payer still owes. */
  const NOT_PAID := LocalResult(false, false, 0, false, 0, 0)

  function Repeated(units: int): LocalResult { LocalResult(true, true, units, false, 0, 0) }

  /** How a payer short of units may buy the rest inside the same payment. */
  datatype Conversion = Conversion(allowed: bool, maxSUP: int, slippageBPS: int)

  predicate WithinLimit(cost: int, c: Conversion) {
    c.maxSUP > 0 ==> cost <= Wrap(c.maxSUP + TruncDiv(Wrap(c.maxSUP * c.slippageBPS), BPS))
  }

  /** Integer division that rounds toward zero. */
  function TruncDiv(n: int, d: int): int
    requires d > 0
  {
    if n >= 0 then n / d else -((-n) / d)
  }

  /** Buys at least `short` units for the player at the least price the desk has for them. */
  ghost function BuyShortfall(b: Books, settlement: string, st: State, player: string, short: int,
                              c: Conversion): Result<(Books, Quote)> {
    var cost := DeskCost(short, st.Rate(), st.feeBPS);
    if cost <= 0 then Err(NoDeal)
    else if !WithinLimit(cost, c) then Err(PriceMoved)
    else Desk(b, settlement, st, player, Buy, cost, short)
  }

  /** The payer's shortfall, if any, bought first. */
  ghost function Fund(b: Books, settlement: string, st: State, player: string, short: int,
                      c: Conversion): Result<(Books, Quote)> {
    if short > 0 then BuyShortfall(b, settlement, st, player, short, c) else Ok((b, Quote(0, 0, 0)))
  }

  datatype LocalPayment = LocalPayment(
    settlement: string, player: string, payee: string, direction: Direction,
    sup: int, cutBPS: int, ref: Ref, dryRun: bool, conversion: Conversion)

  /** The share of a transfer that goes on to the treasury. */
  function CutOf(units: int, cutBPS: int): int {
    var cut := if cutBPS > 0 then units * cutBPS / BPS else 0;
    if cut >= units then 0 else cut
  }

  function PaymentLegs(p: LocalPayment, code: string, units: int): seq<Leg> {
    var treasury, player := TreasuryHolding(p.settlement, code), PlayerHolding(p.player, code);
    match p.direction
    case Pay => Move(treasury, player, units)
    case Collect => Move(player, treasury, units)
    case Transfer =>
      var cut := CutOf(units, p.cutBPS);
      [Leg(player, -units), Leg(PlayerHolding(p.payee, code), units - cut)]
      + if cut > 0 then [Leg(treasury, cut)] else []
  }

  function PayerOf(p: LocalPayment, code: string): Account {
    if p.direction.Pay? then TreasuryHolding(p.settlement, code) else PlayerHolding(p.player, code)
  }

  ghost function PayLocal(b: Books, p: LocalPayment): Result<(Books, LocalResult)> {
    if p.sup <= 0 || p.player == "" || p.settlement == "" || !IsChartered(b, p.settlement) then Ok((b, NOT_PAID))
    else if (p.ref, p.direction) in b.payments then Ok((b, Repeated(b.payments[(p.ref, p.direction)])))
    else
      var st := b.states[p.settlement];
      PayUnits(b, p, st, ToLocalCeil(st.Rate(), p.sup))
  }

  /** The obligation comes to `units`: paid from what the payer holds, after a conversion if allowed. */
  ghost function PayUnits(b: Books, p: LocalPayment, st: State, units: int): Result<(Books, LocalResult)> {
    var short := units - b.ledger.Balance(PayerOf(p, st.code));
    if units <= 0 || (p.direction.Transfer? && (p.payee == "" || p.payee == p.player)) then Ok((b, NOT_PAID))
    else if short > 0 && (!p.conversion.allowed || p.direction.Pay? || p.dryRun) then Ok((b, NOT_PAID))
    else
      var (funded, q) :- Fund(b, p.settlement, st, p.player, short, p.conversion);
      var result := LocalResult(true, false, units, short > 0, q.sup, q.fee);
      if p.dryRun then Ok((b, result))
      else
        var paid :- Settle(funded, p, st.code, units);
        Ok((paid, result))
  }

  /** The payment itself: its legs and its row. */
  function Settle(b: Books, p: LocalPayment, code: string, units: int): Result<Books> {
    var paid :- PostTo(b, PaymentLegs(p, code, units));
    Ok(paid.(payments := paid.payments[(p.ref, p.direction) := units]))
  }

  // ----- a purchase from the village shelf: units burnt, tax to the treasury

  datatype LocalBurn = LocalBurn(settlement: string, player: string, sup: int, taxSUP: int, ref: Ref,
                                 conversion: Conversion)

  /** The issuance log's burn row, and the counters it moves. */
  function RecordBurn(b: Books, settlement: string, units: int, share: int, ref: Ref): Books
    requires settlement in b.states
  {
    var st := b.states[settlement];
    var basis := if st.basis - share > 0 then st.basis - share else 0;
    b.(states := b.states[settlement := st.(burnt := st.burnt + units, basis := basis)],
       burns := b.burns[ref := BurnRow(settlement, units, share)])
  }

  /** Units destroyed in the currency's own sink and logged, by the counters `st` read beforehand. */
  function Burn(b: Books, settlement: string, st: State, holding: Account, units: int, ref: Ref): Result<Books>
    requires settlement in b.states
  {
    var burnt :- PostTo(b, Move(holding, Sink(st.code), units));
    Ok(RecordBurn(burnt, settlement, units, BurnBasis(st.basis, st.Supply(), units), ref))
  }

  function TaxPayment(q: LocalBurn): LocalPayment {
    LocalPayment(q.settlement, q.player, "", Collect, q.taxSUP, 0, q.ref, false, Conversion(false, 0, 0))
  }

  function TaxUnits(st: State, taxSUP: int): int { if taxSUP > 0 then ToLocalCeil(st.Rate(), taxSUP) else 0 }

  /** The units a payer lacks, in 64-bit arithmetic. */
  function ShortOf(burn: int, tax: int, held: int): int { Wrap(Wrap(burn + tax) - held) }

  ghost function BurnLocal(b: Books, q: LocalBurn): Result<(Books, LocalResult)> {
    if q.sup <= 0 || q.player == "" || q.settlement == "" || !IsChartered(b, q.settlement) then Ok((b, NOT_PAID))
    else if q.ref in b.burns then Ok((b, Repeated(b.burns[q.ref].units)))
    else
      var st := b.states[q.settlement];
      BurnUnits(b, q, st, ToLocalCeil(st.Rate(), q.sup), TaxUnits(st, q.taxSUP))
  }

  /** The price comes to `burn` units and the tax to `tax`: both covered first, by a conversion if allowed. */
  ghost function BurnUnits(b: Books, q: LocalBurn, st: State, burn: int, tax: int): Result<(Books, LocalResult)>
    requires q.settlement in b.states
  {
    var holding := PlayerHolding(q.player, st.code);
    var short := ShortOf(burn, tax, b.ledger.Balance(holding));
    if burn <= 0 || (short > 0 && !q.conversion.allowed) then Ok((b, NOT_PAID))
    else
      var (funded, quote) :- Fund(b, q.settlement, st, q.player, short, q.conversion);
      assert funded.states == b.states by { FundKeepsRows(b, q.settlement, st, q.player, short, q.conversion); }
      var burnt :- Burn(funded, q.settlement, st, holding, burn, q.ref);
      var result := LocalResult(true, false, burn, short > 0, quote.sup, quote.fee);
      if tax <= 0 then Ok((burnt, result))
      else
        var (taxed, r) :- PayLocal(burnt, TaxPayment(q));
        if !r.paid then Err(CannotPay) else Ok((taxed, result.(units := burn + r.units)))
  }

  /** A conversion touches the ledger only. */
  lemma FundKeepsRows(b: Books, settlement: string, st: State, player: string, short: int, c: Conversion)
    requires Fund(b, settlement, st, player, short, c).Ok?
    ensures var after := Fund(b, settlement, st, player, short, c).value.0;
      after.states == b.states && after.burns == b.burns && after.payments == b.payments
  {
  }

  // ----- what a payer is told before confirming

  datatype Offer = Offer(
    sup: int, units: int, holds: int, local: bool, canConvert: bool,
    convertSUP: int, convertFee: int, convertUnits: int, deskUnits: int, cashSUP: int)

  datatype MaybeOffer = NoOffer | Some(offer: Offer)

  ghost function OfferFor(b: Books, settlement: string, player: string, sup: int): MaybeOffer {
    if sup <= 0 || settlement == "" || player == "" || !IsChartered(b, settlement) then NoOffer
    else
      var st := b.states[settlement];
      var units := ToLocalCeil(st.Rate(), sup);
      if units <= 0 then NoOffer
      else
        var holds := b.ledger.Balance(PlayerHolding(player, st.code));
        var stock, cash := b.ledger.Balance(TreasuryHolding(settlement, st.code)), b.ledger.Balance(Cash(player));
        if holds >= units then Some(Offer(sup, units, holds, true, false, 0, 0, 0, stock, cash))
        else
          var short := units - holds;
          var cost := DeskCost(short, st.Rate(), st.feeBPS);
          if cost <= 0 then Some(Offer(sup, units, holds, false, false, 0, 0, short, stock, cash))
          else Some(Offer(sup, units, holds, false, stock >= short && cash >= cost,
                          cost, DeskBuy(cost, st.Rate(), st.feeBPS).1, short, stock, cash))
  }

  // ----- issuing

  const DEFAULT_DESK_FEE := 30

  function RecordMint(b: Books, settlement: string, deposit: int, m: Minted): Books
    requires settlement in b.states && m.Minted?
  {
    var st := b.states[settlement];
    b.(states := b.states[settlement := st.(minted := st.minted + m.units, basis := st.basis + m.basisSUP,
                                            deposited := st.deposited + deposit)])
  }

  datatype CharterResult = Issued(units: int) | AlreadyChartered | NoReservation | Unaffordable | Disabled

  /** The new counter row, nothing counted yet, at the reference rate of one. */
  function Opened(b: Books, settlement: string, code: string, r0: int): Books {
    b.(states := b.states[settlement := State(code, Chartered, r0, PPM, 0, 0, 0, 0, 0, 0, 0, DEFAULT_DESK_FEE)])
  }

  function ChargeFee(b: Books, settlement: string, fee: int): Result<Books> {
    if fee > 0 then PostTo(b, Move(Treasury(settlement), Sink(SUP), fee)) else Ok(b)
  }

  /** The fee destroyed, the deposit into the pot, the first units against it; once per settlement. */
  function Charter(b: Books, reservations: map<string, string>, settlement: string, r0: int, fee: int, deposit: int,
                   mintFeeBPS: int)
    : Result<(Books, CharterResult)>
  {
    if settlement in b.states then Ok((b, AlreadyChartered))
    else if settlement !in reservations then Ok((b, NoReservation))
    else
      var m := Mint(deposit, Rates.Rate(r0, PPM), mintFeeBPS);
      if m.BadRate? || m.units <= 0 then Err(BadDeposit)
      else
        var code := reservations[settlement];
        var started := Opened(b, settlement, code, r0);
        var charged :- ChargeFee(started, settlement, fee);
        assert charged.states == started.states;
        var issued :- Issue(charged, settlement, Treasury(settlement), TreasuryHolding(settlement, code), deposit, m);
        Ok((issued, Issued(m.units)))
  }

  datatype Rules = Rules(charterR0: int, terms: Terms, mintFeeBPS: int) {
    predicate Enabled() { charterR0 > 0 && terms.fee >= 0 && terms.minDeposit > 0 }
  }

  function AutoCharter(b: Books, reservations: map<string, string>, rules: Rules, settlement: string, atFounding: bool)
    : Result<(Books, CharterResult)>
  {
    if !rules.Enabled() then Ok((b, Disabled))
    else if settlement in b.states then Ok((b, AlreadyChartered))
    else if settlement !in reservations then Ok((b, NoReservation))
    else match PlanAuto(b.ledger.Balance(Treasury(settlement)), rules.terms, atFounding)
      case NoPlan => Ok((b, Unaffordable))
      case CharterPlan(fee, deposit) =>
        Charter(b, reservations, settlement, rules.charterR0, fee, deposit, rules.mintFeeBPS)
  }

  /** A deposit into the pot, and units out of the currency's source against it. */
  function Issue(b: Books, settlement: string, from: Account, to: Account, deposit: int, m: Minted): Result<Books>
    requires settlement in b.states && m.Minted?
  {
    var deposited :- PostTo(b, Move(from, Pot(settlement), deposit));
    var issued :- PostTo(deposited, Move(Source(to.currency), to, m.units));
    Ok(RecordMint(issued, settlement, deposit, m))
  }
}
