/** The reserve behind a settlement's money: issuing against further deposits, taking out excess, the
    head's purchases on the book, and winding the money down. */
module CurrencyReserve {
  import opened Rates
  import opened Ledgers
  import opened Currency

  /** More units against a further deposit, from the treasury or from a player. */
  function MintMore(b: Books, settlement: string, depositor: string, deposit: int, mintFeeBPS: int): Result<Books> {
    if settlement !in b.states then Err(NoMoney)
    else if !b.states[settlement].status.Chartered? then Err(Winding)
    else if deposit < 1 then Err(BadDeposit)
    else
      var st := b.states[settlement];
      var m := Mint(deposit, st.Rate(), mintFeeBPS);
      var from, to := if depositor == "" then Treasury(settlement) else Cash(depositor),
                      if depositor == "" then TreasuryHolding(settlement, st.code)
                      else PlayerHolding(depositor, st.code);
      if m.BadRate? || m.units <= 0 then Err(BadDeposit)
      else if b.ledger.Balance(from) < deposit then Err(PayerShort)
      else Issue(b, settlement, from, to, deposit, m)
  }

  function RecordRelease(b: Books, settlement: string, sup: int): Books
    requires settlement in b.states
  {
    var st := b.states[settlement];
    b.(states := b.states[settlement := st.(released := st.released + sup)])
  }

  /** SUP leaves the pot for good. */
  function PayOut(b: Books, settlement: string, to: Account, sup: int): Result<Books>
    requires settlement in b.states
  {
    var moved :- PostTo(b, Move(Pot(settlement), to, sup));
    Ok(RecordRelease(moved, settlement, sup))
  }

  /** A due withdrawal of reserve: only what the pot holds above the basis, to the treasury. */
  function Withdraw(b: Books, settlement: string, sup: int): Result<Books> {
    if !IsChartered(b, settlement) then Err(NoMoney)
    else if sup < 1 || b.ledger.Balance(Pot(settlement)) - b.states[settlement].basis < sup then Err(NoExcess)
    else PayOut(b, settlement, Treasury(settlement), sup)
  }

  // ----- the head's purchases on the book

  /** The least the pot may fall to by a purchase: this share of the basis, rounded down. */
  function PotFloor(basis: int, floorBPS: int): int { basis * floorBPS / BPS }

  function ShareOrNothing(a: int, b: int, c: int): int {
    match MulDiv(a, b, c)
    case Quotient(q, _) => q
    case Overflow => 0
  }

  /** The limit on a purchase: a share of the pot each period, and the floor left in it. */
  function BuyBudget(pot: int, basis: int, used: int, capBPS: int, floorBPS: int): int {
    var period := ShareOrNothing(pot + used, capBPS, BPS) - used;
    var room := pot - PotFloor(basis, floorBPS);
    var most := if period < room then period else room;
    if most > 0 then most else 0
  }

  const ESCROW := OtherKind("fx_escrow")

  function BookEscrow(settlement: string): Account { Account(ESCROW, Settlement(settlement), SUP) }

  /** Counts what a purchase took to the book, and what the book paid back. */
  function RecordFlow(b: Books, settlement: string, out: int, back: int): Books
    requires settlement in b.states
  {
    var st := b.states[settlement];
    var row := st.(interventionOut := st.interventionOut + out, interventionIn := st.interventionIn + back);
    b.(states := b.states[settlement := row])
  }

  /** A purchase order of the head: its escrow leaves the pot. */
  function Intervene(b: Books, settlement: string, sup: int, used: int, capBPS: int, floorBPS: int): Result<Books> {
    if !IsChartered(b, settlement) then Err(NoMoney)
    else
      var budget := BuyBudget(b.ledger.Balance(Pot(settlement)), b.states[settlement].basis, used, capBPS, floorBPS);
      if sup < 1 || sup > budget then Err(OverBudget)
      else
        var moved :- PostTo(b, Move(Pot(settlement), BookEscrow(settlement), sup));
        Ok(RecordFlow(moved, settlement, sup, 0))
  }

  function ReturnLegs(settlement: string, escrow: Account, sup: int, fee: int, support: Account): seq<Leg> {
    if fee > 0 then [Leg(escrow, -(sup + fee)), Leg(Pot(settlement), sup)] + [Leg(support, fee)]
    else Move(escrow, Pot(settlement), sup)
  }

  /** The pot is paid from the book: the change of a purchase, or the proceeds of a sale whose buyer also
      pays the fee. */
  function ReturnToPot(b: Books, settlement: string, escrow: Account, sup: int, fee: int,
                       support: Account): Result<Books>
    requires settlement in b.states
  {
    var moved :- PostTo(b, ReturnLegs(settlement, escrow, sup, fee, support));
    Ok(RecordFlow(moved, settlement, 0, sup))
  }

  // ----- burning the treasury's units

  function TreasuryBurn(b: Books, settlement: string, units: int, ref: Ref): Result<Books> {
    if settlement !in b.states then Err(NoMoney)
    else if !b.states[settlement].status.Chartered? then Err(Winding)
    else
      var st := b.states[settlement];
      var holding := TreasuryHolding(settlement, st.code);
      if units < 1 || b.ledger.Balance(holding) < units then Err(NoUnits)
      else if ref in b.burns then Err(AlreadyLogged)
      else Burn(b, settlement, st, holding, units, ref)
  }

  // ----- winding down

  function BeginWindDown(b: Books, settlement: string): Books {
    if !IsChartered(b, settlement) then b
    else b.(states := b.states[settlement := b.states[settlement].(status := WindDown)])
  }

  /** A holding of the money that may claim: anyone's but the treasury's own. */
  predicate Claims(a: Account, settlement: string, code: string) {
    a.kind.ForeignHolding? && a.currency == code && a.owner != Settlement(settlement)
  }

  /** All the units that may claim. */
  function Claimable(legs: seq<Leg>, settlement: string, code: string): int {
    if legs == [] then 0
    else
      var last := legs[|legs| - 1];
      Claimable(legs[..|legs| - 1], settlement, code)
      + if Claims(last.account, settlement, code) then last.amount else 0
  }

  /** `units` of `claimable` as a share of `pot`, rounded down. */
  function ClaimShare(pot: int, claimable: int, units: int): int {
    if claimable <= 0 || units <= 0 || units > claimable then 0 else ShareOrNothing(pot, units, claimable)
  }

  /** A holder gives up all their units, which are burnt, for their share of the pot. */
  function ClaimPot(b: Books, settlement: string, player: string, ref: Ref): Result<Books> {
    if settlement !in b.states then Err(NoMoney)
    else if !b.states[settlement].status.WindDown? then Err(NotWinding)
    else
      var st := b.states[settlement];
      var holding := PlayerHolding(player, st.code);
      var units := b.ledger.Balance(holding);
      if units < 1 then Err(NothingToClaim)
      else if ref in b.burns then Err(AlreadyLogged)
      else
        var claimable := Claimable(b.ledger.entries, settlement, st.code);
        var share := ClaimShare(b.ledger.Balance(Pot(settlement)), claimable, units);
        var burnt :- Burn(b, settlement, st, holding, units, ref);
        if share <= 0 then Ok(burnt) else PayOut(burnt, settlement, Cash(player), share)
  }

  /** The money is retired, and the treasury takes the rest of the pot. */
  function FinishWindDown(b: Books, settlement: string): Result<Books> {
    if settlement !in b.states || !b.states[settlement].status.WindDown? then Ok(b)
    else
      var retired := b.(states := b.states[settlement := b.states[settlement].(status := Retired)]);
      var left := b.ledger.Balance(Pot(settlement));
      if left <= 0 then Ok(retired) else PayOut(retired, settlement, Treasury(settlement), left)
  }

  // ----- what moves no money

  /** The reference rate follows the book while the money is traded. */
  function MoveRate(b: Books, settlement: string, xRefPPM: int): Books {
    if settlement !in b.states || b.states[settlement].status.Retired? then b
    else b.(states := b.states[settlement := b.states[settlement].(xRefPPM := xRefPPM)])
  }

  function SetDeskFee(b: Books, settlement: string, feeBPS: int): Books {
    if settlement !in b.states then b
    else b.(states := b.states[settlement := b.states[settlement].(feeBPS := feeBPS)])
  }
}
