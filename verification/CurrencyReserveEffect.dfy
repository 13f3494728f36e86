/** What each operation on the reserve moves, and exactly when it is refused. */
module CurrencyReserveEffect {
  import opened Rates
  import opened Ledgers
  import opened Currency
  import opened CurrencyReserve
  import opened CurrencyInvariant
  import opened CurrencyReserveInvariant
  import opened CurrencyOffer

  /** A further deposit is taken exactly when it buys a unit and the depositor holds it: the depositor's SUP
      goes into the pot, and the units out of the money's source into the depositor's own holding. */
  lemma MintMoreEffect(b: Books, settlement: string, depositor: string, deposit: int, mintFeeBPS: int)
    requires Sound(b.ledger)
    ensures var r := MintMore(b, settlement, depositor, deposit, mintFeeBPS);
      if settlement !in b.states then r == Err(NoMoney)
      else if !b.states[settlement].status.Chartered? then r == Err(Winding)
      else
        var st := b.states[settlement];
        var m := Mint(deposit, st.Rate(), mintFeeBPS);
        var purse := if depositor == "" then Treasury(settlement) else Cash(depositor);
        var units := if depositor == "" then TreasuryHolding(settlement, st.code)
                     else PlayerHolding(depositor, st.code);
        if m.BadRate? || m.units <= 0 then r == Err(BadDeposit)
        else if b.ledger.Balance(purse) < deposit then r == Err(PayerShort)
        else
          && r.Ok? && Sound(r.value.ledger)
          && (forall a :: r.value.ledger.Balance(a) == b.ledger.Balance(a)
                + (if a == purse then -deposit else if a == Pot(settlement) then deposit
                   else if a == units then m.units else if a == Source(st.code) then -m.units else 0))
          && r.value == b.(ledger := r.value.ledger,
                           states := b.states[settlement := st.(minted := st.minted + m.units,
                                                                basis := st.basis + m.basisSUP,
                                                                deposited := st.deposited + deposit)])
  {
    hide Issue, Sound, Mint;
    if settlement in b.states {
      var st := b.states[settlement];
      var m := Mint(deposit, st.Rate(), mintFeeBPS);
      var purse := if depositor == "" then Treasury(settlement) else Cash(depositor);
      var units := if depositor == "" then TreasuryHolding(settlement, st.code) else PlayerHolding(depositor, st.code);
      if m.Minted? && m.units > 0 {
        MintedUnits(deposit, st.Rate(), mintFeeBPS);
        if b.ledger.Balance(purse) >= deposit {
          IssueMoves(b, settlement, purse, units, deposit, m);
        }
      }
    }
  }

  lemma IssueMoves(b: Books, settlement: string, from: Account, to: Account, deposit: int, m: Minted)
    requires Sound(b.ledger) && settlement in b.states && m.Minted? && m.units > 0
    requires 0 < deposit <= b.ledger.Balance(from) && from.currency == SUP
    requires (from.kind.PlayerCash? || from.kind.CityTreasury?) && to.kind.ForeignHolding?
    ensures var r, st := Issue(b, settlement, from, to, deposit, m), b.states[settlement];
      && r.Ok? && Sound(r.value.ledger)
      && (forall a :: r.value.ledger.Balance(a) == b.ledger.Balance(a)
            + (if a == from then -deposit else if a == Pot(settlement) then deposit
               else if a == to then m.units else if a == Source(to.currency) then -m.units else 0))
      && r.value == b.(ledger := r.value.ledger,
                       states := b.states[settlement := st.(minted := st.minted + m.units,
                                                            basis := st.basis + m.basisSUP,
                                                            deposited := st.deposited + deposit)])
  {
    hide Post, Sound;
    MoveEffect(b.ledger, from, Pot(settlement), deposit);
    MoveEffect(PostTo(b, Move(from, Pot(settlement), deposit)).value.ledger, Source(to.currency), to, m.units);
  }

  /** SUP paid out of the pot is counted, and reaches whom it is for; never more than the pot holds. */
  lemma PayOutEffect(b: Books, settlement: string, to: Account, sup: int)
    requires Sound(b.ledger) && settlement in b.states && sup > 0 && to != Pot(settlement) && to.currency == SUP
    ensures var r, st := PayOut(b, settlement, to, sup), b.states[settlement];
      && (r.Ok? <==> sup <= b.ledger.Balance(Pot(settlement)))
      && (r.Err? ==> r == Err(NotPosted(InsufficientFunds)))
      && (r.Ok? ==>
            && Sound(r.value.ledger)
            && r.value == b.(ledger := r.value.ledger,
                             states := b.states[settlement := st.(released := st.released + sup)])
            && forall a :: r.value.ledger.Balance(a) == b.ledger.Balance(a)
                 + (if a == Pot(settlement) then -sup else if a == to then sup else 0))
  {
    hide Post, Sound;
    MoveEffect(b.ledger, Pot(settlement), to, sup);
  }

  /** A withdrawal is carried out exactly when the money is chartered and the pot holds that much above its
      basis; the treasury receives it. */
  lemma WithdrawEffect(b: Books, settlement: string, sup: int)
    requires Sound(b.ledger) && (settlement in b.states ==> b.states[settlement].basis >= 0)
    ensures var r, pot := Withdraw(b, settlement, sup), Pot(settlement);
      if !IsChartered(b, settlement) then r == Err(NoMoney)
      else if sup <= 0 || sup > b.ledger.Balance(pot) - b.states[settlement].basis then r == Err(NoExcess)
      else
        && r.Ok?
        && forall a :: r.value.ledger.Balance(a) == b.ledger.Balance(a)
             + (if a == pot then -sup else if a == Treasury(settlement) then sup else 0)
  {
    hide Post, Sound, PayOut;
    if IsChartered(b, settlement) && sup > 0 {
      PayOutEffect(b, settlement, Treasury(settlement), sup);
    }
  }

  /** The floor is the greatest amount up to its share of the basis. */
  lemma FloorIsItsShare(basis: int, floorBPS: int, sup: int)
    ensures sup <= PotFloor(basis, floorBPS) <==> sup * BPS <= basis * floorBPS
  {
    DivAtLeast(basis * floorBPS, BPS, sup);
  }

  /** Exactly what the head may take: with what the period already took, no more than the cap's share of the
      pot as it was, and never below the floor. */
  lemma BudgetIsTheMost(pot: int, basis: int, used: int, capBPS: int, floorBPS: int, sup: int)
    requires sup > 0 && 0 <= pot + used && 0 <= capBPS && (pot + used) * capBPS <= MAX64
    ensures sup <= BuyBudget(pot, basis, used, capBPS, floorBPS)
      <==> (used + sup) * BPS <= (pot + used) * capBPS && pot - sup >= PotFloor(basis, floorBPS)
  {
    hide PotFloor;
    Scales(0, pot + used, capBPS);
    DivAtLeast((pot + used) * capBPS, BPS, used + sup);
    DivAtLeast((pot + used) * capBPS, BPS, 0);
    ShareOf((pot + used) * capBPS, 1);
    MulDivDivides(pot + used, capBPS, BPS);
  }

  /** A purchase of the head: refused without chartered money or budget; otherwise its escrow leaves the pot
      for the settlement's account on the book, and is counted. */
  lemma InterveneEffect(b: Books, settlement: string, sup: int, used: int, capBPS: int, floorBPS: int)
    requires Sound(b.ledger) && (settlement in b.states ==> PotFloor(b.states[settlement].basis, floorBPS) >= 0)
    ensures var r, pot := Intervene(b, settlement, sup, used, capBPS, floorBPS), Pot(settlement);
      if !IsChartered(b, settlement) then r == Err(NoMoney)
      else
        var st := b.states[settlement];
        var budget := BuyBudget(b.ledger.Balance(pot), st.basis, used, capBPS, floorBPS);
        if sup <= 0 || sup > budget then r == Err(OverBudget)
        else
          && r.Ok?
          && r.value == b.(ledger := r.value.ledger,
                           states := b.states[settlement := st.(interventionOut := st.interventionOut + sup)])
          && forall a :: r.value.ledger.Balance(a) == b.ledger.Balance(a)
               + (if a == pot then -sup else if a == BookEscrow(settlement) then sup else 0)
  {
    hide Post, Sound, PotFloor, ShareOrNothing;
    if IsChartered(b, settlement) && sup > 0 {
      MoveEffect(b.ledger, Pot(settlement), BookEscrow(settlement), sup);
    }
  }

  /** What the book pays back: the payer's escrow covers the payment and the fee, the pot gets the payment,
      whoever is due the fee gets that, and the payment is counted. */
  lemma ReturnEffect(b: Books, settlement: string, escrow: Account, sup: int, fee: int, support: Account)
    requires Sound(b.ledger) && settlement in b.states && FromTheBook(escrow, sup, fee, support)
    requires b.ledger.Balance(escrow) >= sup + fee
    ensures var r, st := ReturnToPot(b, settlement, escrow, sup, fee, support), b.states[settlement];
      && r.Ok?
      && r.value == b.(ledger := r.value.ledger,
                       states := b.states[settlement := st.(interventionIn := st.interventionIn + sup)])
      && forall a :: r.value.ledger.Balance(a) == b.ledger.Balance(a)
           + (if a == escrow then -(sup + fee) else if a == Pot(settlement) then sup
              else if a == support then fee else 0)
  {
    hide Sound;
    var legs := ReturnLegs(settlement, escrow, sup, fee, support);
    if fee > 0 {
      assert legs == [Leg(escrow, -(sup + fee)), Leg(Pot(settlement), sup)] + [Leg(support, fee)];
      ThreeLegsPost(b.ledger, legs[0], legs[1], legs[2]);
    } else {
      MoveEffect(b.ledger, escrow, Pot(settlement), sup);
    }
  }

  lemma ThreeLegsPost(l: Ledger, x: Leg, y: Leg, z: Leg)
    requires Sound(l) && x.amount < 0 < y.amount && 0 < z.amount && x.amount + y.amount + z.amount == 0
    requires x.account.currency == y.account.currency == z.account.currency
    requires x.account != y.account && x.account != z.account && y.account != z.account
    requires l.Balance(x.account) >= -x.amount && !y.account.kind.SystemSource? && !z.account.kind.SystemSource?
    ensures var r := Post(l, [x, y] + [z]);
      && r.Posted?
      && forall a :: r.ledger.Balance(a) == l.Balance(a)
           + (if a == x.account then x.amount else if a == y.account then y.amount
              else if a == z.account then z.amount else 0)
  {
    hide Sound;
    var legs := [x, y] + [z];
    var after := Ledger(l.entries + legs, Apply(l.balances, legs));
    forall a: Account
      ensures after.Balance(a) == l.Balance(a)
        + (if a == x.account then x.amount else if a == y.account then y.amount
           else if a == z.account then z.amount else 0)
      ensures Sum(legs) == 0
    {
      ApplyAdds(l.balances, legs, a);
      ThreeLegs(x, y, z, a);
    }
    ThreeLegs(x, y, z, x.account);
    NobodyOverdrawn(l, y.account);
    NobodyOverdrawn(l, z.account);
    assert !Overdrawn(after, legs);
  }

  /** A burn of the treasury's units: refused without chartered money, without the units, or for a row already
      on record; otherwise the units go to the money's sink. */
  lemma TreasuryBurnEffect(b: Books, settlement: string, units: int, ref: Ref)
    requires Sound(b.ledger)
    ensures var r := TreasuryBurn(b, settlement, units, ref);
      if settlement !in b.states then r == Err(NoMoney)
      else if !b.states[settlement].status.Chartered? then r == Err(Winding)
      else
        var st := b.states[settlement];
        var holding := TreasuryHolding(settlement, st.code);
        if units <= 0 || units > b.ledger.Balance(holding) then r == Err(NoUnits)
        else if ref in b.burns then r == Err(AlreadyLogged)
        else
          && r.Ok? && r.value.states[settlement].burnt == st.burnt + units
          && ref in r.value.burns && r.value.burns[ref].units == units
          && forall a :: r.value.ledger.Balance(a) == b.ledger.Balance(a)
               + (if a == holding then -units else if a == Sink(st.code) then units else 0)
  {
    hide Sound, Burn, BurnBasis;
    if IsChartered(b, settlement) {
      var st := b.states[settlement];
      var holding := TreasuryHolding(settlement, st.code);
      if 0 < units <= b.ledger.Balance(holding) {
        BurnEffect(b, settlement, st, holding, units, ref);
      }
    }
  }

  /** The budget is never negative, whatever the period already took. */
  lemma BudgetIsNatural(pot: int, basis: int, used: int, capBPS: int, floorBPS: int)
    ensures BuyBudget(pot, basis, used, capBPS, floorBPS) >= 0
    ensures MulDiv(pot + used, capBPS, BPS).Overflow? && used >= 0 ==>
      BuyBudget(pot, basis, used, capBPS, floorBPS) == 0
  {
  }

  /** Chartered money begins to wind down, and nothing else about it changes; other money does not. */
  lemma BeginWindDownEffect(b: Books, settlement: string)
    ensures settlement in b.states && b.states[settlement].status == Chartered ==>
      BeginWindDown(b, settlement) == b.(states := b.states[settlement := b.states[settlement].(status := WindDown)])
    ensures !(settlement in b.states && b.states[settlement].status == Chartered) ==> BeginWindDown(b, settlement) == b
  {
  }

  /** The reference rate moves until the money is retired, the desk's fee at any time; neither touches anything
      else. */
  lemma RateAndFeeMove(b: Books, settlement: string, v: int)
    ensures settlement in b.states ==>
      && SetDeskFee(b, settlement, v) == b.(states := b.states[settlement := b.states[settlement].(feeBPS := v)])
      && MoveRate(b, settlement, v) ==
         if b.states[settlement].status == Retired then b
         else b.(states := b.states[settlement := b.states[settlement].(xRefPPM := v)])
    ensures settlement !in b.states ==> SetDeskFee(b, settlement, v) == b && MoveRate(b, settlement, v) == b
  {
  }
}
