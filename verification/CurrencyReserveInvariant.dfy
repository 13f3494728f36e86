/** What the operations on a settlement's reserve keep. */
module CurrencyReserveInvariant {
  import opened Rates
  import opened Ledgers
  import opened Currency
  import opened CurrencyReserve
  import opened CurrencyInvariant

  lemma MintMoreKeepsInv(b: Books, codes: map<string, string>, floor: int, settlement: string, depositor: string,
                         deposit: int, mintFeeBPS: int)
    requires Inv(b, codes, floor) && MintMore(b, settlement, depositor, deposit, mintFeeBPS).Ok?
    ensures Inv(MintMore(b, settlement, depositor, deposit, mintFeeBPS).value, codes, floor)
  {
    hide Issue, Mint, ToLocalCeil;
    var st := b.states[settlement];
    var m := Mint(deposit, st.Rate(), mintFeeBPS);
    assert SUP !in codes.Values;
    MintIsBacked(deposit, st.Rate(), mintFeeBPS);
    SupplyIsHeld(b, codes, floor, settlement);
    if depositor == "" {
      IssueKeepsInv(b, codes, floor, settlement, Treasury(settlement), TreasuryHolding(settlement, st.code), deposit,
                    m);
    } else {
      IssueKeepsInv(b, codes, floor, settlement, Cash(depositor), PlayerHolding(depositor, st.code), deposit, m);
    }
  }

  // ----- out of the pot for good

  lemma PotShifts(l: Ledger, codes: map<string, string>, settlement: string, to: Account, sup: int)
    requires Reserved(codes) && settlement in codes && Sound(l)
    requires forall s | s in codes :: OneSourceOneSink(l.entries, codes[s])
    requires sup > 0 && Ordinary(codes, to) && to.currency == SUP && Post(l, Move(Pot(settlement), to, sup)).Posted?
    ensures Shifted(l, Post(l, Move(Pot(settlement), to, sup)).ledger, codes, settlement, 0, 0, -sup)
  {
    CodesDiffer(codes, settlement);
    MoveShifts(l, codes, settlement, Pot(settlement), to, sup, 0, 0, -sup);
  }

  /** SUP may leave the pot as long as the money is not chartered, or its floor is kept. */
  lemma PayOutKeepsInv(b: Books, codes: map<string, string>, floor: int, settlement: string, to: Account, sup: int)
    requires Inv(b, codes, floor) && settlement in b.states && sup > 0 && Ordinary(codes, to) && to.currency == SUP
    requires PayOut(b, settlement, to, sup).Ok?
    requires var st := b.states[settlement]; st.status.Chartered? ==> PotFloor(st.basis, floor) <= st.PotSUP() - sup
    ensures Inv(PayOut(b, settlement, to, sup).value, codes, floor)
  {
    hide Shifted, Sound, OneSourceOneSink, PotFloor, Post, Source, Sink, Pot, Ordinary;
    PotShifts(b.ledger, codes, settlement, to, sup);
    var after := PayOut(b, settlement, to, sup).value;
    ReleasedReconciles(b, codes, floor, settlement, sup, after.ledger);
    RowFollowsAccounts(b, after, codes, floor, settlement, 0, 0, -sup);
  }

  lemma ReleasedReconciles(b: Books, codes: map<string, string>, floor: int, settlement: string, sup: int,
                           after: Ledger)
    requires Inv(b, codes, floor) && settlement in b.states
    requires Shifted(b.ledger, after, codes, settlement, 0, 0, -sup)
    requires var st := b.states[settlement]; st.status.Chartered? ==> PotFloor(st.basis, floor) <= st.PotSUP() - sup
    ensures var st := b.states[settlement]; Reconciled(after, settlement, st.(released := st.released + sup), floor)
  {
    hide Sound, OneSourceOneSink, PotFloor, Source, Sink, Pot;
  }

  /** A withdrawal takes only excess, so the pot still covers the basis. */
  lemma WithdrawKeepsInv(b: Books, codes: map<string, string>, floor: int, settlement: string, sup: int)
    requires Inv(b, codes, floor) && Withdraw(b, settlement, sup).Ok?
    ensures Inv(Withdraw(b, settlement, sup).value, codes, floor)
    ensures var st := Withdraw(b, settlement, sup).value.states[settlement]; st.basis <= st.PotSUP()
  {
    hide PotFloor;
    var basis := b.states[settlement].basis;
    FloorFollowsBasis(basis, basis, floor);
    PayOutKeepsInv(b, codes, floor, settlement, Treasury(settlement), sup);
  }

  // ----- to the book and back

  /** The budget never lets the pot fall below the floor it was computed with, nor below any lower one. */
  lemma BudgetKeepsTheFloor(pot: int, basis: int, used: int, capBPS: int, floorBPS: int, floor: int, sup: int)
    requires 0 <= floor <= floorBPS && basis >= 0 && 0 < sup <= BuyBudget(pot, basis, used, capBPS, floorBPS)
    ensures PotFloor(basis, floor) <= pot - sup
  {
    hide ShareOrNothing;
    Scales(floor, floorBPS, basis);
    DivGrows(basis * floor, basis * floorBPS, BPS);
  }

  lemma InterveneKeepsInv(b: Books, codes: map<string, string>, floor: int, settlement: string, sup: int, used: int,
                          capBPS: int, floorBPS: int)
    requires Inv(b, codes, floor) && floor <= floorBPS && Intervene(b, settlement, sup, used, capBPS, floorBPS).Ok?
    ensures Inv(Intervene(b, settlement, sup, used, capBPS, floorBPS).value, codes, floor)
  {
    hide Shifted, Sound, OneSourceOneSink, PotFloor, Post, Source, Sink, Pot, BuyBudget;
    var st := b.states[settlement];
    BudgetKeepsTheFloor(st.PotSUP(), st.basis, used, capBPS, floorBPS, floor, sup);
    PotShifts(b.ledger, codes, settlement, BookEscrow(settlement), sup);
    var after := Intervene(b, settlement, sup, used, capBPS, floorBPS).value;
    FlowReconciles(b, codes, floor, settlement, sup, 0, after.ledger);
    RowFollowsAccounts(b, after, codes, floor, settlement, 0, 0, -sup);
  }

  lemma FlowReconciles(b: Books, codes: map<string, string>, floor: int, settlement: string, out: int, back: int,
                       after: Ledger)
    requires Inv(b, codes, floor) && settlement in b.states
    requires Shifted(b.ledger, after, codes, settlement, 0, 0, back - out)
    requires var st := b.states[settlement];
      st.status.Chartered? ==> PotFloor(st.basis, floor) <= st.PotSUP() - out + back
    ensures var st := b.states[settlement];
      var row := st.(interventionOut := st.interventionOut + out, interventionIn := st.interventionIn + back);
      Reconciled(after, settlement, row, floor)
  {
    hide Sound, OneSourceOneSink, PotFloor, Source, Sink, Pot;
  }

  ghost predicate FromTheBook(escrow: Account, sup: int, fee: int, support: Account) {
    && sup > 0 && fee >= 0
    && escrow.kind == ESCROW && escrow.currency == SUP && support.kind.CityTreasury? && support.currency == SUP
  }

  lemma FeeReturnShifts(l: Ledger, codes: map<string, string>, settlement: string, escrow: Account, sup: int, fee: int,
                        support: Account)
    requires Reserved(codes) && settlement in codes && Sound(l)
    requires forall s | s in codes :: OneSourceOneSink(l.entries, codes[s])
    requires FromTheBook(escrow, sup, fee, support) && fee > 0
    requires Post(l, ReturnLegs(settlement, escrow, sup, fee, support)).Posted?
    ensures Shifted(l, Post(l, ReturnLegs(settlement, escrow, sup, fee, support)).ledger, codes, settlement, 0, 0, sup)
  {
    hide Post, Sound;
    var legs := ReturnLegs(settlement, escrow, sup, fee, support);
    PostKeepsSound(l, legs);
    forall a: Account
      ensures Post(l, legs).ledger.Balance(a) == l.Balance(a) + (if a == escrow then -(sup + fee) else 0)
        + (if a == Pot(settlement) then sup else 0) + (if a == support then fee else 0)
    {
      PostMoves(l, legs, a);
      ThreeLegs(Leg(escrow, -(sup + fee)), Leg(Pot(settlement), sup), Leg(support, fee), a);
    }
    PostAppends(l, legs);
    forall s | s in codes
      ensures OneSourceOneSink(Post(l, legs).ledger.entries, codes[s])
    {
      EntriesStayOnSystem(l.entries, legs, codes[s]);
    }
  }

  lemma PostAppends(l: Ledger, legs: seq<Leg>)
    requires Post(l, legs).Posted?
    ensures Post(l, legs).ledger.entries == l.entries + legs
  {
  }

  lemma ReturnShifts(l: Ledger, codes: map<string, string>, settlement: string, escrow: Account, sup: int, fee: int,
                     support: Account)
    requires Reserved(codes) && settlement in codes && Sound(l)
    requires forall s | s in codes :: OneSourceOneSink(l.entries, codes[s])
    requires FromTheBook(escrow, sup, fee, support)
    requires Post(l, ReturnLegs(settlement, escrow, sup, fee, support)).Posted?
    ensures Shifted(l, Post(l, ReturnLegs(settlement, escrow, sup, fee, support)).ledger, codes, settlement, 0, 0, sup)
  {
    hide Post, Sound, Shifted;
    CodesDiffer(codes, settlement);
    if fee > 0 {
      FeeReturnShifts(l, codes, settlement, escrow, sup, fee, support);
    } else {
      MoveShifts(l, codes, settlement, escrow, Pot(settlement), sup, 0, 0, sup);
    }
  }

  lemma ReturnToPotKeepsInv(b: Books, codes: map<string, string>, floor: int, settlement: string, escrow: Account,
                            sup: int, fee: int,
                            support: Account)
    requires Inv(b, codes, floor) && settlement in b.states && FromTheBook(escrow, sup, fee, support)
    requires ReturnToPot(b, settlement, escrow, sup, fee, support).Ok?
    ensures Inv(ReturnToPot(b, settlement, escrow, sup, fee, support).value, codes, floor)
  {
    hide Shifted, Sound, OneSourceOneSink, PotFloor, Post, Source, Sink, Pot, ReturnLegs, FromTheBook;
    ReturnShifts(b.ledger, codes, settlement, escrow, sup, fee, support);
    var after := ReturnToPot(b, settlement, escrow, sup, fee, support).value;
    assert sup > 0 by { FromTheBookIsSome(escrow, sup, fee, support); }
    FlowReconciles(b, codes, floor, settlement, 0, sup, after.ledger);
    RowFollowsAccounts(b, after, codes, floor, settlement, 0, 0, sup);
  }

  lemma FromTheBookIsSome(escrow: Account, sup: int, fee: int, support: Account)
    requires FromTheBook(escrow, sup, fee, support)
    ensures sup > 0
  {
  }

  // ----- burning, and winding down

  lemma TreasuryBurnKeepsInv(b: Books, codes: map<string, string>, floor: int, settlement: string, units: int, ref: Ref)
    requires Inv(b, codes, floor) && TreasuryBurn(b, settlement, units, ref).Ok?
    ensures Inv(TreasuryBurn(b, settlement, units, ref).value, codes, floor)
  {
    hide Burn, Sound, OneSourceOneSink, Reconciled;
    BurnKeepsInv(b, codes, floor, settlement, TreasuryHolding(settlement, b.states[settlement].code), units, ref);
  }

  /** A row that changes neither its counters nor its code, and is not chartered unless it was, stays reconciled. */
  lemma QuietRowKeepsInv(b: Books, codes: map<string, string>, floor: int, settlement: string, row: State)
    requires Inv(b, codes, floor) && settlement in b.states
    requires var st := b.states[settlement];
      && row == st.(status := row.status, xRefPPM := row.xRefPPM, feeBPS := row.feeBPS)
      && (row.status.Chartered? ==> st.status.Chartered?)
    ensures Inv(b.(states := b.states[settlement := row]), codes, floor)
  {
    hide Sound, OneSourceOneSink, PotFloor, Source, Sink, Pot;
    RowFollowsAccounts(b, b.(states := b.states[settlement := row]), codes, floor, settlement, 0, 0, 0);
  }

  lemma ClaimKeepsInv(b: Books, codes: map<string, string>, floor: int, settlement: string, player: string, ref: Ref)
    requires Inv(b, codes, floor) && ClaimPot(b, settlement, player, ref).Ok?
    ensures Inv(ClaimPot(b, settlement, player, ref).value, codes, floor)
  {
    hide Burn, Sound, OneSourceOneSink, Reconciled, PayOut, ClaimShare, Claimable;
    var st := b.states[settlement];
    var holding := PlayerHolding(player, st.code);
    var units := b.ledger.Balance(holding);
    var share := ClaimShare(b.ledger.Balance(Pot(settlement)), Claimable(b.ledger.entries, settlement, st.code), units);
    BurnKeepsInv(b, codes, floor, settlement, holding, units, ref);
    var burnt := Burn(b, settlement, st, holding, units, ref).value;
    if share > 0 {
      BurnKeepsStatus(b, settlement, holding, units, ref);
      PayOutKeepsInv(burnt, codes, floor, settlement, Cash(player), share);
    }
  }

  lemma BurnKeepsStatus(b: Books, settlement: string, holding: Account, units: int, ref: Ref)
    requires settlement in b.states && Burn(b, settlement, b.states[settlement], holding, units, ref).Ok?
    ensures var after := Burn(b, settlement, b.states[settlement], holding, units, ref).value;
      settlement in after.states && after.states[settlement].status == b.states[settlement].status
  {
  }

  lemma FinishKeepsInv(b: Books, codes: map<string, string>, floor: int, settlement: string)
    requires Inv(b, codes, floor) && FinishWindDown(b, settlement).Ok?
    ensures Inv(FinishWindDown(b, settlement).value, codes, floor)
  {
    hide Inv, PayOut;
    if settlement in b.states && b.states[settlement].status.WindDown? {
      var row := b.states[settlement].(status := Retired);
      QuietRowKeepsInv(b, codes, floor, settlement, row);
      var retired, left := b.(states := b.states[settlement := row]), b.ledger.Balance(Pot(settlement));
      if left > 0 {
        assert Ordinary(codes, Treasury(settlement));
        PayOutKeepsInv(retired, codes, floor, settlement, Treasury(settlement), left);
      }
    }
  }
}
