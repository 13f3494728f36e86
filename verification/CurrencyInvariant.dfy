/** What every operation of a settlement's money keeps, over whole runs. */
module CurrencyInvariant {
  import opened Rates
  import opened Ledgers
  import opened Currency
  import opened CurrencyReserve

  /** Each settlement reserved a code of its own, none of them the neutral currency's. */
  ghost predicate Reserved(codes: map<string, string>) {
    && (forall s | s in codes :: codes[s] != SUP)
    && (forall s, s' | s in codes && s' in codes && codes[s] == codes[s'] :: s == s')
  }

  /** The counter row of a currency against the ledger: what was minted left its source, what was burnt
      lies in its sink, the pot holds what it should, and, while the currency is chartered, never less
      than `floor` basis points of the backing basis. */
  ghost predicate Reconciled(l: Ledger, settlement: string, st: State, floor: int) {
    && l.Balance(Source(st.code)) == -st.minted
    && l.Balance(Sink(st.code)) == st.burnt
    && l.Balance(Pot(settlement)) == st.PotSUP()
    && 0 <= st.basis && (st.Supply() == 0 ==> st.basis == 0)
    && Backed(st, floor)
  }

  predicate Backed(st: State, floor: int) { st.status.Chartered? ==> PotFloor(st.basis, floor) <= st.PotSUP() }

  /** Before its charter a currency has not moved and its settlement has no reserve. */
  ghost predicate Unissued(l: Ledger, settlement: string, code: string) {
    l.Balance(Source(code)) == 0 && l.Balance(Sink(code)) == 0 && l.Balance(Pot(settlement)) == 0
  }

  ghost predicate Inv(b: Books, codes: map<string, string>, floor: int) {
    && Reserved(codes) && 0 <= floor <= BPS
    && Sound(b.ledger)
    && (forall s | s in b.states ::
          s in codes && b.states[s].code == codes[s] && Reconciled(b.ledger, s, b.states[s], floor))
    && (forall s | s in codes && s !in b.states :: Unissued(b.ledger, s, codes[s]))
    && (forall s | s in codes :: OneSourceOneSink(b.ledger.entries, codes[s]))
  }

  /** Neither a reserve pot nor a system account of a settlement's currency. */
  ghost predicate Ordinary(codes: map<string, string>, a: Account) {
    !a.kind.ReservePot? && !(a.System() && a.currency in codes.Values)
  }

  // ----- the accounts the counters watch

  lemma CodesAreValues(codes: map<string, string>, s: string)
    requires s in codes
    ensures codes[s] in codes.Values
  {
  }

  lemma EntriesStayOnSystem(entries: seq<Leg>, legs: seq<Leg>, code: string)
    requires OneSourceOneSink(entries, code) && OneSourceOneSink(legs, code)
    ensures OneSourceOneSink(entries + legs, code)
  {
  }

  /** Movements among ordinary accounts leave the counters and what they watch alone. */
  lemma OrdinaryPostKeepsInv(b: Books, codes: map<string, string>, floor: int, legs: seq<Leg>)
    requires Inv(b, codes, floor) && PostTo(b, legs).Ok?
    requires forall leg | leg in legs :: Ordinary(codes, leg.account)
    ensures Inv(PostTo(b, legs).value, codes, floor)
  {
    hide Sound, Ordinary, OneSourceOneSink, Source, Sink, Pot, Post;
    PostKeepsSound(b.ledger, legs);
    forall s | s in codes
      ensures Stays(b.ledger, PostTo(b, legs).value.ledger, s, codes[s])
    {
      WatchedAccountsStay(b, codes, legs, s);
    }
  }

  /** The accounts behind one settlement's counters did not move. */
  ghost predicate Stays(l: Ledger, after: Ledger, settlement: string, code: string) {
    && after.Balance(Source(code)) == l.Balance(Source(code))
    && after.Balance(Sink(code)) == l.Balance(Sink(code))
    && after.Balance(Pot(settlement)) == l.Balance(Pot(settlement))
    && OneSourceOneSink(after.entries, code)
  }

  lemma WatchedAccountsStay(b: Books, codes: map<string, string>, legs: seq<Leg>, s: string)
    requires s in codes && OneSourceOneSink(b.ledger.entries, codes[s]) && PostTo(b, legs).Ok?
    requires forall leg | leg in legs :: Ordinary(codes, leg.account)
    ensures Stays(b.ledger, PostTo(b, legs).value.ledger, s, codes[s])
  {
    CodesAreValues(codes, s);
    Unmoved(b, codes, legs, Source(codes[s]));
    Unmoved(b, codes, legs, Sink(codes[s]));
    Unmoved(b, codes, legs, Pot(s));
    EntriesStayOnSystem(b.ledger.entries, legs, codes[s]);
  }

  lemma Unmoved(b: Books, codes: map<string, string>, legs: seq<Leg>, a: Account)
    requires PostTo(b, legs).Ok? && !Ordinary(codes, a)
    requires forall leg | leg in legs :: Ordinary(codes, leg.account)
    ensures PostTo(b, legs).value.ledger.Balance(a) == b.ledger.Balance(a)
  {
    UntouchedSum(legs, a);
    PostMoves(b.ledger, legs, a);
  }

  lemma OrdinaryMoveKeepsInv(b: Books, codes: map<string, string>, floor: int, from: Account, to: Account, amount: int)
    requires Inv(b, codes, floor) && PostTo(b, Move(from, to, amount)).Ok?
    requires Ordinary(codes, from) && Ordinary(codes, to)
    ensures Inv(PostTo(b, Move(from, to, amount)).value, codes, floor)
  {
    OrdinaryPostKeepsInv(b, codes, floor, Move(from, to, amount));
  }

  // ----- how a settlement's own accounts move

  /** The three accounts behind one settlement's counters shifted by these amounts; every other
      settlement's stayed. */
  ghost predicate Shifted(l: Ledger, after: Ledger, codes: map<string, string>, settlement: string, source: int,
                          sink: int, pot: int) {
    && Sound(after)
    && (forall s | s in codes :: OneSourceOneSink(after.entries, codes[s]))
    && (forall s | s in codes ::
          && after.Balance(Source(codes[s])) == l.Balance(Source(codes[s])) + (if s == settlement then source else 0)
          && after.Balance(Sink(codes[s])) == l.Balance(Sink(codes[s])) + (if s == settlement then sink else 0)
          && after.Balance(Pot(s)) == l.Balance(Pot(s)) + (if s == settlement then pot else 0))
  }

  /** On an account of a settlement's currency, the system is only its source and its sink. */
  ghost predicate Placed(codes: map<string, string>, a: Account) {
    a.System() && a.currency in codes.Values ==> a == Source(a.currency) || a == Sink(a.currency)
  }

  lemma MoveShifts(l: Ledger, codes: map<string, string>, settlement: string, from: Account, to: Account, amount: int,
                   source: int, sink: int, pot: int)
    requires Sound(l) && amount > 0 && forall s | s in codes :: OneSourceOneSink(l.entries, codes[s])
    requires Placed(codes, from) && Placed(codes, to)
    requires from != to && from.currency == to.currency && Post(l, Move(from, to, amount)).Posted?
    requires forall s | s in codes ::
      && Delta(from, to, amount, Source(codes[s])) == (if s == settlement then source else 0)
      && Delta(from, to, amount, Sink(codes[s])) == (if s == settlement then sink else 0)
      && Delta(from, to, amount, Pot(s)) == (if s == settlement then pot else 0)
    ensures Shifted(l, Post(l, Move(from, to, amount)).ledger, codes, settlement, source, sink, pot)
  {
    hide Post, Sound;
    MoveEffect(l, from, to, amount);
    forall s | s in codes
      ensures OneSourceOneSink(Post(l, Move(from, to, amount)).ledger.entries, codes[s])
    {
      CodesAreValues(codes, s);
      EntriesStayOnSystem(l.entries, Move(from, to, amount), codes[s]);
    }
  }

  lemma ShiftsAdd(l: Ledger, mid: Ledger, after: Ledger, codes: map<string, string>, settlement: string,
                  source: int, sink: int, pot: int, source': int, sink': int, pot': int)
    requires Shifted(l, mid, codes, settlement, source, sink, pot)
    requires Shifted(mid, after, codes, settlement, source', sink', pot')
    ensures Shifted(l, after, codes, settlement, source + source', sink + sink', pot + pot')
  {
  }

  /** Codes, and the settlements that own them, are told apart. */
  lemma CodesDiffer(codes: map<string, string>, settlement: string)
    requires Reserved(codes) && settlement in codes
    ensures SUP !in codes.Values
    ensures forall s | s in codes ::
        codes[s] in codes.Values && codes[s] != SUP && (codes[s] == codes[settlement] <==> s == settlement)
  {
    forall s | s in codes
      ensures codes[s] in codes.Values
    {
      CodesAreValues(codes, s);
    }
  }

  function Delta(from: Account, to: Account, amount: int, a: Account): int {
    if a == to then amount else if a == from then -amount else 0
  }

  /** A settlement whose row moves with its accounts stays reconciled, and so do all the others. */
  lemma RowFollowsAccounts(b: Books, after: Books, codes: map<string, string>, floor: int, settlement: string,
                           source: int, sink: int, pot: int)
    requires Inv(b, codes, floor) && settlement in b.states
    requires Shifted(b.ledger, after.ledger, codes, settlement, source, sink, pot)
    requires after.states.Keys == b.states.Keys && after.states[settlement].code == b.states[settlement].code
    requires forall s | s in b.states && s != settlement :: after.states[s] == b.states[s]
    requires Reconciled(after.ledger, settlement, after.states[settlement], floor)
    ensures Inv(after, codes, floor)
  {
    hide Sound, OneSourceOneSink, Source, Sink, Pot;
    forall s | s in after.states
      ensures s in codes && after.states[s].code == codes[s] && Reconciled(after.ledger, s, after.states[s], floor)
    {
      assert s in b.states;
    }
  }

  // ----- the floor of the pot

  /** The floor never exceeds the basis, falls with it, and rises by no more than the basis does. */
  lemma FloorFollowsBasis(basis: int, basis': int, floor: int)
    requires 0 <= floor <= BPS && 0 <= basis <= basis'
    ensures 0 <= PotFloor(basis, floor) <= basis
    ensures PotFloor(basis, floor) <= PotFloor(basis', floor) <= PotFloor(basis, floor) + basis' - basis
  {
    ShareOf(basis, floor);
    Scales(basis, basis', floor);
    DivGrows(basis * floor, basis' * floor, BPS);
    Spread(basis, basis' - basis, floor);
    Scales(floor, BPS, basis' - basis);
    DivGrows(basis' * floor, basis * floor + (basis' - basis) * BPS, BPS);
    DivMod(basis * floor, BPS);
    Spread(basis * floor / BPS, basis' - basis, BPS);
    QuotientIs(basis * floor + (basis' - basis) * BPS, BPS, basis * floor / BPS + basis' - basis);
  }

  // ----- burning

  /** Destroying units of a holding and lowering the counters with them. */
  lemma {:induction false} BurnKeepsInv(b: Books, codes: map<string, string>, floor: int, settlement: string,
                                        holding: Account, burn: int, ref: Ref)
    requires Inv(b, codes, floor) && settlement in b.states && burn > 0
    requires Ordinary(codes, holding) && holding.currency == b.states[settlement].code
    requires Burn(b, settlement, b.states[settlement], holding, burn, ref).Ok?
    ensures Inv(Burn(b, settlement, b.states[settlement], holding, burn, ref).value, codes, floor)
  {
    hide Post, BurnBasis, RecordBurn, Shifted, Sound;
    var st := b.states[settlement];
    CodesDiffer(codes, settlement);
    MoveShifts(b.ledger, codes, settlement, holding, Sink(st.code), burn, 0, burn, 0);
    BurnTakesItsShare(st.basis, st.Supply(), burn);
    var burnt := PostTo(b, Move(holding, Sink(st.code), burn)).value;
    RecordedBurn(b, burnt, codes, floor, settlement, burn, BurnBasis(st.basis, st.Supply(), burn), ref);
  }

  lemma RecordedBurn(b: Books, burnt: Books, codes: map<string, string>, floor: int, settlement: string, burn: int,
                     share: int, ref: Ref)
    requires Inv(b, codes, floor) && settlement in b.states && burn > 0 && burnt.states == b.states
    requires Shifted(b.ledger, burnt.ledger, codes, settlement, 0, burn, 0)
    requires var st := b.states[settlement]; 0 <= share <= st.basis && (0 < st.Supply() <= burn ==> share == st.basis)
    ensures Inv(RecordBurn(burnt, settlement, burn, share, ref), codes, floor)
  {
    hide Sound, OneSourceOneSink, Source, Sink, Pot, PotFloor;
    var st := b.states[settlement];
    FloorFollowsBasis(st.basis - share, st.basis, floor);
    RowFollowsAccounts(b, RecordBurn(burnt, settlement, burn, share, ref), codes, floor, settlement, 0, burn, 0);
  }

  // ----- issuing

  /** A deposit into the pot, units out of the source, and the counters raised by both. */
  lemma IssueKeepsInv(b: Books, codes: map<string, string>, floor: int, settlement: string, from: Account, to: Account,
                      deposit: int, m: Minted)
    requires Inv(b, codes, floor) && settlement in b.states && deposit > 0
    requires m.Minted? && m.units > 0 && 0 <= m.basisSUP <= deposit
    requires b.states[settlement].Supply() >= 0
    requires Ordinary(codes, from) && from.currency == SUP && Ordinary(codes, to)
    requires to.currency == b.states[settlement].code
    requires Issue(b, settlement, from, to, deposit, m).Ok?
    ensures Inv(Issue(b, settlement, from, to, deposit, m).value, codes, floor)
  {
    hide Post, Sound, OneSourceOneSink, Shifted, RecordMint;
    var deposited := PostTo(b, Move(from, Pot(settlement), deposit)).value;
    var issued := PostTo(deposited, Move(Source(to.currency), to, m.units)).value;
    DepositShifts(b.ledger, codes, settlement, from, deposit);
    UnitsShift(deposited.ledger, codes, settlement, to, m.units);
    ShiftsAdd(b.ledger, deposited.ledger, issued.ledger, codes, settlement, 0, 0, deposit, -m.units, 0, 0);
    RecordedMint(b, issued, codes, floor, settlement, deposit, m);
  }

  lemma DepositShifts(l: Ledger, codes: map<string, string>, settlement: string, from: Account, deposit: int)
    requires Reserved(codes) && settlement in codes && Sound(l)
    requires forall s | s in codes :: OneSourceOneSink(l.entries, codes[s])
    requires deposit > 0 && Ordinary(codes, from) && from.currency == SUP
    requires Post(l, Move(from, Pot(settlement), deposit)).Posted?
    ensures Shifted(l, Post(l, Move(from, Pot(settlement), deposit)).ledger, codes, settlement, 0, 0, deposit)
  {
    CodesDiffer(codes, settlement);
    MoveShifts(l, codes, settlement, from, Pot(settlement), deposit, 0, 0, deposit);
  }

  lemma UnitsShift(l: Ledger, codes: map<string, string>, settlement: string, to: Account, units: int)
    requires Reserved(codes) && settlement in codes && Sound(l)
    requires forall s | s in codes :: OneSourceOneSink(l.entries, codes[s])
    requires units > 0 && Ordinary(codes, to) && to.currency == codes[settlement]
    requires Post(l, Move(Source(to.currency), to, units)).Posted?
    ensures Shifted(l, Post(l, Move(Source(to.currency), to, units)).ledger, codes, settlement, -units, 0, 0)
  {
    CodesDiffer(codes, settlement);
    MoveShifts(l, codes, settlement, Source(to.currency), to, units, -units, 0, 0);
  }

  lemma RecordedMint(b: Books, issued: Books, codes: map<string, string>, floor: int, settlement: string, deposit: int,
                     m: Minted)
    requires Inv(b, codes, floor) && settlement in b.states && issued.states == b.states
    requires m.Minted? && m.units > 0 && 0 <= m.basisSUP <= deposit && b.states[settlement].Supply() >= 0
    requires Shifted(b.ledger, issued.ledger, codes, settlement, -m.units, 0, deposit)
    ensures Inv(RecordMint(issued, settlement, deposit, m), codes, floor)
  {
    hide Sound, OneSourceOneSink, Source, Sink, Pot, PotFloor, Shifted;
    var after := RecordMint(issued, settlement, deposit, m);
    MintedReconciles(b, codes, floor, settlement, deposit, m, issued.ledger);
    assert Reconciled(after.ledger, settlement, after.states[settlement], floor);
    hide Reconciled;
    RowFollowsAccounts(b, after, codes, floor, settlement, -m.units, 0, deposit);
  }

  lemma MintedReconciles(b: Books, codes: map<string, string>, floor: int, settlement: string, deposit: int, m: Minted,
                         after: Ledger)
    requires Inv(b, codes, floor) && settlement in b.states
    requires m.Minted? && m.units > 0 && 0 <= m.basisSUP <= deposit && b.states[settlement].Supply() >= 0
    requires Shifted(b.ledger, after, codes, settlement, -m.units, 0, deposit)
    ensures var st := b.states[settlement];
      var row := st.(minted := st.minted + m.units, basis := st.basis + m.basisSUP,
                     deposited := st.deposited + deposit);
      Reconciled(after, settlement, row, floor)
  {
    hide Sound, OneSourceOneSink, Source, Sink, Pot, PotFloor;
    var st := b.states[settlement];
    FloorFollowsBasis(st.basis, st.basis + m.basisSUP, floor);
  }

  lemma MintedUnits(deposit: int, r: Rate, mintFeeBPS: int)
    requires Mint(deposit, r, mintFeeBPS).Minted? && Mint(deposit, r, mintFeeBPS).units > 0
    ensures deposit > 0
  {
    if deposit == 0 {
      assert deposit * (BPS - mintFeeBPS) == 0;
      MulDivBounds(0, r.Num(), Wrap(r.Den() * BPS));
      QuotientIs(0, Wrap(r.Den() * BPS), 0);
    }
  }

  /** The units held outside the system are never negative, so no more is burnt than was minted. */
  lemma SupplyIsHeld(b: Books, codes: map<string, string>, floor: int, settlement: string)
    requires Inv(b, codes, floor) && settlement in b.states
    ensures var st := b.states[settlement];
      && OutsideSum(b.ledger.entries, st.code) == st.Supply()
      && st.Supply() >= 0
  {
    var code := b.states[settlement].code;
    CurrencySplits(b.ledger.entries, code);
    assert b.ledger.Balance(Source(code)) == AccountSum(b.ledger.entries, Source(code));
    assert b.ledger.Balance(Sink(code)) == AccountSum(b.ledger.entries, Sink(code));
    var accounts := RollExists(b.ledger.entries, code);
    HoldingsOutside(b.ledger, code, accounts);
    HoldingsAreNatural(b.ledger, accounts);
  }

  lemma OpeningKeepsInv(b: Books, codes: map<string, string>, floor: int, settlement: string, r0: int)
    requires Inv(b, codes, floor) && settlement in codes && settlement !in b.states
    ensures var started := Opened(b, settlement, codes[settlement], r0);
      && Inv(started, codes, floor)
      && settlement in started.states
      && started.states[settlement].code == codes[settlement] && started.states[settlement].Supply() == 0
  {
    hide Sound, OneSourceOneSink, Unissued, Reconciled;
    var started := Opened(b, settlement, codes[settlement], r0);
    NewRowReconciles(b.ledger, settlement, codes[settlement], started.states[settlement], floor);
  }

  lemma NewRowReconciles(l: Ledger, settlement: string, code: string, st: State, floor: int)
    requires Unissued(l, settlement, code) && st.code == code
    requires st.minted == st.burnt == st.basis == st.PotSUP() == 0
    ensures Reconciled(l, settlement, st, floor)
  {
  }

  lemma ChargingKeepsInv(b: Books, codes: map<string, string>, floor: int, settlement: string, fee: int)
    requires Inv(b, codes, floor) && settlement in codes && ChargeFee(b, settlement, fee).Ok?
    ensures var charged := ChargeFee(b, settlement, fee).value;
      Inv(charged, codes, floor) && charged.states == b.states
  {
    CodesDiffer(codes, settlement);
    if fee > 0 {
      OrdinaryMoveKeepsInv(b, codes, floor, Treasury(settlement), Sink(SUP), fee);
    }
  }

  lemma CharterKeepsInv(b: Books, codes: map<string, string>, floor: int, settlement: string, r0: int, fee: int,
                        deposit: int, mintFeeBPS: int)
    requires Inv(b, codes, floor) && Charter(b, codes, settlement, r0, fee, deposit, mintFeeBPS).Ok?
    ensures Inv(Charter(b, codes, settlement, r0, fee, deposit, mintFeeBPS).value.0, codes, floor)
  {
    hide Issue, Mint, Opened, ChargeFee, Inv;
    var m := Mint(deposit, Rates.Rate(r0, PPM), mintFeeBPS);
    if settlement !in b.states && settlement in codes {
      var code := codes[settlement];
      var started := Opened(b, settlement, code, r0);
      OpeningKeepsInv(b, codes, floor, settlement, r0);
      ChargingKeepsInv(started, codes, floor, settlement, fee);
      var charged := ChargeFee(started, settlement, fee).value;
      MintIsBacked(deposit, Rates.Rate(r0, PPM), mintFeeBPS);
      MintedUnits(deposit, Rates.Rate(r0, PPM), mintFeeBPS);
      IssueKeepsInv(charged, codes, floor, settlement, Treasury(settlement), TreasuryHolding(settlement, code),
                    deposit, m);
    }
  }

  lemma AutoCharterKeepsInv(b: Books, codes: map<string, string>, floor: int, rules: Rules, settlement: string,
                            atFounding: bool)
    requires Inv(b, codes, floor) && AutoCharter(b, codes, rules, settlement, atFounding).Ok?
    ensures Inv(AutoCharter(b, codes, rules, settlement, atFounding).value.0, codes, floor)
  {
    if rules.Enabled() && settlement !in b.states && settlement in codes {
      var plan := PlanAuto(b.ledger.Balance(Treasury(settlement)), rules.terms, atFounding);
      if plan.CharterPlan? {
        CharterKeepsInv(b, codes, floor, settlement, rules.charterR0, plan.fee, plan.deposit, rules.mintFeeBPS);
      }
    }
  }

  // ----- spending

  lemma DeskKeepsInv(b: Books, codes: map<string, string>, floor: int, settlement: string, st: State, player: string,
                     side: Side, amount: int, minOut: int)
    requires Inv(b, codes, floor) && Desk(b, settlement, st, player, side, amount, minOut).Ok?
    ensures var after := Desk(b, settlement, st, player, side, amount, minOut).value.0;
      Inv(after, codes, floor) && after.states == b.states && after.burns == b.burns && after.payments == b.payments
  {
    hide Post, Inv, QuoteDesk;
    var q := QuoteDesk(st, side, amount);
    var units, cash := PlayerHolding(player, st.code), Cash(player);
    var stock, treasury := TreasuryHolding(settlement, st.code), Treasury(settlement);
    if side.Buy? {
      OrdinaryMoveKeepsInv(b, codes, floor, cash, treasury, q.sup);
      OrdinaryMoveKeepsInv(PostTo(b, Move(cash, treasury, q.sup)).value, codes, floor, stock, units, q.units);
    } else {
      OrdinaryMoveKeepsInv(b, codes, floor, treasury, cash, q.sup);
      OrdinaryMoveKeepsInv(PostTo(b, Move(treasury, cash, q.sup)).value, codes, floor, units, stock, q.units);
    }
  }

  lemma FundKeepsInv(b: Books, codes: map<string, string>, floor: int, settlement: string, st: State, player: string,
                     short: int, c: Conversion)
    requires Inv(b, codes, floor) && Fund(b, settlement, st, player, short, c).Ok?
    ensures var after := Fund(b, settlement, st, player, short, c).value.0;
      Inv(after, codes, floor) && after.states == b.states && after.burns == b.burns && after.payments == b.payments
  {
    hide Inv, Desk;
    if short > 0 {
      DeskKeepsInv(b, codes, floor, settlement, st, player, Buy, DeskCost(short, st.Rate(), st.feeBPS), short);
    }
  }

  lemma PaymentLegsAreOrdinary(codes: map<string, string>, p: LocalPayment, code: string, units: int)
    ensures forall leg | leg in PaymentLegs(p, code, units) :: Ordinary(codes, leg.account)
  {
  }

  lemma SettleKeepsInv(b: Books, codes: map<string, string>, floor: int, p: LocalPayment, code: string, units: int)
    requires Inv(b, codes, floor) && Settle(b, p, code, units).Ok?
    ensures var after := Settle(b, p, code, units).value;
      Inv(after, codes, floor) && after.states == b.states && after.burns == b.burns
  {
    PaymentLegsAreOrdinary(codes, p, code, units);
    OrdinaryPostKeepsInv(b, codes, floor, PaymentLegs(p, code, units));
  }

  lemma PayUnitsKeepsInv(b: Books, codes: map<string, string>, floor: int, p: LocalPayment, st: State, units: int)
    requires Inv(b, codes, floor) && PayUnits(b, p, st, units).Ok?
    ensures var after := PayUnits(b, p, st, units).value.0;
      Inv(after, codes, floor) && after.states == b.states && after.burns == b.burns
  {
    hide Fund, Settle, Inv;
    var short := units - b.ledger.Balance(PayerOf(p, st.code));
    if PayUnits(b, p, st, units).value.1.paid && !p.dryRun {
      FundKeepsInv(b, codes, floor, p.settlement, st, p.player, short, p.conversion);
      SettleKeepsInv(Fund(b, p.settlement, st, p.player, short, p.conversion).value.0, codes, floor, p, st.code, units);
    }
  }

  lemma PayLocalKeepsInv(b: Books, codes: map<string, string>, floor: int, p: LocalPayment)
    requires Inv(b, codes, floor) && PayLocal(b, p).Ok?
    ensures var after := PayLocal(b, p).value.0;
      Inv(after, codes, floor) && after.states == b.states && after.burns == b.burns
  {
    hide PayUnits, Inv, ToLocalCeil;
    if p.settlement in b.states {
      var st := b.states[p.settlement];
      var units := ToLocalCeil(st.Rate(), p.sup);
      if PayUnits(b, p, st, units).Ok? {
        PayUnitsKeepsInv(b, codes, floor, p, st, units);
      }
    }
  }

  lemma BurnUnitsKeepsInv(b: Books, codes: map<string, string>, floor: int, q: LocalBurn, burn: int, tax: int)
    requires Inv(b, codes, floor) && q.settlement in b.states && BurnUnits(b, q, b.states[q.settlement], burn, tax).Ok?
    ensures Inv(BurnUnits(b, q, b.states[q.settlement], burn, tax).value.0, codes, floor)
  {
    hide Fund, Burn, PayLocal, Inv;
    var st := b.states[q.settlement];
    if BurnUnits(b, q, st, burn, tax).value.1.paid {
      var holding := PlayerHolding(q.player, st.code);
      var short := ShortOf(burn, tax, b.ledger.Balance(holding));
      FundKeepsInv(b, codes, floor, q.settlement, st, q.player, short, q.conversion);
      var funded := Fund(b, q.settlement, st, q.player, short, q.conversion).value.0;
      BurnKeepsInv(funded, codes, floor, q.settlement, holding, burn, q.ref);
      if tax > 0 {
        PayLocalKeepsInv(Burn(funded, q.settlement, st, holding, burn, q.ref).value, codes, floor, TaxPayment(q));
      }
    }
  }

  lemma BurnLocalKeepsInv(b: Books, codes: map<string, string>, floor: int, q: LocalBurn)
    requires Inv(b, codes, floor) && BurnLocal(b, q).Ok?
    ensures Inv(BurnLocal(b, q).value.0, codes, floor)
  {
    hide BurnUnits, Inv, ToLocalCeil;
    if IsChartered(b, q.settlement) {
      var st := b.states[q.settlement];
      var burn, tax := ToLocalCeil(st.Rate(), q.sup), TaxUnits(st, q.taxSUP);
      if BurnUnits(b, q, st, burn, tax).Ok? {
        BurnUnitsKeepsInv(b, codes, floor, q, burn, tax);
      }
    }
  }
}
