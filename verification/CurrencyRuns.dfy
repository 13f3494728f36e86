/** Whole runs of a settlement's money: any operations in any order, from empty books. */
module CurrencyRuns {
  import opened Rates
  import opened Ledgers
  import opened Currency
  import opened CurrencyReserve
  import opened CurrencyInvariant
  import opened CurrencyReserveInvariant

  datatype Step =
    | DoCharter(settlement: string, r0: int, fee: int, deposit: int, mintFeeBPS: int)
    | DoAutoCharter(rules: Rules, settlement: string, atFounding: bool)
    | DoMintMore(settlement: string, depositor: string, deposit: int, mintFeeBPS: int)
    | DoWithdraw(settlement: string, sup: int)
    | DoIntervene(settlement: string, sup: int, used: int, capBPS: int, floorBPS: int)
    | DoReturn(settlement: string, escrow: Account, sup: int, fee: int, support: Account)
    | DoTreasuryBurn(settlement: string, units: int, ref: Ref)
    | DoBeginWindDown(settlement: string)
    | DoClaim(settlement: string, player: string, ref: Ref)
    | DoFinishWindDown(settlement: string)
    | DoMoveRate(settlement: string, xRefPPM: int)
    | DoSetFee(settlement: string, feeBPS: int)
    | DoDesk(settlement: string, player: string, side: Side, amount: int, minOut: int)
    | DoPay(payment: LocalPayment)
    | DoBurn(burn: LocalBurn)
    | DoPost(legs: seq<Leg>)   // any other balanced transaction among ordinary accounts

  function First<A, B>(r: Result<(A, B)>, otherwise: A): A {
    match r
    case Ok(pair) => pair.0
    case Err(_) => otherwise
  }

  function Only<A>(r: Result<A>, otherwise: A): A {
    match r
    case Ok(a) => a
    case Err(_) => otherwise
  }

  /** One step of a run; a failed transaction is rolled back and changes nothing. */
  ghost function After(b: Books, codes: map<string, string>, floor: int, step: Step): Books {
    match step
    case DoCharter(s, r0, fee, deposit, mintFee) => First(Charter(b, codes, s, r0, fee, deposit, mintFee), b)
    case DoAutoCharter(rules, s, founding) => First(AutoCharter(b, codes, rules, s, founding), b)
    case DoMintMore(s, depositor, deposit, mintFee) => Only(MintMore(b, s, depositor, deposit, mintFee), b)
    case DoWithdraw(s, sup) => Only(Withdraw(b, s, sup), b)
    case DoIntervene(s, sup, used, cap, floorBPS) =>
      if floor <= floorBPS then Only(Intervene(b, s, sup, used, cap, floorBPS), b) else b
    case DoReturn(s, escrow, sup, fee, support) =>
      if s in b.states && FromTheBook(escrow, sup, fee, support) then
        Only(ReturnToPot(b, s, escrow, sup, fee, support), b)
      else b
    case DoTreasuryBurn(s, units, ref) => Only(TreasuryBurn(b, s, units, ref), b)
    case DoBeginWindDown(s) => BeginWindDown(b, s)
    case DoClaim(s, player, ref) => Only(ClaimPot(b, s, player, ref), b)
    case DoFinishWindDown(s) => Only(FinishWindDown(b, s), b)
    case DoMoveRate(s, xRefPPM) => MoveRate(b, s, xRefPPM)
    case DoSetFee(s, feeBPS) => SetDeskFee(b, s, feeBPS)
    case DoDesk(s, player, side, amount, minOut) =>
      if IsChartered(b, s) then First(Desk(b, s, b.states[s], player, side, amount, minOut), b) else b
    case DoPay(p) => First(PayLocal(b, p), b)
    case DoBurn(q) => First(BurnLocal(b, q), b)
    case DoPost(legs) =>
      if forall leg | leg in legs :: Ordinary(codes, leg.account) then Only(PostTo(b, legs), b) else b
  }

  ghost function Run(b: Books, codes: map<string, string>, floor: int, steps: seq<Step>): Books {
    if steps == [] then b else After(Run(b, codes, floor, steps[..|steps| - 1]), codes, floor, steps[|steps| - 1])
  }

  lemma StepKeepsInv(b: Books, codes: map<string, string>, floor: int, step: Step)
    requires Inv(b, codes, floor)
    ensures Inv(After(b, codes, floor, step), codes, floor)
  {
    hide Inv, Charter, AutoCharter, MintMore, Withdraw, Desk, PayLocal, BurnLocal, PostTo, Ordinary,
      Intervene, ReturnToPot, TreasuryBurn, ClaimPot, FinishWindDown, FromTheBook;
    match step
    case DoCharter(s, r0, fee, deposit, mintFee) =>
      if Charter(b, codes, s, r0, fee, deposit, mintFee).Ok? {
        CharterKeepsInv(b, codes, floor, s, r0, fee, deposit, mintFee);
      }
    case DoAutoCharter(rules, s, founding) =>
      if AutoCharter(b, codes, rules, s, founding).Ok? { AutoCharterKeepsInv(b, codes, floor, rules, s, founding); }
    case DoMintMore(s, depositor, deposit, mintFee) =>
      if MintMore(b, s, depositor, deposit, mintFee).Ok? {
        MintMoreKeepsInv(b, codes, floor, s, depositor, deposit, mintFee);
      }
    case DoWithdraw(s, sup) =>
      if Withdraw(b, s, sup).Ok? { WithdrawKeepsInv(b, codes, floor, s, sup); }
    case DoIntervene(s, sup, used, cap, floorBPS) =>
      if floor <= floorBPS && Intervene(b, s, sup, used, cap, floorBPS).Ok? {
        InterveneKeepsInv(b, codes, floor, s, sup, used, cap, floorBPS);
      }
    case DoReturn(s, escrow, sup, fee, support) =>
      if s in b.states && FromTheBook(escrow, sup, fee, support) && ReturnToPot(b, s, escrow, sup, fee, support).Ok? {
        ReturnToPotKeepsInv(b, codes, floor, s, escrow, sup, fee, support);
      }
    case DoTreasuryBurn(s, units, ref) =>
      if TreasuryBurn(b, s, units, ref).Ok? { TreasuryBurnKeepsInv(b, codes, floor, s, units, ref); }
    case DoBeginWindDown(s) =>
      if IsChartered(b, s) { QuietRowKeepsInv(b, codes, floor, s, b.states[s].(status := WindDown)); }
    case DoClaim(s, player, ref) =>
      if ClaimPot(b, s, player, ref).Ok? { ClaimKeepsInv(b, codes, floor, s, player, ref); }
    case DoFinishWindDown(s) =>
      if FinishWindDown(b, s).Ok? { FinishKeepsInv(b, codes, floor, s); }
    case DoMoveRate(s, xRefPPM) =>
      if s in b.states && !b.states[s].status.Retired? {
        QuietRowKeepsInv(b, codes, floor, s, b.states[s].(xRefPPM := xRefPPM));
      }
    case DoSetFee(s, feeBPS) =>
      if s in b.states { QuietRowKeepsInv(b, codes, floor, s, b.states[s].(feeBPS := feeBPS)); }
    case DoDesk(s, player, side, amount, minOut) =>
      if IsChartered(b, s) && Desk(b, s, b.states[s], player, side, amount, minOut).Ok? {
        DeskKeepsInv(b, codes, floor, s, b.states[s], player, side, amount, minOut);
      }
    case DoPay(p) =>
      if PayLocal(b, p).Ok? { PayLocalKeepsInv(b, codes, floor, p); }
    case DoBurn(q) =>
      if BurnLocal(b, q).Ok? { BurnLocalKeepsInv(b, codes, floor, q); }
    case DoPost(legs) =>
      if PostTo(b, legs).Ok? && forall leg | leg in legs :: Ordinary(codes, leg.account) {
        OrdinaryPostKeepsInv(b, codes, floor, legs);
      }
  }

  const NO_BOOKS := Books(Ledger([], map[]), map[], map[], map[])

  lemma {:induction false} RunKeepsInv(codes: map<string, string>, floor: int, steps: seq<Step>)
    requires Reserved(codes) && 0 <= floor <= BPS
    ensures Inv(Run(NO_BOOKS, codes, floor, steps), codes, floor)
    decreases |steps|
  {
    if steps != [] {
      RunKeepsInv(codes, floor, steps[..|steps| - 1]);
      StepKeepsInv(Run(NO_BOOKS, codes, floor, steps[..|steps| - 1]), codes, floor, steps[|steps| - 1]);
    }
  }

  /** After any run from empty books: every currency's ledger sums to zero; of every currency ever
      chartered the accounts outside the system hold exactly the supply, which is never negative; the
      reserve pot holds what the counters say; and while the money is chartered, the pot covers the share
      of the basis that every purchase of the head had to leave: the whole basis when that share is all. */
  lemma {:induction false} MoneyAddsUp(codes: map<string, string>, floor: int, steps: seq<Step>, settlement: string,
                                       accounts: seq<Account>)
    requires Reserved(codes) && 0 <= floor <= BPS && settlement in Run(NO_BOOKS, codes, floor, steps).states
    requires var b := Run(NO_BOOKS, codes, floor, steps); Roll(b.ledger.entries, b.states[settlement].code, accounts)
    ensures var b := Run(NO_BOOKS, codes, floor, steps); var st := b.states[settlement];
      && (forall c :: CurrencySum(b.ledger.entries, c) == 0)
      && Holdings(b.ledger, accounts) == st.Supply() >= 0
      && b.ledger.Balance(Pot(settlement)) == st.PotSUP() >= 0 && st.basis >= 0
      && (st.status.Chartered? ==> PotFloor(st.basis, floor) <= st.PotSUP())
      && (st.status.Chartered? && floor == BPS ==> st.basis <= st.PotSUP())
  {
    RunKeepsInv(codes, floor, steps);
    var b := Run(NO_BOOKS, codes, floor, steps);
    SupplyIsHeld(b, codes, floor, settlement);
    HoldingsOutside(b.ledger, b.states[settlement].code, accounts);
    QuotientIs(b.states[settlement].basis * BPS, BPS, b.states[settlement].basis);
  }
}
