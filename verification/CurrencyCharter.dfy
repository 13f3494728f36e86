/** Chartering a settlement's money and paying in it: exactly which accounts move, and when nothing does. */
module CurrencyCharter {
  import opened Rates
  import opened Ledgers
  import opened Currency
  import opened CurrencyInvariant
  import opened CurrencyOffer

  // ----- a charter

  function ChargedFee(fee: int): int { if fee > 0 then fee else 0 }

  /** How far a charter moves an account. */
  function CharterMoves(settlement: string, code: string, fee: int, deposit: int, units: int, a: Account): int {
    if a == Treasury(settlement) then -ChargedFee(fee) - deposit
    else if a == Sink(SUP) then ChargedFee(fee)
    else if a == Pot(settlement) then deposit
    else if a == Source(code) then -units
    else if a == TreasuryHolding(settlement, code) then units
    else 0
  }

  /** The row a charter leaves: what it minted, and the deposit that backs it. */
  function CharteredRow(code: string, r0: int, deposit: int, m: Minted): State
    requires m.Minted?
  {
    State(code, Chartered, r0, PPM, m.units, 0, m.basisSUP, deposit, 0, 0, 0, DEFAULT_DESK_FEE)
  }

  lemma FeeEffect(b: Books, settlement: string, fee: int)
    requires Sound(b.ledger)
    ensures var r := ChargeFee(b, settlement, fee);
      && (r.Ok? <==> b.ledger.Balance(Treasury(settlement)) >= ChargedFee(fee))
      && (r.Err? ==> r == Err(NotPosted(InsufficientFunds)))
      && (r.Ok? ==>
            && Sound(r.value.ledger) && r.value == b.(ledger := r.value.ledger)
            && forall a :: r.value.ledger.Balance(a) == b.ledger.Balance(a)
                 + (if a == Treasury(settlement) then -ChargedFee(fee)
                    else if a == Sink(SUP) then ChargedFee(fee) else 0))
  {
    hide Post, Sound;
    if fee > 0 {
      MoveEffect(b.ledger, Treasury(settlement), Sink(SUP), fee);
    } else {
      assert b.ledger.Balance(Treasury(settlement)) >= 0 by { NobodyOverdrawn(b.ledger, Treasury(settlement)); }
    }
  }

  lemma IssueEffect(b: Books, settlement: string, code: string, deposit: int, m: Minted)
    requires Sound(b.ledger) && settlement in b.states && deposit > 0 && m.Minted? && m.units > 0
    ensures var r := Issue(b, settlement, Treasury(settlement), TreasuryHolding(settlement, code), deposit, m);
      && (r.Ok? <==> b.ledger.Balance(Treasury(settlement)) >= deposit)
      && (r.Err? ==> r == Err(NotPosted(InsufficientFunds)))
      && (r.Ok? ==>
            && Sound(r.value.ledger) && r.value == RecordMint(b, settlement, deposit, m).(ledger := r.value.ledger)
            && forall a ::
              r.value.ledger.Balance(a) == b.ledger.Balance(a) + CharterMoves(settlement, code, 0, deposit, m.units, a))
  {
    hide Post, Sound;
    var treasury, pot := Treasury(settlement), Pot(settlement);
    MoveEffect(b.ledger, treasury, pot, deposit);
    if b.ledger.Balance(treasury) >= deposit {
      MoveEffect(PostTo(b, Move(treasury, pot, deposit)).value.ledger, Source(code), TreasuryHolding(settlement, code),
                 m.units);
    }
  }

  /** A first charter is issued exactly when its deposit buys a unit and the treasury covers the fee and
      the deposit together; then these accounts move, this row appears, and nothing else changes. */
  lemma CharterEffect(b: Books, reservations: map<string, string>, settlement: string, r0: int, fee: int, deposit: int,
                      mintFeeBPS: int)
    requires Sound(b.ledger) && settlement !in b.states && settlement in reservations
    ensures var r := Charter(b, reservations, settlement, r0, fee, deposit, mintFeeBPS);
            var m, code := Mint(deposit, Rates.Rate(r0, PPM), mintFeeBPS), reservations[settlement];
      if m.BadRate? || m.units <= 0 then r == Err(BadDeposit)
      else if b.ledger.Balance(Treasury(settlement)) < ChargedFee(fee) + deposit then
        r == Err(NotPosted(InsufficientFunds))
      else
        && r.Ok? && r.value.1 == Issued(m.units) && deposit > 0
        && (forall a ::
          r.value.0.ledger.Balance(a) == b.ledger.Balance(a) + CharterMoves(settlement, code, fee, deposit, m.units, a))
        && r.value.0 == b.(ledger := r.value.0.ledger,
                           states := b.states[settlement := CharteredRow(code, r0, deposit, m)])
  {
    hide Post, Sound, Mint, ChargeFee, Issue;
    var m, code := Mint(deposit, Rates.Rate(r0, PPM), mintFeeBPS), reservations[settlement];
    if m.Minted? && m.units > 0 {
      MintedUnits(deposit, Rates.Rate(r0, PPM), mintFeeBPS);
      var started := Opened(b, settlement, code, r0);
      FeeEffect(started, settlement, fee);
      if ChargeFee(started, settlement, fee).Ok? {
        IssueEffect(ChargeFee(started, settlement, fee).value, settlement, code, deposit, m);
      }
    }
  }

  /** Whoever asks again, for whatever terms, finds it chartered and writes nothing. */
  lemma CharterHappensOnce(b: Books, reservations: map<string, string>, settlement: string, r0: int, fee: int,
                           deposit: int, mintFeeBPS: int,
                           r0': int, fee': int, deposit': int, mintFeeBPS': int)
    requires Sound(b.ledger) && Charter(b, reservations, settlement, r0, fee, deposit, mintFeeBPS).Ok?
    requires Charter(b, reservations, settlement, r0, fee, deposit, mintFeeBPS).value.1.Issued?
    ensures var after := Charter(b, reservations, settlement, r0, fee, deposit, mintFeeBPS).value.0;
      Charter(after, reservations, settlement, r0', fee', deposit', mintFeeBPS') == Ok((after, AlreadyChartered))
  {
    hide Mint, Sound, ChargeFee, Issue;
    CharterEffect(b, reservations, settlement, r0, fee, deposit, mintFeeBPS);
  }

  /** An automatic charter never asks for more than the treasury holds: it is issued, or declined with
      nothing written, or its deposit buys no unit. Outside a founding it leaves the treasury its share. */
  lemma AutoCharterIsAffordable(b: Books, reservations: map<string, string>, rules: Rules, settlement: string,
                                atFounding: bool)
    requires Sound(b.ledger) && rules.terms.shareBPS <= BPS
    ensures var r := AutoCharter(b, reservations, rules, settlement, atFounding);
            var held := b.ledger.Balance(Treasury(settlement));
      && (r.Err? ==> r == Err(BadDeposit))
      && (r.Ok? && !r.value.1.Issued? ==> r.value.0 == b)
      && (r.Ok? && r.value.1.Issued? ==>
            var spent := held - r.value.0.ledger.Balance(Treasury(settlement));
            && rules.terms.fee < spent <= held
            && spent - rules.terms.fee <= rules.terms.minDeposit
            && (!atFounding ==> (spent - rules.terms.fee) * BPS <= (held - rules.terms.fee) * rules.terms.shareBPS))
  {
    hide Charter, Sound, Mint;
    var held := b.ledger.Balance(Treasury(settlement));
    var plan := PlanAuto(held, rules.terms, atFounding);
    if rules.Enabled() && settlement !in b.states && settlement in reservations && plan.CharterPlan? {
      PlanIsAffordable(held, rules.terms, atFounding);
      CharterEffect(b, reservations, settlement, rules.charterR0, plan.fee, plan.deposit, rules.mintFeeBPS);
      PlanKeepsTheShare(held, rules.terms);
    }
  }

  /** When an automatic charter is declined, and for what; and that at a founding whose treasury covers both,
      the fee and the minimum are spent in full. */
  lemma AutoCharterDecides(b: Books, reservations: map<string, string>, rules: Rules, settlement: string,
                           atFounding: bool)
    requires Sound(b.ledger) && 0 <= rules.terms.shareBPS <= BPS && b.ledger.Balance(Treasury(settlement)) <= MAX64
    ensures var r, t := AutoCharter(b, reservations, rules, settlement, atFounding), rules.terms;
            var held := b.ledger.Balance(Treasury(settlement));
            var worthIt := PaysInFull(held, t, atFounding)
              || (MayCharter(held, t) && exists d | d > 0 && d >= t.floor :: WithinShare(held, t, d));
      if rules.charterR0 <= 0 || t.fee < 0 || t.minDeposit <= 0 then r == Ok((b, Disabled))
      else if settlement in b.states then r == Ok((b, AlreadyChartered))
      else if settlement !in reservations then r == Ok((b, NoReservation))
      else if !worthIt then r == Ok((b, Unaffordable))
      else
        && r != Ok((b, Unaffordable))
        && (r.Ok? ==>
              var spent := held - r.value.0.ledger.Balance(Treasury(settlement));
              && r.value.1.Issued?
              && (PaysInFull(held, t, atFounding) ==> spent == t.fee + t.minDeposit)
              && (!PaysInFull(held, t, atFounding) ==>
                    spent - t.fee >= t.floor && WithinShare(held, t, spent - t.fee)
                    && !WithinShare(held, t, spent - t.fee + 1)))
  {
    hide Charter, Sound, Mint, PlanAuto, WithinShare;
    var held, t := b.ledger.Balance(Treasury(settlement)), rules.terms;
    NobodyOverdrawn(b.ledger, Treasury(settlement));
    var plan := PlanAuto(held, t, atFounding);
    PlanOrNone(held, t, atFounding);
    if rules.Enabled() && settlement !in b.states && settlement in reservations && plan.CharterPlan? {
      CharterEffect(b, reservations, settlement, rules.charterR0, plan.fee, plan.deposit, rules.mintFeeBPS);
      PlanIsAffordable(held, t, atFounding);
    }
  }

  /** A charter is planned exactly when some deposit is worth it; and then for the most. */
  lemma PlanOrNone(held: int, t: Terms, atFounding: bool)
    requires held <= MAX64 && 0 <= t.shareBPS <= BPS
    ensures var plan := PlanAuto(held, t, atFounding);
      && (plan.CharterPlan? <==>
            PaysInFull(held, t, atFounding)
            || (MayCharter(held, t) && exists d | d > 0 && d >= t.floor :: WithinShare(held, t, d)))
      && (plan.CharterPlan? ==> plan.fee == t.fee)
      && (PaysInFull(held, t, atFounding) ==> plan.deposit == t.minDeposit)
      && (plan.CharterPlan? && !PaysInFull(held, t, atFounding) ==>
            plan.deposit >= t.floor && WithinShare(held, t, plan.deposit) && !WithinShare(held, t, plan.deposit + 1))
  {
    hide PlanAuto, WithinShare;
    var plan := PlanAuto(held, t, atFounding);
    forall d
      ensures plan.CharterPlan? && !PaysInFull(held, t, atFounding) ==>
        (d <= plan.deposit <==> WithinShare(held, t, d)) && plan.deposit >= t.floor
      ensures plan.NoPlan? && MayCharter(held, t) && WithinShare(held, t, d) ==> d < t.floor || d <= 0
    {
      PlanIsTheMost(held, t, atFounding, d);
    }
    PlanIsTheMost(held, t, atFounding, 0);
    if plan.CharterPlan? {
      PlanIsAffordable(held, t, atFounding);
      assert PaysInFull(held, t, atFounding) || WithinShare(held, t, plan.deposit);
    }
  }

  lemma PlanKeepsTheShare(treasury: int, t: Terms)
    ensures var plan := PlanAuto(treasury, t, false);
      plan.CharterPlan? ==> plan.deposit * BPS <= (treasury - t.fee) * t.shareBPS
  {
    if MulDiv(treasury - t.fee, t.shareBPS, BPS).Quotient? {
      MulDivBounds(treasury - t.fee, t.shareBPS, BPS);
    }
  }

  // ----- a sale back to the desk

  /** Units sold back: paid exactly when they come to some SUP, at least what the seller asked, and the
      seller has the units and the treasury the SUP; the first of these that fails is the reason. */
  lemma SaleOutcome(b: Books, settlement: string, st: State, player: string, units: int, minOut: int)
    requires Sound(b.ledger) && units > 0
    ensures var r := Desk(b, settlement, st, player, Sell, units, minOut);
            var (sup, fee) := DeskSell(units, st.Rate(), st.feeBPS);
            var holding, stock := PlayerHolding(player, st.code), TreasuryHolding(settlement, st.code);
      if sup <= 0 then r == Err(NoDeal)
      else if sup < minOut then r == Err(PriceMoved)
      else if b.ledger.Balance(holding) < units then r == Err(PayerShort)
      else if b.ledger.Balance(Treasury(settlement)) < sup then r == Err(TreasuryShort)
      else
        && r.Ok? && r.value.1 == Quote(sup, units, fee) && r.value.0 == b.(ledger := r.value.0.ledger)
        && forall a :: r.value.0.ledger.Balance(a) == b.ledger.Balance(a)
             + (if a == Treasury(settlement) then -sup else if a == Cash(player) then sup
                else if a == holding then -units else if a == stock then units else 0)
  {
    hide Post, Sound, DeskSell;
    var (sup, _) := DeskSell(units, st.Rate(), st.feeBPS);
    var treasury, cash := Treasury(settlement), Cash(player);
    if sup > 0 && b.ledger.Balance(treasury) >= sup {
      MoveEffect(b.ledger, treasury, cash, sup);
      MoveEffect(PostTo(b, Move(treasury, cash, sup)).value.ledger, PlayerHolding(player, st.code),
                 TreasuryHolding(settlement, st.code), units);
    }
  }

  // ----- a payment

  /** How far a payment of `units` moves an account. */
  function PaymentMoves(p: LocalPayment, code: string, units: int, a: Account): int {
    var treasury, player := TreasuryHolding(p.settlement, code), PlayerHolding(p.player, code);
    match p.direction
    case Pay => if a == treasury then -units else if a == player then units else 0
    case Collect => if a == player then -units else if a == treasury then units else 0
    case Transfer =>
      if a == player then -units
      else if a == PlayerHolding(p.payee, code) then units - CutOf(units, p.cutBPS)
      else if a == treasury then CutOf(units, p.cutBPS)
      else 0
  }

  /** The treasury's cut is the greatest whole number of units up to its share of the transfer; a share of
      everything or more, or of nothing or less, takes none. */
  lemma CutIsItsShare(units: int, cutBPS: int, cut: int)
    requires units > 0
    ensures 0 < cutBPS < BPS ==> (cut <= CutOf(units, cutBPS) <==> cut * BPS <= units * cutBPS)
    ensures cutBPS <= 0 || cutBPS >= BPS ==> CutOf(units, cutBPS) == 0
  {
    DivAtLeast(units * cutBPS, BPS, cut);
    DivAtLeast(units * cutBPS, BPS, units);
    Scales(cutBPS, BPS, units);
    Scales(BPS, cutBPS, units);
  }

  /** The treasury's cut of a transfer is part of it, never all of it. */
  lemma CutIsAPart(units: int, cutBPS: int)
    requires units > 0
    ensures 0 <= CutOf(units, cutBPS) < units
  {
    if cutBPS > 0 {
      Scales(0, units, cutBPS);
      DivAtLeast(units * cutBPS, BPS, 0);
    }
  }

  lemma CutTransferEffect(l: Ledger, p: LocalPayment, code: string, units: int)
    requires Sound(l) && p.direction.Transfer? && p.payee != p.player && units > 0 && CutOf(units, p.cutBPS) > 0
    requires l.Balance(PlayerHolding(p.player, code)) >= units
    ensures var r := Post(l, PaymentLegs(p, code, units));
      r.Posted? && Sound(r.ledger) && forall a :: r.ledger.Balance(a) == l.Balance(a) + PaymentMoves(p, code, units, a)
  {
    hide Sound;
    CutIsAPart(units, p.cutBPS);
    var cut, legs := CutOf(units, p.cutBPS), PaymentLegs(p, code, units);
    var player, payee, treasury := PlayerHolding(p.player, code), PlayerHolding(p.payee, code),
                                   TreasuryHolding(p.settlement, code);
    assert legs == [Leg(player, -units), Leg(payee, units - cut)] + [Leg(treasury, cut)];
    forall a: Account
      ensures AccountSum(legs, a) == PaymentMoves(p, code, units, a) && Sum(legs) == 0
    {
      ThreeLegs(legs[0], legs[1], legs[2], a);
    }
    assert Sum(legs) == 0 by { ThreeLegs(legs[0], legs[1], legs[2], player); }
    var after := Ledger(l.entries + legs, Apply(l.balances, legs));
    forall a: Account
      ensures after.Balance(a) == l.Balance(a) + PaymentMoves(p, code, units, a)
      ensures !a.kind.SystemSource? ==> l.Balance(a) >= 0
    {
      ApplyAdds(l.balances, legs, a);
      if !a.kind.SystemSource? {
        NobodyOverdrawn(l, a);
      }
    }
    assert !Overdrawn(after, legs);
    PostKeepsSound(l, legs);
  }

  /** A payment the payer can cover moves exactly its units, cut included, and is on record. */
  lemma SettleEffect(b: Books, p: LocalPayment, code: string, units: int)
    requires Sound(b.ledger) && units > 0 && b.ledger.Balance(PayerOf(p, code)) >= units
    requires p.direction.Transfer? ==> p.payee != p.player
    ensures var r := Settle(b, p, code, units);
      && r.Ok? && Sound(r.value.ledger)
      && r.value == b.(ledger := r.value.ledger, payments := b.payments[(p.ref, p.direction) := units])
      && forall a :: r.value.ledger.Balance(a) == b.ledger.Balance(a) + PaymentMoves(p, code, units, a)
  {
    hide Post, Sound;
    var treasury, player := TreasuryHolding(p.settlement, code), PlayerHolding(p.player, code);
    match p.direction {
      case Pay => MoveEffect(b.ledger, treasury, player, units);
      case Collect => MoveEffect(b.ledger, player, treasury, units);
      case Transfer =>
        if CutOf(units, p.cutBPS) > 0 {
          CutTransferEffect(b.ledger, p, code, units);
        } else {
          CutIsAPart(units, p.cutBPS);
          WithoutCut(p, code, units);
          MoveEffect(b.ledger, player, PlayerHolding(p.payee, code), units);
        }
    }
  }

  lemma WithoutCut(p: LocalPayment, code: string, units: int)
    requires p.direction.Transfer? && CutOf(units, p.cutBPS) == 0
    ensures PaymentLegs(p, code, units) == Move(PlayerHolding(p.player, code), PlayerHolding(p.payee, code), units)
  {
  }

  /** Every outcome of a payment: left to be settled otherwise when it is incomplete, no money is chartered,
      it rounds to nothing, a transfer has no other payee, or the payer is short and may not or does not
      convert; repeated when on record; refused for the desk's reason; otherwise paid. */
  lemma PaymentOutcome(b: Books, p: LocalPayment)
    requires Sound(b.ledger)
    ensures var r := PayLocal(b, p);
      if p.sup <= 0 || p.player == "" || p.settlement == "" || !IsChartered(b, p.settlement) then r == Ok((b, NOT_PAID))
      else if (p.ref, p.direction) in b.payments then r == Ok((b, Repeated(b.payments[(p.ref, p.direction)])))
      else
        var st := b.states[p.settlement];
        var units := ToLocalCeil(st.Rate(), p.sup);
        var held := b.ledger.Balance(if p.direction.Pay? then TreasuryHolding(p.settlement, st.code)
                                     else PlayerHolding(p.player, st.code));
        var short := units - held;
        if units <= 0 || (p.direction.Transfer? && p.payee in {"", p.player}) then r == Ok((b, NOT_PAID))
        else if short > 0 && (p.direction.Pay? || p.dryRun || !p.conversion.allowed) then r == Ok((b, NOT_PAID))
        else if short > 0 && Price(st, short) <= 0 then r == Err(NoDeal)
        else if short > 0 && !WithinLimit(Price(st, short), p.conversion) then r == Err(PriceMoved)
        else if short > 0 && b.ledger.Balance(Cash(p.player)) < Price(st, short) then r == Err(PayerShort)
        else if short > 0 && b.ledger.Balance(TreasuryHolding(p.settlement, st.code)) < Delivered(st, short) then
          r == Err(DeskEmpty)
        else
          && r.Ok? && r.value.1.paid && !r.value.1.already && r.value.1.units == units
          && r.value.1.converted == (short > 0)
          && (short > 0 ==> r.value.1.convertSUP == Price(st, short))
  {
    hide Post, Sound, ToLocalCeil, Fund, Settle, Conversions, PaymentMoves, DeskCost, DeskBuy, WithinLimit;
    if p.settlement in b.states {
      var st := b.states[p.settlement];
      var units := ToLocalCeil(st.Rate(), p.sup);
      var short := units - b.ledger.Balance(PayerOf(p, st.code));
      FundOutcome(b, p.settlement, st, p.player, short, p.conversion);
      if Fund(b, p.settlement, st, p.player, short, p.conversion).Ok? && !(short > 0 && p.direction.Pay?) && units > 0
         && (p.direction.Transfer? ==> p.payee != p.player)
      {
        var funded := Fund(b, p.settlement, st, p.player, short, p.conversion).value.0;
        PayerIsCovered(b, p, st, short, funded);
        SettleEffect(funded, p, st.code, units);
      }
    }
  }

  /** Every local payment: it moves nothing and writes nothing, or the conversion and the units named
      here, with its row; asked again for the same flow row it only reports them. A dry run writes
      nothing. */
  lemma {:induction false} PaymentEffect(b: Books, p: LocalPayment, after: Books, report: LocalResult,
                                         again: LocalPayment)
    requires Sound(b.ledger) && PayLocal(b, p) == Ok((after, report))
    requires again.ref == p.ref && again.direction == p.direction && again.settlement == p.settlement
    requires again.sup > 0 && again.player != ""
    ensures !report.paid || report.already || p.dryRun ==> after == b
    ensures report.paid && !report.already && !p.dryRun ==>
      var st := b.states[p.settlement]; var short := report.units - b.ledger.Balance(PayerOf(p, st.code));
      && report.units == ToLocalCeil(st.Rate(), p.sup) > 0
      && report.converted == (short > 0)
      && after == b.(ledger := after.ledger, payments := b.payments[(p.ref, p.direction) := report.units])
      && (forall a :: after.ledger.Balance(a) == b.ledger.Balance(a) + Conversions(p.settlement, st, p.player, short, a)
                      + PaymentMoves(p, st.code, report.units, a))
      && PayLocal(after, again) == Ok((after, Repeated(report.units)))
  {
    hide Post, Sound, ToLocalCeil, Fund, Settle, Conversions, PaymentMoves;
    if report.paid && !report.already {
      var st := b.states[p.settlement];
      var units := ToLocalCeil(st.Rate(), p.sup);
      var short := units - b.ledger.Balance(PayerOf(p, st.code));
      FundOutcome(b, p.settlement, st, p.player, short, p.conversion);
      ConversionsCover(p.settlement, st, p.player, short);
      if !p.dryRun {
        var funded := Fund(b, p.settlement, st, p.player, short, p.conversion).value.0;
        PayerIsCovered(b, p, st, short, funded);
        SettleEffect(funded, p, st.code, units);
      }
    }
  }

  lemma PayerIsCovered(b: Books, p: LocalPayment, st: State, short: int, funded: Books)
    requires forall a ::
      funded.ledger.Balance(a) == b.ledger.Balance(a) + Conversions(p.settlement, st, p.player, short, a)
    requires short > 0 ==> p.direction != Pay && Price(st, short) > 0
    ensures funded.ledger.Balance(PayerOf(p, st.code)) >= b.ledger.Balance(PayerOf(p, st.code)) + short || short <= 0
    ensures short <= 0 ==> funded.ledger.Balance(PayerOf(p, st.code)) == b.ledger.Balance(PayerOf(p, st.code))
  {
    ConversionsCover(p.settlement, st, p.player, short);
  }
}
