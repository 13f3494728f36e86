/** Winding a settlement's money down: what a claim and the end of it move, and how far the order of the
    claims matters. */
module CurrencyWindDown {
  import opened Rates
  import opened Ledgers
  import opened Currency
  import opened CurrencyReserve
  import opened CurrencyInvariant
  import opened CurrencyOffer

  // ----- fairness

  /** Claims never take more than the pot, and the last units take all of it. */
  lemma SharesAreWithinThePot(pot: int, claimable: int, units: int)
    requires 0 <= pot <= MAX64 && 0 < units <= claimable
    ensures 0 <= ClaimShare(pot, claimable, units) <= pot
    ensures ClaimShare(pot, claimable, units) == pot * units / claimable
    ensures units == claimable ==> ClaimShare(pot, claimable, units) == pot
  {
    Scales(0, units, pot);
    Scales(units, claimable, pot);
    DivAtLeast(pot * units, claimable, 0);
    DivGrows(pot * units, pot * claimable, claimable);
    QuotientIs(pot * claimable, claimable, pot);
  }

  lemma Commutes(a: int, b: int, c: int)
    ensures a * b * c == a * c * b && a * (b * c) == a * b * c
  {
  }

  lemma Minus(a: int, b: int, k: int)
    ensures (a - b) * k == a * k - b * k && k * (a - b) == k * a - k * b
  {
  }

  /** What another holder's claim leaves, per unit: between the old rate and a coin's rounding above it. */
  lemma RatePerUnit(pot: int, c: int, u: int, share: int)
    requires 0 < u < c && pot >= 0 && share == pot * u / c
    ensures pot * (c - u) <= (pot - share) * c < pot * (c - u) + c
  {
    DivMod(pot * u, c);
    Minus(pot, share, c);
    Minus(c, u, pot);
  }

  lemma Cancels(a: int, b: int, c: int)
    requires c > 0
    ensures a * c <= b * c ==> a <= b
    ensures a * c < b * c ==> a < b
  {
    Scales(b, a, c);
  }

  lemma NoLess(pot: int, c: int, d: int, v: int, left: int, q: int)
    requires c > 0 && d > 0 && v > 0 && q * c <= pot * v && pot * d <= left * c
    ensures q * d <= left * v
  {
    Scales(q * c, pot * v, d);
    Scales(pot * d, left * c, v);
    Commutes(pot, v, d);
    Commutes(left, c, v);
    Commutes(q, c, d);
    Cancels(q * d, left * v, c);
  }

  lemma NoMore(pot: int, c: int, d: int, v: int, left: int, q: int)
    requires c > 0 && 0 < v <= d && pot * v + 1 <= (q + 1) * c && left * c + 1 <= pot * d + c
    ensures left * v < (q + 2) * d
  {
    var more := q + 1;
    Scales(pot * v + 1, more * c, d);
    Spread(pot * v, 1, d);
    Scales(left * c + 1, pot * d + c, v);
    Spread(left * c, 1, v);
    Spread(pot * d, c, v);
    Scales(v, d, c);
    Commutes(pot, v, d);
    Commutes(left, c, v);
    Commutes(more, c, d);
    Spread(more, 1, d);
    Spread(more * d, d, c);
    Cancels(left * v, (q + 2) * d, c);
  }

  lemma FairQuotient(pot: int, c: int, u: int, v: int, left: int)
    requires 0 < u && 0 < v <= c - u && pot >= 0 && left >= 0
    requires pot * (c - u) <= left * c < pot * (c - u) + c
    ensures pot * v / c <= left * v / (c - u) <= pot * v / c + 1
  {
    var d, q := c - u, pot * v / c;
    DivMod(pot * v, c);
    Spread(q, 1, c);
    NoLess(pot, c, d, v, left, q);
    NoMore(pot, c, d, v, left, q);
    DivAtLeast(left * v, d, q);
    DivAtLeast(left * v, d, q + 2);
  }

  /** A holder who claims after one other receives their share of the pot as it was, or one coin more from
      the other's rounding. */
  lemma OneClaimBefore(pot: int, claimable: int, first: int, second: int)
    requires 0 <= pot <= MAX64 && 0 < first && 0 < second && first + second <= claimable
    ensures var share := ClaimShare(pot, claimable, first);
            var later, before := ClaimShare(pot - share, claimable - first, second), ClaimShare(pot, claimable, second);
      before <= later <= before + 1
  {
    hide ClaimShare;
    var share := ClaimShare(pot, claimable, first);
    SharesAreWithinThePot(pot, claimable, first);
    SharesAreWithinThePot(pot, claimable, second);
    SharesAreWithinThePot(pot - share, claimable - first, second);
    RatePerUnit(pot, claimable, first, share);
    FairQuotient(pot, claimable, first, second, pot - share);
  }

  /** What is left to claim from, and the units left to claim with. */
  datatype Rest = Rest(pot: int, units: int)

  function AfterClaims(pot: int, claimable: int, claims: seq<int>): Rest {
    if claims == [] then Rest(pot, claimable)
    else
      var rest, units := AfterClaims(pot, claimable, claims[..|claims| - 1]), claims[|claims| - 1];
      Rest(rest.pot - ClaimShare(rest.pot, rest.units, units), rest.units - units)
  }

  function Total(claims: seq<int>): int {
    if claims == [] then 0 else Total(claims[..|claims| - 1]) + claims[|claims| - 1]
  }

  predicate Positive(claims: seq<int>) { forall i | 0 <= i < |claims| :: claims[i] > 0 }

  /** What a holder of `mine` units receives once these claims are paid. */
  function ShareAfter(pot: int, claimable: int, claims: seq<int>, mine: int): int {
    var rest := AfterClaims(pot, claimable, claims);
    ClaimShare(rest.pot, rest.units, mine)
  }

  /** Whoever claims before, in whatever order, nobody loses by it: a holder receives at least their share of
      the pot as it was, and at most one coin more for each claim paid before. */
  lemma {:induction false} ClaimsAreFair(pot: int, claimable: int, claims: seq<int>, mine: int)
    requires 0 <= pot <= MAX64 && Positive(claims) && mine > 0 && Total(claims) + mine <= claimable
    ensures var rest := AfterClaims(pot, claimable, claims);
      0 <= rest.pot <= pot && rest.units == claimable - Total(claims)
    ensures var fair := ClaimShare(pot, claimable, mine);
      fair <= ShareAfter(pot, claimable, claims, mine) <= fair + |claims|
    decreases |claims|
  {
    hide ClaimShare;
    if claims != [] {
      var n := |claims| - 1;
      ClaimsAreFair(pot, claimable, claims[..n], mine);
      var rest := AfterClaims(pot, claimable, claims[..n]);
      SharesAreWithinThePot(rest.pot, rest.units, claims[n]);
      OneClaimBefore(rest.pot, rest.units, claims[n], mine);
    }
  }

  /** The bound is met: of five units, holders of two and of one claim a pot of two coins first, and the
      holder of the last two receives both coins against an original share of none. */
  lemma TwoClaimsMayAddTwoCoins()
    ensures ShareAfter(2, 5, [2, 1], 2) == ClaimShare(2, 5, 2) + 2
  {
    assert [2, 1][..1] == [2] && [2, 1][..1][..0] == [];
    assert AfterClaims(2, 5, [2, 1][..1]) == Rest(2, 3);
    assert AfterClaims(2, 5, [2, 1]) == Rest(2, 2);
  }

  /** When everybody has claimed, nothing is left. */
  lemma EverybodyEmptiesThePot(pot: int, claimable: int, claims: seq<int>)
    requires 0 <= pot <= MAX64 && Positive(claims) && Total(claims) == claimable > 0
    ensures AfterClaims(pot, claimable, claims) == Rest(0, 0)
  {
    hide ClaimShare;
    var n := |claims| - 1;
    ClaimsAreFair(pot, claimable, claims[..n], claims[n]);
    var rest := AfterClaims(pot, claimable, claims[..n]);
    SharesAreWithinThePot(rest.pot, rest.units, claims[n]);
  }

  predicate SameShare(pot: int, claimable: int, claims: seq<int>, mine: int) {
    ShareAfter(pot, claimable, claims, mine) == ClaimShare(pot, claimable, mine)
  }

  /** Whatever claims come before, everybody receives their share of the pot as it was. */
  ghost predicate OrderIsNothing(pot: int, claimable: int) {
    forall claims, mine | Positive(claims) && mine > 0 && Total(claims) + mine <= claimable ::
      SameShare(pot, claimable, claims, mine)
  }

  /** The order of the claims makes no difference to anybody exactly when the pot is a whole number of coins
      per unit. */
  lemma OrderIsNothingToEvenPots(pot: int, claimable: int)
    requires 0 <= pot <= MAX64 && claimable > 0
    ensures OrderIsNothing(pot, claimable) <==> pot % claimable == 0
  {
    if pot % claimable == 0 {
      hide SameShare;
      DivMod(pot, claimable);
      forall claims, mine | Positive(claims) && mine > 0 && Total(claims) + mine <= claimable
        ensures SameShare(pot, claimable, claims, mine)
      {
        EvenPotsStayEven(pot, claimable, claims, mine, pot / claimable);
      }
    }
    if OrderIsNothing(pot, claimable) {
      OnlyEvenPots(pot, claimable);
    }
  }

  /** Units claimed one by one take the same coins each, and the last one takes the rest. */
  lemma OnlyEvenPots(pot: int, claimable: int)
    requires 0 <= pot <= MAX64 && claimable > 0 && OrderIsNothing(pot, claimable)
    ensures pot % claimable == 0
  {
    hide ClaimShare, AfterClaims;
    var k, q := claimable - 1, ClaimShare(pot, claimable, 1);
    OneByOne(pot, claimable, k);
    OnesAreOnes(k);
    assert SameShare(pot, claimable, Ones(k), 1);
    hide OrderIsNothing;
    SharesAreWithinThePot(pot - k * q, 1, 1);
    Spread(k, 1, q);
    WholeQuotient(q, claimable);
  }

  lemma WholeQuotient(q: int, d: int)
    requires d > 0
    ensures d * q % d == 0 && q * d / d == q
  {
    QuotientIs(q * d, d, q);
    DivMod(q * d, d);
  }

  lemma AfterOneMore(pot: int, claimable: int, claims: seq<int>)
    requires claims != []
    ensures var rest, units := AfterClaims(pot, claimable, claims[..|claims| - 1]), claims[|claims| - 1];
      var share := ClaimShare(rest.pot, rest.units, units);
      AfterClaims(pot, claimable, claims) == Rest(rest.pot - share, rest.units - units)
  {
  }

  lemma {:induction false} EvenPotsStayEven(pot: int, claimable: int, claims: seq<int>, mine: int, q: int)
    requires 0 <= pot <= MAX64 && pot == q * claimable
    requires Positive(claims) && mine > 0 && Total(claims) + mine <= claimable
    ensures var rest := AfterClaims(pot, claimable, claims);
      rest.pot == q * rest.units && SameShare(pot, claimable, claims, mine)
    decreases |claims|
  {
    var rest := AfterClaims(pot, claimable, claims);
    ClaimsAreFair(pot, claimable, claims, mine);
    if claims != [] {
      var n := |claims| - 1;
      EvenPotsStayEven(pot, claimable, claims[..n], mine, q);
      AfterOneMore(pot, claimable, claims);
      ClaimsAreFair(pot, claimable, claims[..n], mine);
      hide AfterClaims, ClaimShare;
      var before := AfterClaims(pot, claimable, claims[..n]);
      EvenShare(q, before.pot, before.units, claims[n]);
      Minus(before.units, claims[n], q);
    }
    hide AfterClaims, ClaimShare;
    TotalIsNatural(claims);
    EvenShare(q, rest.pot, rest.units, mine);
    EvenShare(q, pot, claimable, mine);
  }

  lemma EvenShare(q: int, pot: int, units: int, u: int)
    requires 0 <= pot <= MAX64 && pot == q * units && 0 < u <= units
    ensures ClaimShare(pot, units, u) == q * u
  {
    SharesAreWithinThePot(pot, units, u);
    Commutes(q, units, u);
    WholeQuotient(q * u, units);
  }

  function Ones(k: nat): seq<int> { if k == 0 then [] else Ones(k - 1) + [1] }

  lemma {:induction false} OnesAreOnes(k: nat)
    ensures |Ones(k)| == k && Positive(Ones(k)) && Total(Ones(k)) == k
  {
    if k > 0 {
      OnesAreOnes(k - 1);
      assert Ones(k)[..k - 1] == Ones(k - 1);
    }
  }

  /** If order makes no difference, units claimed one by one take the same coins each. */
  lemma {:induction false} OneByOne(pot: int, claimable: int, k: nat)
    requires 0 <= pot <= MAX64 && k < claimable
    requires OrderIsNothing(pot, claimable)
    ensures AfterClaims(pot, claimable, Ones(k)) == Rest(pot - k * ClaimShare(pot, claimable, 1), claimable - k)
    ensures 0 <= pot - k * ClaimShare(pot, claimable, 1) <= pot
  {
    hide ClaimShare;
    OnesAreOnes(k);
    ClaimsAreFair(pot, claimable, Ones(k), 1);
    if k > 0 {
      OneByOne(pot, claimable, k - 1);
      OnesAreOnes(k - 1);
      assert Ones(k)[..k - 1] == Ones(k - 1);
      assert SameShare(pot, claimable, Ones(k - 1), 1);
      Spread(k - 1, 1, ClaimShare(pot, claimable, 1));
    }
  }

  // ----- who may claim

  /** The accounts that may claim, each once, among those that ever moved the currency. */
  ghost predicate Claimants(legs: seq<Leg>, settlement: string, code: string, accounts: seq<Account>) {
    && (forall i, j | 0 <= i < j < |accounts| :: accounts[i] != accounts[j])
    && (forall a | a in accounts :: Claims(a, settlement, code))
    && (forall leg | leg in legs && Claims(leg.account, settlement, code) :: leg.account in accounts)
  }

  lemma ClaimantsExist(legs: seq<Leg>, settlement: string, code: string) returns (accounts: seq<Account>)
    ensures Claimants(legs, settlement, code, accounts)
    decreases |legs|
  {
    if legs == [] {
      accounts := [];
    } else {
      var last := legs[|legs| - 1];
      accounts := ClaimantsExist(legs[..|legs| - 1], settlement, code);
      assert legs == legs[..|legs| - 1] + [last];
      if Claims(last.account, settlement, code) && last.account !in accounts {
        accounts := accounts + [last.account];
      }
    }
  }

  lemma {:induction false} ClaimantsHoldAll(legs: seq<Leg>, settlement: string, code: string, accounts: seq<Account>)
    requires Claimants(legs, settlement, code, accounts)
    ensures EntryHoldings(legs, accounts) == Claimable(legs, settlement, code)
    decreases |legs|
  {
    if legs == [] {
      NoEntriesNoHoldings(accounts);
    } else {
      var rest := legs[..|legs| - 1];
      forall leg | leg in rest
        ensures leg in legs
      {
      }
      ClaimantsHoldAll(rest, settlement, code, accounts);
      OneEntryCountsOnce(legs, accounts);
      assert legs[|legs| - 1] in legs;
    }
  }

  lemma {:induction false} OneHoldingIsPart(l: Ledger, accounts: seq<Account>, a: Account)
    requires Solvent(l) && a in accounts && forall x | x in accounts :: !x.System()
    ensures 0 <= l.Balance(a) <= Holdings(l, accounts)
    decreases |accounts|
  {
    var n := |accounts| - 1;
    forall x | x in accounts[..n]
      ensures x in accounts
    {
    }
    HoldingsAreNatural(l, accounts[..n]);
    assert accounts[n] in accounts;
    if a != accounts[n] {
      OneHoldingIsPart(l, accounts[..n], a);
    }
  }

  /** No holder has more than all holders together, so no claim is turned away for that. */
  lemma HolderIsClaimant(l: Ledger, settlement: string, player: string, code: string)
    requires Sound(l) && l.Balance(PlayerHolding(player, code)) > 0
    ensures l.Balance(PlayerHolding(player, code)) <= Claimable(l.entries, settlement, code)
  {
    var holding := PlayerHolding(player, code);
    var accounts := ClaimantsExist(l.entries, settlement, code);
    ClaimantsHoldAll(l.entries, settlement, code, accounts);
    HoldingsAreEntries(l, accounts);
    assert l.Balance(holding) == AccountSum(l.entries, holding);
    if forall leg | leg in l.entries :: leg.account != holding {
      UntouchedSum(l.entries, holding);
    }
    OneHoldingIsPart(l, accounts, holding);
  }

  /** Units leaving the treasury for a holder can be claimed from then on; units between holders could be
      before; and no other money counts. */
  lemma HoldersUnitsCount(settlement: string, code: string, other: string, p: string, q: string, units: int)
    requires other != code
    ensures Claimable(Move(TreasuryHolding(settlement, code), PlayerHolding(p, code), units), settlement, code) == units
    ensures Claimable(Move(PlayerHolding(q, code), PlayerHolding(p, code), units), settlement, code) == 0
    ensures Claimable(Move(TreasuryHolding(settlement, other), PlayerHolding(p, other), units), settlement, code) == 0
    ensures Claimable(Move(Treasury(settlement), Cash(p), units), settlement, code) == 0
  {
    hide Claimable;
    MoveClaimable(TreasuryHolding(settlement, code), PlayerHolding(p, code), units, settlement, code);
    MoveClaimable(PlayerHolding(q, code), PlayerHolding(p, code), units, settlement, code);
    MoveClaimable(TreasuryHolding(settlement, other), PlayerHolding(p, other), units, settlement, code);
    MoveClaimable(Treasury(settlement), Cash(p), units, settlement, code);
  }

  /** Without claimable units, without any of them, or for more than all, there is no share. */
  lemma NoUnitsNoShare(pot: int, claimable: int, units: int)
    requires claimable <= 0 || units <= 0 || units > claimable
    ensures ClaimShare(pot, claimable, units) == 0
  {
  }

  /** A claim is refused for money that is not winding down, for a holder of nothing, and for a row on record. */
  lemma ClaimRefusals(b: Books, settlement: string, player: string, ref: Ref)
    requires Sound(b.ledger)
    ensures var r := ClaimPot(b, settlement, player, ref);
      if settlement !in b.states then r == Err(NoMoney)
      else if b.states[settlement].status != WindDown then r == Err(NotWinding)
      else if b.ledger.Balance(PlayerHolding(player, b.states[settlement].code)) <= 0 then r == Err(NothingToClaim)
      else ref in b.burns ==> r == Err(AlreadyLogged)
  {
    hide Burn, PayOut, ClaimShare, Claimable;
  }

  // ----- one claim

  /** A claim while the money winds down: all the holder's units are burnt, and the holder receives their share
      of the pot, rounded down; nothing else moves. */
  lemma ClaimEffect(b: Books, settlement: string, player: string, ref: Ref)
    requires Sound(b.ledger) && settlement in b.states && b.states[settlement].status.WindDown? && ref !in b.burns
    requires 0 < b.ledger.Balance(PlayerHolding(player, b.states[settlement].code))
    requires b.ledger.Balance(Pot(settlement)) <= MAX64
    ensures var r := ClaimPot(b, settlement, player, ref);
            var code := b.states[settlement].code;
            var holding, pot := PlayerHolding(player, code), Pot(settlement);
            var units, held := b.ledger.Balance(holding), b.ledger.Balance(pot);
            var claimable := Claimable(b.ledger.entries, settlement, code);
      && r.Ok? && units <= claimable
      && var share := held * units / claimable;
         forall a :: r.value.ledger.Balance(a) == b.ledger.Balance(a)
           + (if a == holding then -units else if a == Sink(code) then units
              else if a == pot then -share else if a == Cash(player) then share else 0)
  {
    hide Post, Sound, Burn, ClaimShare, Claimable, BurnBasis;
    var st := b.states[settlement];
    var holding, pot := PlayerHolding(player, st.code), Pot(settlement);
    var units, held := b.ledger.Balance(holding), b.ledger.Balance(pot);
    var claimable := Claimable(b.ledger.entries, settlement, st.code);
    HolderIsClaimant(b.ledger, settlement, player, st.code);
    NobodyOverdrawn(b.ledger, pot);
    SharesAreWithinThePot(held, claimable, units);
    BurnEffect(b, settlement, st, holding, units, ref);
    var burnt, share := Burn(b, settlement, st, holding, units, ref).value, ClaimShare(held, claimable, units);
    if share > 0 {
      MoveEffect(burnt.ledger, pot, Cash(player), share);
    }
  }

  lemma {:induction false} ClaimableAdds(a: seq<Leg>, b: seq<Leg>, settlement: string, code: string)
    ensures Claimable(a + b, settlement, code) == Claimable(a, settlement, code) + Claimable(b, settlement, code)
    decreases |b|
  {
    if b == [] {
      assert a + b == a;
    } else {
      ClaimableAdds(a, b[..|b| - 1], settlement, code);
      assert (a + b)[..|a + b| - 1] == a + b[..|b| - 1];
    }
  }

  lemma MoveClaimable(from: Account, to: Account, amount: int, settlement: string, code: string)
    ensures Claimable(Move(from, to, amount), settlement, code)
      == (if Claims(to, settlement, code) then amount else 0) - (if Claims(from, settlement, code) then amount else 0)
  {
    var legs := Move(from, to, amount);
    assert legs[..1] == [legs[0]] && legs[..1][..0] == [];
    assert Claimable(legs[..1], settlement, code) == if Claims(from, settlement, code) then -amount else 0;
  }

  /** After a claim the money still winds down, with that many units fewer to claim with. */
  lemma ClaimLeaves(b: Books, settlement: string, player: string, ref: Ref)
    requires Sound(b.ledger) && settlement in b.states && b.states[settlement].status.WindDown? && ref !in b.burns
    requires 0 < b.ledger.Balance(PlayerHolding(player, b.states[settlement].code))
    requires ClaimPot(b, settlement, player, ref).Ok?
    ensures var after := ClaimPot(b, settlement, player, ref).value; var code := b.states[settlement].code;
      && Sound(after.ledger)
      && settlement in after.states
      && after.states[settlement].status.WindDown? && after.states[settlement].code == code
      && after.burns.Keys == b.burns.Keys + {ref}
      && Claimable(after.ledger.entries, settlement, code)
         == Claimable(b.ledger.entries, settlement, code) - b.ledger.Balance(PlayerHolding(player, code))
  {
    hide Post, Sound, Claimable, ClaimShare, BurnBasis;
    var st := b.states[settlement];
    var holding := PlayerHolding(player, st.code);
    var units := b.ledger.Balance(holding);
    var share := ClaimShare(b.ledger.Balance(Pot(settlement)), Claimable(b.ledger.entries, settlement, st.code), units);
    BurnEffect(b, settlement, st, holding, units, ref);
    MovedClaimable(b.ledger, holding, Sink(st.code), units, settlement, st.code);
    if share > 0 {
      var burnt := Burn(b, settlement, st, holding, units, ref).value;
      MoveEffect(burnt.ledger, Pot(settlement), Cash(player), share);
      MovedClaimable(burnt.ledger, Pot(settlement), Cash(player), share, settlement, st.code);
    }
  }

  lemma MovedClaimable(l: Ledger, from: Account, to: Account, amount: int, settlement: string, code: string)
    requires Post(l, Move(from, to, amount)).Posted? && !Claims(to, settlement, code)
    ensures Claimable(Post(l, Move(from, to, amount)).ledger.entries, settlement, code)
      == Claimable(l.entries, settlement, code) - (if Claims(from, settlement, code) then amount else 0)
  {
    hide Claimable;
    ClaimableAdds(l.entries, Move(from, to, amount), settlement, code);
    MoveClaimable(from, to, amount, settlement, code);
  }

  // ----- claims one after another

  /** One claim of a run, refused ones changing nothing. */
  ghost function Claimed(b: Books, settlement: string, claims: seq<(string, Ref)>): Books {
    if claims == [] then b
    else
      var before, last := Claimed(b, settlement, claims[..|claims| - 1]), claims[|claims| - 1];
      match ClaimPot(before, settlement, last.0, last.1)
      case Ok(after) => after
      case Err(_) => before
  }

  /** Different holders, each with some units and a row of their own, while the money winds down. */
  ghost predicate Queue(b: Books, settlement: string, claims: seq<(string, Ref)>) {
    && Sound(b.ledger) && settlement in b.states && b.states[settlement].status.WindDown?
    && 0 <= b.ledger.Balance(Pot(settlement)) <= MAX64
    && (forall i | 0 <= i < |claims| ::
          claims[i].1 !in b.burns && b.ledger.Balance(PlayerHolding(claims[i].0, b.states[settlement].code)) > 0)
    && (forall i, j | 0 <= i < j < |claims| :: claims[i].0 != claims[j].0 && claims[i].1 != claims[j].1)
  }

  function UnitsOf(b: Books, code: string, claims: seq<(string, Ref)>): seq<int> {
    seq(|claims|, i requires 0 <= i < |claims| => b.ledger.Balance(PlayerHolding(claims[i].0, code)))
  }

  /** What is left in the books after some claims is what the arithmetic leaves. */
  ghost predicate FiguresFollow(b: Books, settlement: string, claims: seq<(string, Ref)>, after: Books)
    requires settlement in b.states
  {
    var code := b.states[settlement].code;
    var claimable := Claimable(b.ledger.entries, settlement, code);
    var rest := AfterClaims(b.ledger.Balance(Pot(settlement)), claimable, UnitsOf(b, code, claims));
    && Sound(after.ledger)
    && settlement in after.states && after.states[settlement].status.WindDown? && after.states[settlement].code == code
    && after.ledger.Balance(Pot(settlement)) == rest.pot
    && Claimable(after.ledger.entries, settlement, code) == rest.units
    && rest.units == claimable - Total(UnitsOf(b, code, claims)) && 0 <= rest.pot <= b.ledger.Balance(Pot(settlement))
  }

  /** Whoever has not claimed holds what they held, and has their row still to write. */
  ghost predicate OthersWait(b: Books, settlement: string, claims: seq<(string, Ref)>, after: Books)
    requires settlement in b.states
  {
    && (forall p: string | (forall i | 0 <= i < |claims| :: claims[i].0 != p) ::
          after.ledger.Balance(PlayerHolding(p, b.states[settlement].code))
          == b.ledger.Balance(PlayerHolding(p, b.states[settlement].code)))
    && (forall ref | ref in after.burns :: ref in b.burns || exists i | 0 <= i < |claims| :: claims[i].1 == ref)
  }

  ghost predicate Follows(b: Books, settlement: string, claims: seq<(string, Ref)>, after: Books)
    requires settlement in b.states
  {
    FiguresFollow(b, settlement, claims, after) && OthersWait(b, settlement, claims, after)
  }

  lemma {:induction false} QueueFollows(b: Books, settlement: string, claims: seq<(string, Ref)>)
    requires Queue(b, settlement, claims)
    ensures Follows(b, settlement, claims, Claimed(b, settlement, claims))
    decreases |claims|
  {
    if claims == [] {
    } else {
      var n := |claims| - 1;
      QueueShortens(b, settlement, claims);
      QueueFollows(b, settlement, claims[..n]);
      NextInQueue(b, settlement, claims, Claimed(b, settlement, claims[..n]));
    }
  }

  lemma QueueShortens(b: Books, settlement: string, claims: seq<(string, Ref)>)
    requires claims != [] && Queue(b, settlement, claims)
    ensures Queue(b, settlement, claims[..|claims| - 1])
  {
    hide Sound;
  }

  /** The next claim, in the figures of the queue. */
  lemma NextClaim(b: Books, settlement: string, claims: seq<(string, Ref)>, before: Books)
    requires claims != [] && Queue(b, settlement, claims) && Follows(b, settlement, claims[..|claims| - 1], before)
    ensures var n, code := |claims| - 1, b.states[settlement].code;
            var player, ref := claims[n].0, claims[n].1;
            var units, r := b.ledger.Balance(PlayerHolding(player, code)), ClaimPot(before, settlement, player, ref);
            var held := before.ledger.Balance(Pot(settlement));
            var claimable := Claimable(before.ledger.entries, settlement, code);
            var share := ClaimShare(held, claimable, units);
      && r.Ok? && Sound(r.value.ledger) && 0 <= share <= held && units <= claimable
      && settlement in r.value.states && r.value.states[settlement].status.WindDown?
      && r.value.states[settlement].code == code
      && r.value.ledger.Balance(Pot(settlement)) == held - share
      && Claimable(r.value.ledger.entries, settlement, code) == claimable - units
      && r.value.ledger.Balance(Cash(player)) == before.ledger.Balance(Cash(player)) + share
      && r.value.ledger.Balance(PlayerHolding(player, code)) == 0
      && (forall p: string | p != player ::
            r.value.ledger.Balance(PlayerHolding(p, code)) == before.ledger.Balance(PlayerHolding(p, code)))
      && r.value.burns.Keys == before.burns.Keys + {ref}
  {
    hide Sound, ClaimPot, Claimable, ClaimShare, AfterClaims;
    var n, code := |claims| - 1, b.states[settlement].code;
    var player, ref := claims[n].0, claims[n].1;
    var units := b.ledger.Balance(PlayerHolding(player, code));
    assert before.ledger.Balance(PlayerHolding(player, code)) == units;
    assert ref !in before.burns;
    ClaimEffect(before, settlement, player, ref);
    ClaimLeaves(before, settlement, player, ref);
    var held, claimable := before.ledger.Balance(Pot(settlement)), Claimable(before.ledger.entries, settlement, code);
    SharesAreWithinThePot(held, claimable, units);
  }

  lemma NextInQueue(b: Books, settlement: string, claims: seq<(string, Ref)>, before: Books)
    requires claims != [] && Queue(b, settlement, claims) && Follows(b, settlement, claims[..|claims| - 1], before)
    ensures var last := claims[|claims| - 1]; var r := ClaimPot(before, settlement, last.0, last.1);
      r.Ok? && Follows(b, settlement, claims, r.value)
  {
    hide Sound, ClaimPot, FiguresFollow, OthersWait;
    NextFigures(b, settlement, claims, before);
    NextWaits(b, settlement, claims, before);
  }

  lemma NextFigures(b: Books, settlement: string, claims: seq<(string, Ref)>, before: Books)
    requires claims != [] && Queue(b, settlement, claims) && Follows(b, settlement, claims[..|claims| - 1], before)
    ensures var last := claims[|claims| - 1]; var r := ClaimPot(before, settlement, last.0, last.1);
      r.Ok? && FiguresFollow(b, settlement, claims, r.value)
  {
    hide Sound, ClaimPot, Claimable, ClaimShare, AfterClaims, OthersWait;
    NextClaim(b, settlement, claims, before);
    var n, code := |claims| - 1, b.states[settlement].code;
    var all, first := UnitsOf(b, code, claims), UnitsOf(b, code, claims[..n]);
    assert all[..n] == first && all[n] == b.ledger.Balance(PlayerHolding(claims[n].0, code));
    AfterOneMore(b.ledger.Balance(Pot(settlement)), Claimable(b.ledger.entries, settlement, code), all);
  }

  lemma NextWaits(b: Books, settlement: string, claims: seq<(string, Ref)>, before: Books)
    requires claims != [] && Queue(b, settlement, claims) && Follows(b, settlement, claims[..|claims| - 1], before)
    ensures var last := claims[|claims| - 1]; var r := ClaimPot(before, settlement, last.0, last.1);
      r.Ok? && OthersWait(b, settlement, claims, r.value)
  {
    hide Sound, ClaimPot, Claimable, ClaimShare, AfterClaims;
    NextClaim(b, settlement, claims, before);
    hide FiguresFollow, Queue;
    var n, code := |claims| - 1, b.states[settlement].code;
    var after := ClaimPot(before, settlement, claims[n].0, claims[n].1).value;
    forall p: string | forall i | 0 <= i < |claims| :: claims[i].0 != p
      ensures after.ledger.Balance(PlayerHolding(p, code)) == b.ledger.Balance(PlayerHolding(p, code))
    {
      assert claims[n].0 != p;
      assert forall i | 0 <= i < n :: claims[..n][i].0 != p;
    }
    forall ref | ref in after.burns
      ensures ref in b.burns || exists i | 0 <= i < |claims| :: claims[i].1 == ref
    {
      if ref in before.burns && ref !in b.burns {
        var i :| 0 <= i < n && claims[..n][i].1 == ref;
        assert claims[i].1 == ref;
      } else if ref !in before.burns {
        assert claims[n].1 == ref;
      }
    }
  }

  /** In the books: whoever else has claimed before, in whatever order, a holder who then claims is paid at
      least their share of the pot as it was and at most one coin more for each claim before; exactly their
      share when the pot was a whole number of coins per unit. */
  lemma ClaimsPayFairly(b: Books, settlement: string, claims: seq<(string, Ref)>)
    requires claims != [] && Queue(b, settlement, claims)
    ensures var n, code := |claims| - 1, b.states[settlement].code;
            var pot, claimable := b.ledger.Balance(Pot(settlement)), Claimable(b.ledger.entries, settlement, code);
            var player, units := claims[n].0, b.ledger.Balance(PlayerHolding(claims[n].0, code));
            var before, after := Claimed(b, settlement, claims[..n]), Claimed(b, settlement, claims);
            var paid := after.ledger.Balance(Cash(player)) - before.ledger.Balance(Cash(player));
      && 0 < units <= claimable
      && pot * units / claimable <= paid <= pot * units / claimable + n
      && (pot % claimable == 0 ==> paid == pot * units / claimable)
      && after.ledger.Balance(PlayerHolding(player, code)) == 0
  {
    hide Sound, ClaimPot, Claimable, ClaimShare, AfterClaims;
    var n, code := |claims| - 1, b.states[settlement].code;
    var before, player := Claimed(b, settlement, claims[..n]), claims[n].0;
    QueueShortens(b, settlement, claims);
    QueueFollows(b, settlement, claims[..n]);
    NextClaim(b, settlement, claims, before);
    var pot, claimable := b.ledger.Balance(Pot(settlement)), Claimable(b.ledger.entries, settlement, code);
    var first, units := UnitsOf(b, code, claims[..n]), b.ledger.Balance(PlayerHolding(player, code));
    TotalIsNatural(first);
    ClaimsAreFair(pot, claimable, first, units);
    SharesAreWithinThePot(pot, claimable, units);
    if pot % claimable == 0 {
      DivMod(pot, claimable);
      EvenPotsStayEven(pot, claimable, first, units, pot / claimable);
    }
  }

  lemma {:induction false} TotalIsNatural(claims: seq<int>)
    requires Positive(claims)
    ensures Total(claims) >= 0
    decreases |claims|
  {
    if claims != [] {
      TotalIsNatural(claims[..|claims| - 1]);
    }
  }

  // ----- the end of it

  /** When the window is over, the money is retired, the pot is empty and the treasury has what was in it;
      nothing else moves. */
  lemma FinishEffect(b: Books, settlement: string)
    requires Sound(b.ledger) && settlement in b.states && b.states[settlement].status.WindDown?
    ensures var r, left := FinishWindDown(b, settlement), b.ledger.Balance(Pot(settlement));
      && r.Ok? && settlement in r.value.states && r.value.states[settlement].status.Retired?
      && r.value.ledger.Balance(Pot(settlement)) == 0
      && forall a | a != Pot(settlement) ::
           r.value.ledger.Balance(a) == b.ledger.Balance(a) + (if a == Treasury(settlement) then left else 0)
  {
    hide Post, Sound;
    NobodyOverdrawn(b.ledger, Pot(settlement));
    if b.ledger.Balance(Pot(settlement)) > 0 {
      MoveEffect(b.ledger, Pot(settlement), Treasury(settlement), b.ledger.Balance(Pot(settlement)));
    }
  }
}
