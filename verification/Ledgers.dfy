/** The double-entry ledger: append-only entries, the cached balances the post statement keeps beside
    them, and what every post preserves. */
module Ledgers {

  datatype Kind =
    | PlayerCash | CityTreasury | ForeignHolding | ReservePot | SystemSink | SystemSource | OtherKind(name: string)

  /** Who an account belongs to. Ids of players and of settlements come from different tables. */
  datatype Owner = Nobody | Player(id: string) | Settlement(id: string) | Another(id: string)

  datatype Account = Account(kind: Kind, owner: Owner, currency: string) {
    predicate System() { kind.SystemSink? || kind.SystemSource? }
  }

  datatype Leg = Leg(account: Account, amount: int)

  datatype LedgerError = Unbalanced | MixedCurrencies | InsufficientFunds

  datatype Posting = Posted(ledger: Ledger) | Refused(error: LedgerError)

  datatype Ledger = Ledger(entries: seq<Leg>, balances: map<Account, int>) {
    /** An account opens with nothing on first use. */
    function Balance(a: Account): int { if a in balances then balances[a] else 0 }
  }

  function Sum(legs: seq<Leg>): int {
    if legs == [] then 0 else Sum(legs[..|legs| - 1]) + legs[|legs| - 1].amount
  }

  /** The entries of one account, added up. */
  function AccountSum(legs: seq<Leg>, a: Account): int {
    if legs == [] then 0
    else
      var last := legs[|legs| - 1];
      AccountSum(legs[..|legs| - 1], a) + if last.account == a then last.amount else 0
  }

  /** The entries of one currency, added up. */
  function CurrencySum(legs: seq<Leg>, currency: string): int {
    if legs == [] then 0
    else
      var last := legs[|legs| - 1];
      CurrencySum(legs[..|legs| - 1], currency) + if last.account.currency == currency then last.amount else 0
  }

  /** The entries of one currency on accounts that are not the system's, added up. */
  function OutsideSum(legs: seq<Leg>, currency: string): int {
    if legs == [] then 0
    else
      var last := legs[|legs| - 1];
      OutsideSum(legs[..|legs| - 1], currency)
      + if last.account.currency == currency && !last.account.System() then last.amount else 0
  }

  function Credit(balances: map<Account, int>, leg: Leg): map<Account, int> {
    balances[leg.account := (if leg.account in balances then balances[leg.account] else 0) + leg.amount]
  }

  function Apply(balances: map<Account, int>, legs: seq<Leg>): map<Account, int> {
    if legs == [] then balances else Credit(Apply(balances, legs[..|legs| - 1]), legs[|legs| - 1])
  }

  predicate WellFormed(legs: seq<Leg>) {
    |legs| >= 2 && (forall leg | leg in legs :: leg.amount != 0) && Sum(legs) == 0
  }

  predicate OneCurrency(legs: seq<Leg>) {
    forall leg | leg in legs :: leg.account.currency == legs[0].account.currency
  }

  /** Only a currency's own source may go below zero. */
  predicate Overdrawn(after: Ledger, legs: seq<Leg>) {
    exists leg | leg in legs :: !leg.account.kind.SystemSource? && after.Balance(leg.account) < 0
  }

  /** One transaction: balanced, of one currency, overdrawing nobody, or refused with nothing written. */
  function Post(l: Ledger, legs: seq<Leg>): Posting {
    if !WellFormed(legs) then Refused(Unbalanced)
    else if !OneCurrency(legs) then Refused(MixedCurrencies)
    else
      var after := Ledger(l.entries + legs, Apply(l.balances, legs));
      if Overdrawn(after, legs) then Refused(InsufficientFunds) else Posted(after)
  }

  /** Exactly when a transaction is posted, and why it is not: too few legs, an empty one, or legs that do not
      balance; two currencies; an account, other than a source, that would fall below zero. */
  lemma PostOutcome(l: Ledger, legs: seq<Leg>)
    ensures var r := Post(l, legs);
      if |legs| < 2 || Sum(legs) != 0 || exists i | 0 <= i < |legs| :: legs[i].amount == 0 then r == Refused(Unbalanced)
      else if exists i | 0 <= i < |legs| :: legs[i].account.currency != legs[0].account.currency then
        r == Refused(MixedCurrencies)
      else if exists i | 0 <= i < |legs| :: var a := legs[i].account;
           !a.kind.SystemSource? && l.Balance(a) + AccountSum(legs, a) < 0 then
        r == Refused(InsufficientFunds)
      else r.Posted? && r.ledger.entries == l.entries + legs
  {
    forall a
      ensures Ledger(l.entries + legs, Apply(l.balances, legs)).Balance(a) == l.Balance(a) + AccountSum(legs, a)
    {
      ApplyAdds(l.balances, legs, a);
    }
    forall i | 0 <= i < |legs|
      ensures legs[i] in legs
    {
    }
    if WellFormed(legs) && OneCurrency(legs) && Overdrawn(Ledger(l.entries + legs, Apply(l.balances, legs)), legs) {
      var after := Ledger(l.entries + legs, Apply(l.balances, legs));
      var leg :| leg in legs && !leg.account.kind.SystemSource? && after.Balance(leg.account) < 0;
      var i :| 0 <= i < |legs| && legs[i] == leg;
    }
  }

  /** The two legs of a plain movement. */
  function Move(from: Account, to: Account, amount: int): seq<Leg> { [Leg(from, -amount), Leg(to, amount)] }

  // ----- what every post keeps

  ghost predicate Cached(l: Ledger) { forall a :: l.Balance(a) == AccountSum(l.entries, a) }

  ghost predicate Balanced(l: Ledger) { forall c :: CurrencySum(l.entries, c) == 0 }

  ghost predicate Solvent(l: Ledger) { forall a: Account :: a.kind.SystemSource? || l.Balance(a) >= 0 }

  /** The cache agrees with the entries, every currency sums to zero, nobody is overdrawn. */
  ghost predicate Sound(l: Ledger) { Cached(l) && Balanced(l) && Solvent(l) }

  lemma {:induction false} SumsAppend(a: seq<Leg>, b: seq<Leg>, acct: Account, c: string)
    ensures AccountSum(a + b, acct) == AccountSum(a, acct) + AccountSum(b, acct)
    ensures CurrencySum(a + b, c) == CurrencySum(a, c) + CurrencySum(b, c)
    ensures OutsideSum(a + b, c) == OutsideSum(a, c) + OutsideSum(b, c)
    decreases |b|
  {
    if b == [] {
      assert a + b == a;
    } else {
      var rest := b[..|b| - 1];
      SumsAppend(a, rest, acct, c);
      assert (a + b)[..|a + b| - 1] == a + rest;
    }
  }

  lemma {:induction false} ApplyAdds(balances: map<Account, int>, legs: seq<Leg>, a: Account)
    ensures Ledger([], Apply(balances, legs)).Balance(a) == Ledger([], balances).Balance(a) + AccountSum(legs, a)
    decreases |legs|
  {
    if legs != [] {
      ApplyAdds(balances, legs[..|legs| - 1], a);
    }
  }

  lemma {:induction false} OneCurrencySum(legs: seq<Leg>, c: string, d: string)
    requires forall leg | leg in legs :: leg.account.currency == c
    ensures CurrencySum(legs, d) == if d == c then Sum(legs) else 0
    decreases |legs|
  {
    if legs != [] {
      forall leg | leg in legs[..|legs| - 1]
        ensures leg in legs
      {
      }
      OneCurrencySum(legs[..|legs| - 1], c, d);
    }
  }

  lemma {:induction false} UntouchedSum(legs: seq<Leg>, a: Account)
    requires forall leg | leg in legs :: leg.account != a
    ensures AccountSum(legs, a) == 0
    decreases |legs|
  {
    if legs != [] {
      UntouchedSum(legs[..|legs| - 1], a);
    }
  }

  /** A post adds each account's legs to its balance and leaves every other account alone. */
  lemma PostMoves(l: Ledger, legs: seq<Leg>, a: Account)
    requires Post(l, legs).Posted?
    ensures Post(l, legs).ledger.Balance(a) == l.Balance(a) + AccountSum(legs, a)
  {
    ApplyAdds(l.balances, legs, a);
  }

  lemma PostKeepsSound(l: Ledger, legs: seq<Leg>)
    requires Sound(l) && Post(l, legs).Posted?
    ensures Sound(Post(l, legs).ledger)
  {
    var after := Post(l, legs).ledger;
    forall a: Account
      ensures after.Balance(a) == AccountSum(after.entries, a)
      ensures a.kind.SystemSource? || after.Balance(a) >= 0
    {
      PostMoves(l, legs, a);
      SumsAppend(l.entries, legs, a, "");
      if forall leg | leg in legs :: leg.account != a {
        UntouchedSum(legs, a);
      }
    }
    forall c
      ensures CurrencySum(after.entries, c) == 0
    {
      SumsAppend(l.entries, legs, legs[0].account, c);
      OneCurrencySum(legs, legs[0].account.currency, c);
    }
  }

  lemma NobodyOverdrawn(l: Ledger, a: Account)
    requires Sound(l) && !a.kind.SystemSource?
    ensures l.Balance(a) >= 0
  {
  }

  lemma ThreeLegs(x: Leg, y: Leg, z: Leg, a: Account)
    ensures var legs := [x, y] + [z];
      && Sum(legs) == x.amount + y.amount + z.amount
      && AccountSum(legs, a) == (if x.account == a then x.amount else 0) + (if y.account == a then y.amount else 0)
                                + (if z.account == a then z.amount else 0)
  {
    var legs := [x, y] + [z];
    assert legs[..2] == [x, y] && legs[..2][..1] == [x] && legs[..2][..1][..0] == [];
    assert Sum(legs[..2][..1]) == x.amount;
    assert AccountSum(legs[..2][..1], a) == if x.account == a then x.amount else 0;
  }

  /** Money moves from one account to another when the payer holds it, and otherwise not at all. */
  lemma MoveEffect(l: Ledger, from: Account, to: Account, amount: int)
    requires Sound(l) && amount > 0 && from != to && from.currency == to.currency
    ensures Post(l, Move(from, to, amount)) ==
      (if !from.kind.SystemSource? && l.Balance(from) < amount then Refused(InsufficientFunds)
       else Posted(Ledger(l.entries + Move(from, to, amount), Apply(l.balances, Move(from, to, amount)))))
    ensures Post(l, Move(from, to, amount)).Posted? ==>
      var after := Post(l, Move(from, to, amount)).ledger;
      && Sound(after)
      && forall a :: after.Balance(a) == l.Balance(a) + (if a == to then amount else if a == from then -amount else 0)
  {
    var legs := Move(from, to, amount);
    assert legs[..1] == [legs[0]] && legs[..1][..0] == [];
    assert Sum(legs) == 0 by {
      assert Sum(legs[..1]) == -amount;
    }
    assert legs[0] in legs && legs[1] in legs;
    forall a: Account
      ensures AccountSum(legs, a) == if a == to then amount else if a == from then -amount else 0
    {
      assert AccountSum(legs[..1], a) == if a == from then -amount else 0;
    }
    var after := Ledger(l.entries + legs, Apply(l.balances, legs));
    forall a: Account
      ensures after.Balance(a) == l.Balance(a) + AccountSum(legs, a)
    {
      ApplyAdds(l.balances, legs, a);
    }
    if Post(l, legs).Posted? {
      PostKeepsSound(l, legs);
    }
  }

  // ----- holdings outside the system

  /** The balances of a list of accounts, added up. */
  function Holdings(l: Ledger, accounts: seq<Account>): int {
    if accounts == [] then 0 else Holdings(l, accounts[..|accounts| - 1]) + l.Balance(accounts[|accounts| - 1])
  }

  function EntryHoldings(legs: seq<Leg>, accounts: seq<Account>): int {
    if accounts == [] then 0
    else EntryHoldings(legs, accounts[..|accounts| - 1]) + AccountSum(legs, accounts[|accounts| - 1])
  }

  /** `accounts` lists once each account outside the system that ever moved this currency, and no other
      kind of account. */
  ghost predicate Roll(legs: seq<Leg>, currency: string, accounts: seq<Account>) {
    && (forall i, j | 0 <= i < j < |accounts| :: accounts[i] != accounts[j])
    && (forall a | a in accounts :: a.currency == currency && !a.System())
    && (forall leg | leg in legs && leg.account.currency == currency && !leg.account.System() ::
          leg.account in accounts)
  }

  lemma {:induction false} OneEntryCountsOnce(legs: seq<Leg>, accounts: seq<Account>)
    requires legs != []
    requires forall i, j | 0 <= i < j < |accounts| :: accounts[i] != accounts[j]
    ensures var last := legs[|legs| - 1];
      EntryHoldings(legs, accounts)
      == EntryHoldings(legs[..|legs| - 1], accounts) + if last.account in accounts then last.amount else 0
    decreases |accounts|
  {
    if accounts != [] {
      var rest := accounts[..|accounts| - 1];
      OneEntryCountsOnce(legs, rest);
      assert accounts == rest + [accounts[|accounts| - 1]];
    }
  }

  lemma {:induction false} EntriesCountOnce(legs: seq<Leg>, currency: string, accounts: seq<Account>)
    requires Roll(legs, currency, accounts)
    ensures EntryHoldings(legs, accounts) == OutsideSum(legs, currency)
    decreases |legs|
  {
    if legs == [] {
      NoEntriesNoHoldings(accounts);
    } else {
      var rest := legs[..|legs| - 1];
      forall leg | leg in rest
        ensures leg in legs
      {
      }
      EntriesCountOnce(rest, currency, accounts);
      OneEntryCountsOnce(legs, accounts);
      assert legs[|legs| - 1] in legs;
    }
  }

  lemma {:induction false} NoEntriesNoHoldings(accounts: seq<Account>)
    ensures EntryHoldings([], accounts) == 0
    decreases |accounts|
  {
    if accounts != [] {
      NoEntriesNoHoldings(accounts[..|accounts| - 1]);
    }
  }

  lemma {:induction false} HoldingsAreEntries(l: Ledger, accounts: seq<Account>)
    requires Cached(l)
    ensures Holdings(l, accounts) == EntryHoldings(l.entries, accounts)
    decreases |accounts|
  {
    if accounts != [] {
      HoldingsAreEntries(l, accounts[..|accounts| - 1]);
    }
  }

  /** What everyone outside the system holds of a currency is what its entries outside the system add up to. */
  lemma HoldingsOutside(l: Ledger, currency: string, accounts: seq<Account>)
    requires Sound(l) && Roll(l.entries, currency, accounts)
    ensures Holdings(l, accounts) == OutsideSum(l.entries, currency)
  {
    HoldingsAreEntries(l, accounts);
    EntriesCountOnce(l.entries, currency, accounts);
  }

  function Source(currency: string): Account { Account(SystemSource, Nobody, currency) }
  function Sink(currency: string): Account { Account(SystemSink, Nobody, currency) }

  /** Every system entry of the currency stands on its one source or its one sink. */
  ghost predicate OneSourceOneSink(legs: seq<Leg>, currency: string) {
    forall leg | leg in legs && leg.account.currency == currency && leg.account.System() ::
      leg.account == Source(currency) || leg.account == Sink(currency)
  }

  /** A currency is its source, its sink, and what is held outside. */
  lemma {:induction false} CurrencySplits(legs: seq<Leg>, currency: string)
    requires OneSourceOneSink(legs, currency)
    ensures CurrencySum(legs, currency)
         == OutsideSum(legs, currency) + AccountSum(legs, Source(currency)) + AccountSum(legs, Sink(currency))
    decreases |legs|
  {
    if legs != [] {
      var rest := legs[..|legs| - 1];
      forall leg | leg in rest
        ensures leg in legs
      {
      }
      CurrencySplits(rest, currency);
      assert legs[|legs| - 1] in legs;
    }
  }

  lemma RollExists(legs: seq<Leg>, currency: string) returns (accounts: seq<Account>)
    ensures Roll(legs, currency, accounts)
    decreases |legs|
  {
    if legs == [] {
      accounts := [];
    } else {
      var last := legs[|legs| - 1];
      accounts := RollExists(legs[..|legs| - 1], currency);
      assert legs == legs[..|legs| - 1] + [last];
      if last.account.currency == currency && !last.account.System() && last.account !in accounts {
        accounts := accounts + [last.account];
      }
    }
  }

  lemma {:induction false} HoldingsAreNatural(l: Ledger, accounts: seq<Account>)
    requires Solvent(l) && forall a | a in accounts :: !a.System()
    ensures Holdings(l, accounts) >= 0
    decreases |accounts|
  {
    if accounts != [] {
      forall a | a in accounts[..|accounts| - 1]
        ensures a in accounts
      {
      }
      HoldingsAreNatural(l, accounts[..|accounts| - 1]);
      assert accounts[|accounts| - 1] in accounts;
    }
  }
}
