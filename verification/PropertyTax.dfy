/** What each owner's property is assessed at, and the tax on it. */
module PropertyTax {

  datatype Lot = Lot(owner: string, price: int)
  datatype Building = Building(id: string, owner: string, value: int)
  datatype Assessment = Assessment(owner: string, value: int)

  /** One owned value, in the order it is met: the lots, then the buildings that still stand. */
  datatype Item = Item(owner: string, value: int)

  function LotItems(lots: seq<Lot>): seq<Item> {
    seq(|lots|, i requires 0 <= i < |lots| => Item(lots[i].owner, lots[i].price))
  }

  /** With no way to tell, every building stands. */
  datatype Standing = Unknown | Known(alive: string -> bool)

  predicate Stands(standing: Standing, b: Building) { standing.Known? ==> standing.alive(b.id) }

  function BuildingItems(buildings: seq<Building>, standing: Standing): seq<Item> {
    if buildings == [] then []
    else
      var rest, last := BuildingItems(buildings[..|buildings| - 1], standing), buildings[|buildings| - 1];
      if Stands(standing, last) then rest + [Item(last.owner, last.value)] else rest
  }

  function OwnedValue(items: seq<Item>, owner: string): int {
    if items == [] then 0
    else
      var last := items[|items| - 1];
      OwnedValue(items[..|items| - 1], owner) + if last.owner == owner then last.value else 0
  }

  function Total(items: seq<Item>): int {
    if items == [] then 0 else Total(items[..|items| - 1]) + items[|items| - 1].value
  }

  /** The owners by first appearance. */
  function Owners(items: seq<Item>): seq<string> {
    if items == [] then []
    else
      var rest := Owners(items[..|items| - 1]);
      if items[|items| - 1].owner in rest then rest else rest + [items[|items| - 1].owner]
  }

  function TotalAssessed(out: seq<Assessment>): int {
    if out == [] then 0 else TotalAssessed(out[..|out| - 1]) + out[|out| - 1].value
  }

  ghost predicate Assesses(out: seq<Assessment>, items: seq<Item>) {
    && |out| == |Owners(items)|
    && forall i | 0 <= i < |out| :: out[i] == Assessment(Owners(items)[i], OwnedValue(items, Owners(items)[i]))
  }

  lemma {:induction false} OwnersOnce(items: seq<Item>)
    ensures forall i, j | 0 <= i < j < |Owners(items)| :: Owners(items)[i] != Owners(items)[j]
    ensures forall o :: o in Owners(items) <==> exists i | 0 <= i < |items| :: items[i].owner == o
    decreases |items|
  {
    if items != [] {
      var n := |items| - 1;
      OwnersOnce(items[..n]);
      forall o
        ensures o in Owners(items) <==> exists i | 0 <= i < |items| :: items[i].owner == o
      {
        if o in Owners(items[..n]) {
          var i :| 0 <= i < n && items[..n][i].owner == o;
          assert items[i].owner == o;
        }
        if i :| 0 <= i < n && items[i].owner == o {
          assert items[..n][i].owner == o;
        }
      }
    }
  }

  /** An owner listed earlier is met earlier. */
  ghost predicate FirstMetAt(items: seq<Item>, owner: string, i: nat) {
    i < |items| && items[i].owner == owner && forall k | 0 <= k < i :: items[k].owner != owner
  }

  lemma {:induction false} OwnersInOrderOfAppearance(items: seq<Item>, a: nat, b: nat, i: nat, j: nat)
    requires a < b < |Owners(items)|
    requires FirstMetAt(items, Owners(items)[a], i) && FirstMetAt(items, Owners(items)[b], j)
    ensures i < j
    decreases |items|
  {
    var n := |items| - 1;
    var before := Owners(items[..n]);
    OwnersOnce(items);
    OwnersOnce(items[..n]);
    if b < |before| {
      FirstMetBefore(items, before[a], i);
      FirstMetBefore(items, before[b], j);
      OwnersInOrderOfAppearance(items[..n], a, b, i, j);
    } else {
      assert Owners(items)[b] == items[n].owner && items[n].owner !in before;
      FirstMetBefore(items, before[a], i);
      assert forall k | 0 <= k < n :: items[..n][k].owner != items[n].owner;
    }
  }

  lemma FirstMetBefore(items: seq<Item>, owner: string, i: nat)
    requires items != [] && owner in Owners(items[..|items| - 1]) && FirstMetAt(items, owner, i)
    ensures i < |items| - 1 && FirstMetAt(items[..|items| - 1], owner, i)
  {
    var n := |items| - 1;
    OwnersOnce(items[..n]);
    var k :| 0 <= k < n && items[..n][k].owner == owner;
    assert items[k].owner == owner;
  }

  /** A building counts exactly when it stands: when nothing tells, or what tells says so. */
  lemma {:induction false} StandingBuildingsCount(buildings: seq<Building>, standing: Standing, item: Item)
    ensures item in BuildingItems(buildings, standing) <==>
      exists i | 0 <= i < |buildings| :: item == Item(buildings[i].owner, buildings[i].value)
        && (standing == Unknown || (standing.Known? && standing.alive(buildings[i].id)))
    ensures standing.Unknown? ==> |BuildingItems(buildings, standing)| == |buildings|
    decreases |buildings|
  {
    if buildings != [] {
      var n := |buildings| - 1;
      StandingBuildingsCount(buildings[..n], standing, item);
      if i :| 0 <= i < n && item == Item(buildings[i].owner, buildings[i].value)
              && (standing == Unknown || (standing.Known? && standing.alive(buildings[i].id))) {
        assert buildings[..n][i] == buildings[i];
      }
      if item in BuildingItems(buildings[..n], standing) {
        var i :| 0 <= i < n && item == Item(buildings[..n][i].owner, buildings[..n][i].value)
                 && (standing == Unknown || (standing.Known? && standing.alive(buildings[..n][i].id)));
        assert buildings[..n][i] == buildings[i];
      }
    }
  }

  lemma {:induction false} StrangersOwnNothing(items: seq<Item>, owner: string)
    requires owner !in Owners(items)
    ensures OwnedValue(items, owner) == 0
    decreases |items|
  {
    if items != [] {
      StrangersOwnNothing(items[..|items| - 1], owner);
    }
  }

  function ValueOf(items: seq<Item>, owners: seq<string>): int {
    if owners == [] then 0 else ValueOf(items, owners[..|owners| - 1]) + OwnedValue(items, owners[|owners| - 1])
  }

  lemma {:induction false} OneMoreItem(items: seq<Item>, owners: seq<string>)
    requires items != [] && forall i, j | 0 <= i < j < |owners| :: owners[i] != owners[j]
    ensures var last := items[|items| - 1];
      ValueOf(items, owners) == ValueOf(items[..|items| - 1], owners) + if last.owner in owners then last.value else 0
    decreases |owners|
  {
    if owners != [] {
      var rest := owners[..|owners| - 1];
      OneMoreItem(items, rest);
      assert owners == rest + [owners[|owners| - 1]];
    }
  }

  lemma {:induction false} NothingOwned(owners: seq<string>)
    ensures ValueOf([], owners) == 0
    decreases |owners|
  {
    if owners != [] {
      NothingOwned(owners[..|owners| - 1]);
    }
  }

  /** All that is owned is owned by someone listed, once. */
  lemma {:induction false} OwnersHoldEverything(items: seq<Item>, owners: seq<string>)
    requires forall i, j | 0 <= i < j < |owners| :: owners[i] != owners[j]
    requires forall i | 0 <= i < |items| :: items[i].owner in owners
    ensures ValueOf(items, owners) == Total(items)
    decreases |items|
  {
    if items == [] {
      NothingOwned(owners);
    } else {
      var n := |items| - 1;
      forall i | 0 <= i < n
        ensures items[..n][i].owner in owners
      {
        assert items[..n][i] == items[i];
      }
      OwnersHoldEverything(items[..n], owners);
      OneMoreItem(items, owners);
      assert items[n].owner in owners;
    }
  }

  lemma {:induction false} AssessedIsValue(out: seq<Assessment>, items: seq<Item>, owners: seq<string>)
    requires |out| == |owners|
    requires forall i | 0 <= i < |out| :: out[i] == Assessment(owners[i], OwnedValue(items, owners[i]))
    ensures TotalAssessed(out) == ValueOf(items, owners)
    decreases |out|
  {
    if out != [] {
      AssessedIsValue(out[..|out| - 1], items, owners[..|owners| - 1]);
    }
  }

  /** Each owner is assessed once, and the assessments add up to everything owned. */
  lemma {:induction false} AssessmentsAddUp(out: seq<Assessment>, items: seq<Item>)
    requires Assesses(out, items)
    ensures TotalAssessed(out) == Total(items)
    ensures forall i, j | 0 <= i < j < |out| :: out[i].owner != out[j].owner
    ensures forall i | 0 <= i < |items| :: exists k | 0 <= k < |out| :: out[k].owner == items[i].owner
  {
    var owners := Owners(items);
    OwnersOnce(items);
    forall i | 0 <= i < |items|
      ensures items[i].owner in owners && exists k | 0 <= k < |out| :: out[k].owner == items[i].owner
    {
      assert items[i].owner in Owners(items);
      var k :| 0 <= k < |owners| && owners[k] == items[i].owner;
      assert out[k].owner == items[i].owner;
    }
    OwnersHoldEverything(items, owners);
    AssessedIsValue(out, items, owners);
  }

  // ----- the code

  /** Owners met so far and where each stands in the list. */
  class Roll {
    var index: map<string, nat>
    var out: seq<Assessment>
    ghost var items: seq<Item>

    ghost predicate Valid()
      reads this
    {
      && Assesses(out, items)
      && (forall o :: o in index <==> o in Owners(items))
      && (forall o | o in index :: index[o] < |out| && out[index[o]].owner == o)
    }

    constructor ()
      ensures Valid() && items == []
    {
      index, out, items := map[], [], [];
    }

    method Add(owner: string, value: int)
      requires Valid()
      modifies this
      ensures Valid() && items == old(items) + [Item(owner, value)]
    {
      ghost var before := items;
      items := items + [Item(owner, value)];
      assert items[..|items| - 1] == before;
      OwnersOnce(before);
      if owner !in index {
        StrangersOwnNothing(before, owner);
        index := index[owner := |out|];
        out := out + [Assessment(owner, 0)];
      }
      var i := index[owner];
      out := out[i := Assessment(owner, out[i].value + value)];
    }
  }

  method AssessOwners(lots: seq<Lot>, buildings: seq<Building>, standing: Standing) returns (out: seq<Assessment>)
    ensures Assesses(out, LotItems(lots) + BuildingItems(buildings, standing))
  {
    var roll := new Roll();
    for k := 0 to |lots|
      invariant fresh(roll) && roll.Valid() && roll.items == LotItems(lots)[..k]
    {
      roll.Add(lots[k].owner, lots[k].price);
    }
    for k := 0 to |buildings|
      invariant fresh(roll) && roll.Valid() && roll.items == LotItems(lots) + BuildingItems(buildings[..k], standing)
    {
      assert buildings[..k + 1][..k] == buildings[..k];
      if standing.Known? && !standing.alive(buildings[k].id) {
        continue;
      }
      roll.Add(buildings[k].owner, buildings[k].value);
    }
    assert buildings[..|buildings|] == buildings;
    return roll.out;
  }

  // ----- the tax

  const BPS := 10_000

  function PropertyTaxDue(assessed: int, bps: int): int {
    if assessed <= 0 || bps <= 0 then 0
    else if assessed * bps / BPS < 1 then 1
    else assessed * bps / BPS
  }

  /** The tax is the greatest whole amount up to its share of the value, but at least one on anything worth
      something under a tax above zero, and nothing otherwise. */
  lemma TaxIsItsShare(assessed: int, bps: int, due: int)
    ensures assessed > 0 && bps > 0 ==>
      (due <= PropertyTaxDue(assessed, bps) <==> due <= 1 || due * BPS <= assessed * bps)
    ensures assessed <= 0 || bps <= 0 ==> PropertyTaxDue(assessed, bps) == 0
  {
    if assessed > 0 && bps > 0 {
      var share := assessed * bps / BPS;
      assert assessed * bps == share * BPS + assessed * bps % BPS;
    }
  }

  function TaxOnEach(values: seq<int>, bps: int): int {
    if values == [] then 0 else TaxOnEach(values[..|values| - 1], bps) + PropertyTaxDue(values[|values| - 1], bps)
  }

  function Sum(values: seq<int>): int {
    if values == [] then 0 else Sum(values[..|values| - 1]) + values[|values| - 1]
  }

  /** Shares of the tax, rounded down, against the whole. */
  lemma FloorsAdd(a: int, b: int, bps: int)
    requires a >= 0 && b >= 0 && bps >= 0
    ensures a * bps / BPS + b * bps / BPS <= (a + b) * bps / BPS <= a * bps / BPS + b * bps / BPS + 1
  {
    assert (a + b) * bps == a * bps + b * bps;
  }

  /** Taxing owners one by one and taxing their total differ by less than one coin per owner, either way:
      rounding down loses up to a coin each, and the minimum of one coin gains up to a coin each. */
  lemma {:induction false} SplittingCostsAtMostACoinEach(values: seq<int>, bps: int)
    requires values != [] && forall v | v in values :: v > 0
    ensures -(|values| - 1) <= TaxOnEach(values, bps) - PropertyTaxDue(Sum(values), bps) <= |values| - 1
    ensures Sum(values) > 0
    decreases |values|
  {
    var n := |values| - 1;
    var rest, last := values[..n], values[n];
    assert last in values;
    if n == 0 {
      assert rest == [];
      assert Sum(values) == last;
    } else {
      forall v | v in rest
        ensures v in values
      {
      }
      SplittingCostsAtMostACoinEach(rest, bps);
      if bps > 0 {
        TwoOwners(Sum(rest), last, bps);
      }
    }
  }

  lemma TwoOwners(a: int, b: int, bps: int)
    requires a > 0 && b > 0 && bps > 0
    ensures -1 <= PropertyTaxDue(a, bps) + PropertyTaxDue(b, bps) - PropertyTaxDue(a + b, bps) <= 1
  {
    FloorsAdd(a, b, bps);
    assert a * bps > 0 && b * bps > 0 && (a + b) * bps > 0;
  }

  function Values(out: seq<Assessment>): seq<int> { seq(|out|, i requires 0 <= i < |out| => out[i].value) }

  lemma {:induction false} ValuesAddUp(out: seq<Assessment>)
    ensures Sum(Values(out)) == TotalAssessed(out)
    decreases |out|
  {
    if out != [] {
      ValuesAddUp(out[..|out| - 1]);
      assert Values(out)[..|out| - 1] == Values(out[..|out| - 1]);
    }
  }

  /** The taxes of all the owners assessed, against one tax on everything owned. */
  lemma TaxingOwnersCostsAtMostACoinEach(out: seq<Assessment>, items: seq<Item>, bps: int)
    requires Assesses(out, items) && out != [] && forall i | 0 <= i < |out| :: out[i].value > 0
    ensures -(|out| - 1) <= TaxOnEach(Values(out), bps) - PropertyTaxDue(Total(items), bps) <= |out| - 1
  {
    AssessmentsAddUp(out, items);
    ValuesAddUp(out);
    SplittingCostsAtMostACoinEach(Values(out), bps);
  }
}
