/** The integer arithmetic of a settlement's own money: conversions, minting, the desk's price and the
    backing basis. Amounts are 64-bit in the original; the places where its products can leave that
    range are written out. */
module Rates {

  const PPM := 1_000_000
  const BPS := 10_000
  const MAX64 := 0x7fff_ffff_ffff_ffff
  const TWO64 := 0x1_0000_0000_0000_0000

  /** The 64-bit value a wrapped-around sum or product becomes. */
  function Wrap(v: int): (w: int)
    ensures -MAX64 - 1 <= w <= MAX64
    ensures -MAX64 - 1 <= v <= MAX64 ==> w == v
  {
    var m := v % TWO64;
    if m > MAX64 then m - TWO64 else m
  }

  datatype Quotient = Quotient(q: int, rem: int) | Overflow

  /** a * b / c over a 128-bit intermediate: refused for negative inputs, a divisor of nothing, or a
      quotient that needs more than 63 bits. */
  function MulDiv(a: int, b: int, c: int): Quotient {
    if a < 0 || b < 0 || c <= 0 || a * b / c > MAX64 then Overflow
    else Quotient(a * b / c, a * b % c)
  }

  /** Units per SUP as the fraction Num / Den; the charter rate is scaled by a million before use. */
  datatype Rate = Rate(r0: int, xRefPPM: int) {
    predicate Valid() { r0 > 0 && xRefPPM > 0 }
    function Num(): int { Wrap(r0 * PPM) }
    function Den(): int { xRefPPM }
  }

  function ToLocalFloor(r: Rate, sup: int): int {
    if !r.Valid() then 0
    else match MulDiv(sup, r.Num(), r.Den())
      case Quotient(q, _) => q
      case Overflow => 0
  }

  function ToLocalCeil(r: Rate, sup: int): int {
    if !r.Valid() then 0
    else match MulDiv(sup, r.Num(), r.Den())
      case Quotient(q, rem) => if rem > 0 then Wrap(q + 1) else q
      case Overflow => 0
  }

  function ToSUPFloor(r: Rate, units: int): int {
    if !r.Valid() then 0
    else match MulDiv(units, r.Den(), r.Num())
      case Quotient(q, _) => q
      case Overflow => 0
  }

  /** The conversion of `sup` stays inside 64 bits, with room to round up. */
  predicate Converts(r: Rate, sup: int) {
    && r.Valid()
    && MulDiv(sup, r.Num(), r.Den()).Quotient?
    && MulDiv(sup, r.Num(), r.Den()).q < MAX64
  }

  // ----- division, once

  lemma DivMod(n: int, d: int)
    requires d > 0
    ensures n == n / d * d + n % d && 0 <= n % d < d
  {
  }

  lemma Spread(a: int, b: int, k: int)
    ensures (a + b) * k == a * k + b * k
  {
  }

  lemma Scales(a: int, b: int, k: int)
    requires k >= 0
    ensures a <= b ==> a * k <= b * k
    ensures k > 0 && a < b ==> a * k + k <= b * k
  {
    if a < b {
      Spread(a + 1, b - a - 1, k);
      Spread(a, 1, k);
      assert (b - a - 1) * k >= 0;
    }
  }

  /** The quotient is the only whole number whose multiple leaves a remainder. */
  lemma QuotientIs(n: int, d: int, q: int)
    requires d > 0 && q * d <= n < q * d + d
    ensures n / d == q
  {
    DivMod(n, d);
    Scales(q, n / d, d);
    Scales(n / d, q, d);
  }

  lemma DivGrows(a: int, b: int, d: int)
    requires d > 0 && a <= b
    ensures a / d <= b / d
  {
    DivMod(a, d);
    DivMod(b, d);
    Scales(b / d, a / d, d);
  }

  lemma DivAtLeast(n: int, d: int, q: int)
    requires d > 0
    ensures n / d >= q <==> n >= q * d
  {
    DivMod(n, d);
    Scales(q, n / d, d);
    Scales(n / d, q, d);
  }

  /** MulDiv is division with remainder, refused exactly when an input is out of order or the quotient needs
      more than 63 bits. */
  lemma MulDivDivides(a: int, b: int, c: int)
    ensures MulDiv(a, b, c).Quotient? <==> a >= 0 && b >= 0 && c > 0 && a * b < (MAX64 + 1) * c
    ensures MulDiv(a, b, c).Quotient? ==>
      var q, rem := MulDiv(a, b, c).q, MulDiv(a, b, c).rem;
      0 <= rem < c && q * c + rem == a * b
  {
    if c > 0 {
      DivMod(a * b, c);
      DivAtLeast(a * b, c, MAX64 + 1);
    }
  }

  // ----- what a payer owes

  /** What a payer owes is the least number of units worth at least the price. */
  lemma CeilCoversThePrice(r: Rate, sup: int, units: int)
    requires Converts(r, sup)
    ensures units >= ToLocalCeil(r, sup) <==> units * r.Den() >= sup * r.Num()
  {
    var n, d := sup * r.Num(), r.Den();
    DivMod(n, d);
    DivAtLeast(n, d, units + 1);
    Scales(units, n / d, d);
    Scales(n / d, units, d);
    Scales(n / d + 1, units, d);
  }

  lemma CeilIsStored(r: Rate, sup: int)
    ensures 0 <= ToLocalCeil(r, sup) <= MAX64 || ToLocalCeil(r, sup) == -MAX64 - 1
  {
    if r.Valid() && MulDiv(sup, r.Num(), r.Den()).Quotient? {
      MulDivBounds(sup, r.Num(), r.Den());
    }
  }

  /** What a holder receives is the greatest number of units worth at most the SUP. */
  lemma FloorIsWorthAtMost(r: Rate, sup: int, units: int)
    requires r.Valid() && MulDiv(sup, r.Num(), r.Den()).Quotient?
    ensures units <= ToLocalFloor(r, sup) <==> units * r.Den() <= sup * r.Num()
  {
    DivAtLeast(sup * r.Num(), r.Den(), units);
  }

  /** And what units are worth is the greatest SUP that costs at most them. */
  lemma WorthIsAtMost(r: Rate, units: int, sup: int)
    requires r.Valid() && MulDiv(units, r.Den(), r.Num()).Quotient?
    ensures sup <= ToSUPFloor(r, units) <==> sup * r.Num() <= units * r.Den()
  {
    DivAtLeast(units * r.Den(), r.Num(), sup);
  }

  predicate SplitCostsAUnit(r: Rate, price: int, tax: int)
    requires r.Valid()
  {
    var a, b := price * r.Num() % r.Den(), tax * r.Num() % r.Den();
    a > 0 && b > 0 && a + b <= r.Den()
  }

  /** Rounding a price and its tax up apart asks at most one unit more than rounding their sum, and asks
      it exactly when both leave a remainder and the remainders together fit in one unit. */
  lemma TwoCeilings(r: Rate, price: int, tax: int)
    requires Converts(r, price) && Converts(r, tax) && Converts(r, price + tax)
    ensures var apart, together := ToLocalCeil(r, price) + ToLocalCeil(r, tax), ToLocalCeil(r, price + tax);
      && together <= apart <= together + 1
      && (apart == together + 1 <==> SplitCostsAUnit(r, price, tax))
  {
    hide ToLocalCeil, Converts, CeilDiv, Wrap;
    var n, m, d := price * r.Num(), tax * r.Num(), r.Den();
    assert r.Valid() by { ConvertsIsValid(r, price); }
    Spread(price, tax, r.Num());
    CeilingsApart(n, m, d);
    CeilOf(r, price);
    CeilOf(r, tax);
    CeilOf(r, price + tax);
  }

  lemma ConvertsIsValid(r: Rate, sup: int)
    requires Converts(r, sup)
    ensures r.Valid()
  {
  }

  lemma CeilOf(r: Rate, sup: int)
    requires Converts(r, sup)
    ensures ToLocalCeil(r, sup) == CeilDiv(sup * r.Num(), r.Den())
  {
  }

  function CeilDiv(n: int, d: int): int
    requires d > 0
  {
    if n % d > 0 then n / d + 1 else n / d
  }

  lemma CeilingsApart(n: int, m: int, d: int)
    requires d > 0
    ensures CeilDiv(n + m, d) <= CeilDiv(n, d) + CeilDiv(m, d) <= CeilDiv(n + m, d) + 1
    ensures CeilDiv(n, d) + CeilDiv(m, d) == CeilDiv(n + m, d) + 1 <==> n % d > 0 && m % d > 0 && n % d + m % d <= d
  {
    DivMod(n, d);
    DivMod(m, d);
    DivMod(n + m, d);
    var q, carry := n / d + m / d, n % d + m % d;
    assert n + m == q * d + carry;
    if carry < d {
      QuotientIs(n + m, d, q);
    } else {
      assert (q + 1) * d == q * d + d;
      QuotientIs(n + m, d, q + 1);
    }
  }

  // ----- the desk

  /** Invalid rates and conversions out of range come to nothing. */
  lemma BadRatesAreWorthNothing(r: Rate, amount: int)
    ensures r.r0 <= 0 || r.xRefPPM <= 0 ==>
      ToLocalFloor(r, amount) == 0 && ToLocalCeil(r, amount) == 0 && ToSUPFloor(r, amount) == 0
    ensures MulDiv(amount, r.Num(), r.Den()).Overflow? ==> ToLocalFloor(r, amount) == 0 && ToLocalCeil(r, amount) == 0
    ensures MulDiv(amount, r.Den(), r.Num()).Overflow? ==> ToSUPFloor(r, amount) == 0
  {
  }

  /** The desk trades nothing for nothing, at no invalid rate and no impossible fee; at a fee of everything it
      keeps everything. */
  lemma DeskRefusesNonsense(amount: int, r: Rate, feeBPS: int)
    ensures amount <= 0 || r.r0 <= 0 || r.xRefPPM <= 0 || feeBPS < 0 || feeBPS > BPS ==>
      DeskBuy(amount, r, feeBPS) == (0, 0) && DeskSell(amount, r, feeBPS) == (0, 0)
    ensures MulDiv(amount, feeBPS, BPS).Overflow? ==>
      DeskBuy(amount, r, feeBPS) == (0, 0) && DeskSell(amount, r, feeBPS) == (0, 0)
    ensures 0 < amount <= MAX64 && r.r0 > 0 && r.xRefPPM > 0 ==>
      DeskBuy(amount, r, BPS) == (ToLocalFloor(r, 0), amount) && DeskSell(amount, r, BPS) == (ToSUPFloor(r, 0), amount)
  {
    hide ToLocalFloor, ToSUPFloor;
    QuotientIs(amount * BPS, BPS, amount);
    DivMod(amount * BPS, BPS);
  }

  /** What the desk gives for `supIn` SUP: its fee is kept out of the SUP, rounded up, and the rest is
      converted, rounded down. */
  function DeskBuy(supIn: int, r: Rate, feeBPS: int): (int, int) {
    if supIn <= 0 || !r.Valid() || feeBPS < 0 || feeBPS > BPS then (0, 0)
    else match MulDiv(supIn, feeBPS, BPS)
      case Overflow => (0, 0)
      case Quotient(q, rem) =>
        var fee := if rem > 0 then q + 1 else q;
        (ToLocalFloor(r, supIn - fee), fee)
  }

  function DeskSell(unitsIn: int, r: Rate, feeBPS: int): (int, int) {
    if unitsIn <= 0 || !r.Valid() || feeBPS < 0 || feeBPS > BPS then (0, 0)
    else match MulDiv(unitsIn, feeBPS, BPS)
      case Overflow => (0, 0)
      case Quotient(q, rem) =>
        var fee := if rem > 0 then q + 1 else q;
        (ToSUPFloor(r, unitsIn - fee), fee)
  }

  predicate Buys(sup: int, units: int, r: Rate, feeBPS: int) { DeskBuy(sup, r, feeBPS).0 >= units }

  /** What is left of `sup` after the desk's fee. */
  function Net(sup: int, feeBPS: int): int { sup * (BPS - feeBPS) / BPS }

  lemma FeeLeavesNet(sup: int, r: Rate, feeBPS: int)
    requires 0 < sup <= MAX64 && r.Valid() && 0 <= feeBPS < BPS
    ensures DeskBuy(sup, r, feeBPS) == (ToLocalFloor(r, Net(sup, feeBPS)), sup - Net(sup, feeBPS))
    ensures 0 <= Net(sup, feeBPS) <= sup
  {
    var n := sup * feeBPS;
    DivMod(n, BPS);
    assert sup * (BPS - feeBPS) == sup * BPS - n;
    assert n >= 0 && n <= sup * BPS;
    DivAtLeast(n, BPS, 0);
    DivGrows(n, sup * BPS, BPS);
    QuotientIs(sup * BPS, BPS, sup);
    if n % BPS == 0 {
      QuotientIs(sup * BPS - n, BPS, sup - n / BPS);
    } else {
      QuotientIs(sup * BPS - n, BPS, sup - n / BPS - 1);
    }
  }

  /** The fee is the least whole amount that is at least its share of what is paid. */
  lemma NetIsWhatTheFeeLeaves(amount: int, feeBPS: int, fee: int)
    requires amount >= 0 && 0 <= feeBPS < BPS
    ensures fee >= amount - Net(amount, feeBPS) <==> fee * BPS >= amount * feeBPS
  {
    DivAtLeast(amount * (BPS - feeBPS), BPS, amount - fee);
    assert amount * (BPS - feeBPS) == amount * BPS - amount * feeBPS;
  }

  /** The desk keeps the same fee out of units sold to it, and pays what the rest is worth. */
  lemma SaleLeavesNet(units: int, r: Rate, feeBPS: int)
    requires 0 < units <= MAX64 && r.Valid() && 0 <= feeBPS < BPS
    ensures DeskSell(units, r, feeBPS) == (ToSUPFloor(r, Net(units, feeBPS)), units - Net(units, feeBPS))
    ensures 0 <= Net(units, feeBPS) <= units
  {
    hide ToLocalFloor, ToSUPFloor;
    FeeLeavesNet(units, Rate(1, 1), feeBPS);
    SameFee(units, r, feeBPS);
  }

  lemma SameFee(amount: int, r: Rate, feeBPS: int)
    requires 0 < amount <= MAX64 && r.Valid() && 0 <= feeBPS < BPS
    ensures DeskSell(amount, r, feeBPS).1 == DeskBuy(amount, Rate(1, 1), feeBPS).1
    ensures DeskSell(amount, r, feeBPS).0 == ToSUPFloor(r, amount - DeskSell(amount, r, feeBPS).1)
  {
    var n := amount * feeBPS;
    assert 0 <= n <= amount * BPS;
    DivAtLeast(n, BPS, 0);
    DivGrows(n, amount * BPS, BPS);
    QuotientIs(amount * BPS, BPS, amount);
  }

  predicate NetConverts(sup: int, r: Rate, feeBPS: int) { MulDiv(Net(sup, feeBPS), r.Num(), r.Den()).Quotient? }

  /** Below an amount whose net converts, paying more never buys less. */
  lemma BuyGrows(sup: int, more: int, r: Rate, feeBPS: int)
    requires 0 < sup <= more <= MAX64 && r.Valid() && 0 <= feeBPS < BPS
    requires NetConverts(more, r, feeBPS)
    ensures NetConverts(sup, r, feeBPS)
    ensures DeskBuy(sup, r, feeBPS).0 <= DeskBuy(more, r, feeBPS).0
  {
    FeeLeavesNet(sup, r, feeBPS);
    FeeLeavesNet(more, r, feeBPS);
    Scales(sup, more, BPS - feeBPS);
    DivGrows(sup * (BPS - feeBPS), more * (BPS - feeBPS), BPS);
    Scales(Net(sup, feeBPS), Net(more, feeBPS), r.Num());
    DivGrows(Net(sup, feeBPS) * r.Num(), Net(more, feeBPS) * r.Num(), r.Den());
  }

  /** The closed-form starting point of the desk's search: the SUP the units come to, rounded up past the
      fee. */
  function Estimate(units: int, r: Rate, feeBPS: int): Quotient
    requires feeBPS < BPS
  {
    match MulDiv(units, r.Den(), r.Num())
    case Overflow => Overflow
    case Quotient(q, _) => MulDiv(Wrap(q + 1), BPS, BPS - feeBPS)
  }

  /** The request is one the desk's search can price inside 64 bits. */
  predicate Priceable(units: int, r: Rate, feeBPS: int) {
    && units > 0 && r.Valid() && 0 <= feeBPS < BPS
    && Estimate(units, r, feeBPS).Quotient?
    && Estimate(units, r, feeBPS).q + 2 <= MAX64
    && NetConverts(Estimate(units, r, feeBPS).q + 1, r, feeBPS)
  }

  /** One SUP above the estimate already buys the units, as long as the conversion stays in range. */
  lemma EstimateSuffices(units: int, r: Rate, feeBPS: int)
    requires Priceable(units, r, feeBPS)
    ensures Buys(Estimate(units, r, feeBPS).q + 1, units, r, feeBPS)
  {
    hide Wrap, Net;
    var e := Estimate(units, r, feeBPS).q;
    var q := units * r.Den() / r.Num();
    FirstGuessFits(units, r, feeBPS);
    EstimateIsNatural(units, r, feeBPS);
    FeeLeavesNet(e + 1, r, feeBPS);
    assert Net(e + 1, feeBPS) == (e + 1) * (BPS - feeBPS) / BPS by { NetIs(e + 1, feeBPS); }
    EstimateCovers(units, r.Num(), r.Den(), BPS - feeBPS, q, e);
  }

  lemma NetIs(sup: int, feeBPS: int)
    ensures Net(sup, feeBPS) == sup * (BPS - feeBPS) / BPS
  {
  }

  lemma FirstGuessFits(units: int, r: Rate, feeBPS: int)
    requires units > 0 && r.Valid() && 0 <= feeBPS < BPS && Estimate(units, r, feeBPS).Quotient?
    ensures r.Num() > 0
    ensures Estimate(units, r, feeBPS).q == (units * r.Den() / r.Num() + 1) * BPS / (BPS - feeBPS)
  {
    var q := units * r.Den() / r.Num();
    DivAtLeast(units * r.Den(), r.Num(), 0);
    assert 0 <= q <= MAX64;
    assert q == MAX64 ==> Wrap(q + 1) < 0;
  }

  lemma EstimateIsNatural(units: int, r: Rate, feeBPS: int)
    requires 0 <= feeBPS < BPS && Estimate(units, r, feeBPS).Quotient?
    ensures Estimate(units, r, feeBPS).q >= 0
  {
    var q := MulDiv(units, r.Den(), r.Num()).q;
    DivAtLeast(Wrap(q + 1) * BPS, BPS - feeBPS, 0);
  }

  /** Rounding the price and the fee up by one each is enough to cover the units. */
  lemma EstimateCovers(units: int, num: int, den: int, keep: int, q: int, e: int)
    requires units > 0 && num > 0 && den > 0 && 0 < keep
    requires q == units * den / num && e == (q + 1) * BPS / keep
    ensures (e + 1) * keep / BPS * num / den >= units
  {
    DivMod(units * den, num);
    Spread(q, 1, num);
    assert units * den <= (q + 1) * num;
    DivMod((q + 1) * BPS, keep);
    Spread(e, 1, keep);
    var net := (e + 1) * keep / BPS;
    DivAtLeast((e + 1) * keep, BPS, q + 1);
    Scales(q + 1, net, num);
    DivAtLeast(net * num, den, units);
  }

  ghost predicate LeastPrice(cost: int, units: int, r: Rate, feeBPS: int) {
    cost > 0 && Buys(cost, units, r, feeBPS) && forall s | 0 < s < cost :: !Buys(s, units, r, feeBPS)
  }

  /** What the desk's search returns: the least price, or nothing when it cannot be computed. */
  ghost function DeskCost(units: int, r: Rate, feeBPS: int): (cost: int)
    ensures Priceable(units, r, feeBPS) ==> LeastPrice(cost, units, r, feeBPS) && cost <= MAX64
    ensures !Priceable(units, r, feeBPS) ==> cost == 0
  {
    if !Priceable(units, r, feeBPS) then 0
    else
      EstimateSuffices(units, r, feeBPS);
      LeastExists(Estimate(units, r, feeBPS).q + 1, units, r, feeBPS);
      var cost :| LeastPrice(cost, units, r, feeBPS) && cost <= Estimate(units, r, feeBPS).q + 1;
      cost
  }

  lemma {:induction false} LeastExists(sup: int, units: int, r: Rate, feeBPS: int)
    requires sup > 0 && Buys(sup, units, r, feeBPS)
    ensures exists cost :: LeastPrice(cost, units, r, feeBPS) && cost <= sup
    decreases sup
  {
    if s :| 0 < s < sup && Buys(s, units, r, feeBPS) {
      LeastExists(s, units, r, feeBPS);
    } else {
      assert LeastPrice(sup, units, r, feeBPS);
    }
  }

  lemma LeastPriceIsUnique(a: int, b: int, units: int, r: Rate, feeBPS: int)
    requires LeastPrice(a, units, r, feeBPS) && LeastPrice(b, units, r, feeBPS)
    ensures a == b
  {
  }

  /** Beyond an amount whose net is out of range no amount buys anything. */
  lemma OutOfRangeBuysNothing(sup: int, more: int, units: int, r: Rate, feeBPS: int)
    requires 0 < sup <= more <= MAX64 && units > 0 && r.Valid() && 0 <= feeBPS < BPS
    requires !NetConverts(sup, r, feeBPS)
    ensures !Buys(more, units, r, feeBPS)
  {
    FeeLeavesNet(more, r, feeBPS);
    if NetConverts(more, r, feeBPS) {
      BuyGrows(sup, more, r, feeBPS);
    }
  }

  /** The least SUP whose net is worth the units, in exact arithmetic. */
  function ExactPrice(units: int, r: Rate, feeBPS: int): int
    requires r.Num() > 0 && feeBPS < BPS
  {
    CeilDiv(CeilDiv(units * r.Den(), r.Num()) * BPS, BPS - feeBPS)
  }

  lemma AtLeastCeil(v: int, n: int, d: int)
    requires d > 0
    ensures v >= CeilDiv(n, d) <==> v * d >= n
  {
    DivMod(n, d);
    Scales(v, n / d, d);
    Scales(n / d, v, d);
    Scales(n / d + 1, v, d);
    Spread(n / d, 1, d);
  }

  /** An amount buys the units exactly when it is at least the exact price and its net still converts. */
  lemma BuysFromTheExactPrice(sup: int, units: int, r: Rate, feeBPS: int)
    requires 0 < sup <= MAX64 && units > 0 && r.Valid() && 0 <= feeBPS < BPS && r.Num() > 0
    ensures Buys(sup, units, r, feeBPS) <==> sup >= ExactPrice(units, r, feeBPS) && NetConverts(sup, r, feeBPS)
  {
    hide Wrap, CeilDiv;
    FeeLeavesNet(sup, r, feeBPS);
    var net, least := Net(sup, feeBPS), CeilDiv(units * r.Den(), r.Num());
    DivAtLeast(net * r.Num(), r.Den(), units);
    AtLeastCeil(net, units * r.Den(), r.Num());
    DivAtLeast(sup * (BPS - feeBPS), BPS, least);
    AtLeastCeil(sup, least * BPS, BPS - feeBPS);
  }

  lemma ExactPriceIsPositive(units: int, r: Rate, feeBPS: int)
    requires units > 0 && r.Valid() && 0 <= feeBPS < BPS && r.Num() > 0
    ensures ExactPrice(units, r, feeBPS) > 0
  {
    hide Wrap;
    var least := CeilDiv(units * r.Den(), r.Num());
    Scales(0, units, r.Den());
    AtLeastCeil(0, units * r.Den(), r.Num());
    AtLeastCeil(0, least * BPS, BPS - feeBPS);
  }

  /** Some amount buys the units: the exact price is an amount, and its net converts. */
  predicate ForSale(units: int, r: Rate, feeBPS: int)
    requires 0 <= feeBPS < BPS
  {
    r.Num() > 0 && ExactPrice(units, r, feeBPS) <= MAX64 && NetConverts(ExactPrice(units, r, feeBPS), r, feeBPS)
  }

  lemma ForSaleIsForSale(units: int, r: Rate, feeBPS: int)
    requires units > 0 && r.Valid() && 0 <= feeBPS < BPS
    ensures ForSale(units, r, feeBPS) <==> exists sup :: 0 < sup <= MAX64 && Buys(sup, units, r, feeBPS)
  {
    hide Wrap, ExactPrice, Buys;
    if ForSale(units, r, feeBPS) {
      var sup := ExactPrice(units, r, feeBPS);
      ExactPriceIsPositive(units, r, feeBPS);
      BuysFromTheExactPrice(sup, units, r, feeBPS);
    }
    if sup :| 0 < sup <= MAX64 && Buys(sup, units, r, feeBPS) {
      NoRateNoUnits(sup, units, r, feeBPS);
      BuysFromTheExactPrice(sup, units, r, feeBPS);
      ExactPriceIsPositive(units, r, feeBPS);
      BuyGrows(ExactPrice(units, r, feeBPS), sup, r, feeBPS);
    }
  }

  lemma NoRateNoUnits(sup: int, units: int, r: Rate, feeBPS: int)
    requires 0 < sup <= MAX64 && units > 0 && r.Valid() && 0 <= feeBPS < BPS && Buys(sup, units, r, feeBPS)
    ensures r.Num() > 0
  {
    hide Wrap, Net;
    FeeLeavesNet(sup, r, feeBPS);
    if r.Num() == 0 {
      QuotientIs(0, r.Den(), 0);
    }
  }

  /** The search answers with the exact price whenever it answers; and it answers nothing although some
      amount buys the units exactly when they are for sale but out of its 64-bit reach. */
  lemma NothingMayHideAPrice(units: int, r: Rate, feeBPS: int)
    requires units > 0 && r.Valid() && 0 <= feeBPS < BPS
    ensures Priceable(units, r, feeBPS) ==> r.Num() > 0 && DeskCost(units, r, feeBPS) == ExactPrice(units, r, feeBPS)
    ensures DeskCost(units, r, feeBPS) == 0 && (exists sup :: 0 < sup <= MAX64 && Buys(sup, units, r, feeBPS))
      <==> ForSale(units, r, feeBPS) && !Priceable(units, r, feeBPS)
  {
    hide Wrap, ExactPrice, Buys, ForSale, Estimate, DeskCost, NetConverts;
    ForSaleIsForSale(units, r, feeBPS);
    if Priceable(units, r, feeBPS) {
      PriceableIsExact(units, r, feeBPS);
    }
  }

  lemma PriceableIsExact(units: int, r: Rate, feeBPS: int)
    requires Priceable(units, r, feeBPS)
    ensures r.Num() > 0 && DeskCost(units, r, feeBPS) == ExactPrice(units, r, feeBPS)
  {
    hide Wrap, ExactPrice, Estimate, NetConverts, Buys;
    var cost := DeskCost(units, r, feeBPS);
    assert LeastPrice(cost, units, r, feeBPS) && cost <= MAX64;
    NoRateNoUnits(cost, units, r, feeBPS);
    var exact := ExactPrice(units, r, feeBPS);
    ExactPriceIsPositive(units, r, feeBPS);
    BuysFromTheExactPrice(cost, units, r, feeBPS);
    if exact < cost {
      BuysFromTheExactPrice(exact, units, r, feeBPS);
      BuyGrows(exact, cost, r, feeBPS);
    }
  }

  /** At one unit per SUP, whatever the fee: the greatest amount buys what is left of it after the fee, and
      the search finds no price for that. */
  lemma TheGreatestAmountHasNoPrice(feeBPS: int)
    requires 0 <= feeBPS < BPS
    ensures var r, units := Rate(1, PPM), Net(MAX64, feeBPS);
      units > 0 && DeskCost(units, r, feeBPS) == 0 && Buys(MAX64, units, r, feeBPS)
  {
    hide DeskCost;
    var r, keep, units := Rate(1, PPM), BPS - feeBPS, Net(MAX64, feeBPS);
    assert r.Num() == PPM;
    FeeLeavesNet(MAX64, r, feeBPS);
    Scales(1, keep, MAX64);
    DivAtLeast(MAX64 * keep, BPS, 1);
    QuotientIs(units * PPM, PPM, units);
    DivAtLeast(MAX64 * keep, BPS, units + 1);
    DivAtLeast((units + 1) * BPS, keep, MAX64);
    assert Wrap(units + 1) == units + 1 || units == MAX64;
  }

  /** Steps down from `top` while one SUP less still buys the units. */
  method WalkDown(top: int, units: int, r: Rate, feeBPS: int) returns (sup: int)
    ensures sup <= top && (sup < top ==> sup > 0 && Buys(sup, units, r, feeBPS))
    ensures sup > 1 ==> !Buys(sup - 1, units, r, feeBPS)
    ensures sup < top ==> Buys(top - 1, units, r, feeBPS)
  {
    sup := top;
    while sup > 1
      invariant sup <= top && (sup < top ==> sup > 0 && Buys(sup, units, r, feeBPS) && Buys(top - 1, units, r, feeBPS))
    {
      if DeskBuy(sup - 1, r, feeBPS).0 < units {
        break;
      }
      sup := sup - 1;
    }
  }

  function Climbed(start: int, steps: nat): int { Wrap(start + steps) }

  /** Up to a thousand steps up, to the first amount that buys the units. */
  method ClimbUp(start: int, units: int, r: Rate, feeBPS: int) returns (cost: int)
    requires -MAX64 - 1 <= start <= MAX64
    ensures Buys(start, units, r, feeBPS) ==> cost == start
    ensures cost != 0 ==> exists k: nat :: k < 1_000 && cost == Climbed(start, k) && Buys(cost, units, r, feeBPS)
  {
    var sup := start;
    for steps := 0 to 1_000
      invariant sup == Climbed(start, steps)
      invariant Buys(start, units, r, feeBPS) ==> steps == 0
    {
      if DeskBuy(sup, r, feeBPS).0 >= units {
        return sup;
      }
      WrapAdds(start + steps, 1);
      sup := Wrap(sup + 1);
    }
    return 0;
  }

  lemma WrapAdds(v: int, k: int)
    ensures Wrap(Wrap(v) + k) == Wrap(v + k)
  {
  }

  lemma WrapsPastTheTop(v: int)
    requires MAX64 < v <= MAX64 + 2_000
    ensures Wrap(v) < 0
  {
  }

  /** Starting two above the estimate, the walk ends on the least price when there is one. */
  lemma WalkFindsLeast(sup: int, units: int, r: Rate, feeBPS: int)
    requires Priceable(units, r, feeBPS)
    requires sup <= Estimate(units, r, feeBPS).q + 2
    requires sup < Estimate(units, r, feeBPS).q + 2 ==> sup > 0 && Buys(sup, units, r, feeBPS)
    requires sup > 1 ==> !Buys(sup - 1, units, r, feeBPS)
    ensures LeastPrice(sup, units, r, feeBPS)
  {
    var e := Estimate(units, r, feeBPS).q;
    EstimateSuffices(units, r, feeBPS);
    EstimateIsNatural(units, r, feeBPS);
    assert sup <= e + 1;
    forall s | 0 < s < sup
      ensures !Buys(s, units, r, feeBPS)
    {
      BuyGrows(sup - 1, e + 1, r, feeBPS);
      BuyGrows(s, sup - 1, r, feeBPS);
    }
  }

  /** When the request is out of range, nothing the search tries buys the units. */
  lemma UnpriceableFindsNothing(v: int, units: int, r: Rate, feeBPS: int)
    requires 0 < units && r.Valid() && 0 <= feeBPS < BPS && !Priceable(units, r, feeBPS)
    requires Estimate(units, r, feeBPS).Quotient?
    requires Estimate(units, r, feeBPS).q + 2 <= v <= MAX64 + 2_000
    ensures !Buys(Wrap(v), units, r, feeBPS)
  {
    EstimateIsNatural(units, r, feeBPS);
    var e := Estimate(units, r, feeBPS).q;
    if v > MAX64 {
      WrapsPastTheTop(v);
    } else {
      assert e + 2 <= MAX64;
      OutOfRangeBuysNothing(e + 1, v, units, r, feeBPS);
    }
  }

  /** The desk's search: from two above the estimate down to the least price, else up a bounded way. */
  method DeskBuyCost(units: int, r: Rate, feeBPS: int) returns (cost: int)
    ensures cost == DeskCost(units, r, feeBPS)
  {
    if units <= 0 || !r.Valid() || feeBPS < 0 || feeBPS >= BPS {
      return 0;
    }
    var first := MulDiv(units, r.Den(), r.Num());
    if first.Overflow? {
      return 0;
    }
    var est := MulDiv(Wrap(first.q + 1), BPS, BPS - feeBPS);
    if est.Overflow? {
      return 0;
    }
    assert est == Estimate(units, r, feeBPS);
    cost := SearchFrom(est.q, units, r, feeBPS);
  }

  /** The walk down and the climb up. */
  method SearchFrom(est: int, units: int, r: Rate, feeBPS: int) returns (cost: int)
    requires 0 < units && r.Valid() && 0 <= feeBPS < BPS
    requires Estimate(units, r, feeBPS).Quotient? && Estimate(units, r, feeBPS).q == est
    ensures cost == DeskCost(units, r, feeBPS)
  {
    hide Wrap, MulDiv, Buys, Estimate, NetConverts, LeastPrice, DeskBuy;
    WrapIsStored(est + 2);
    EstimateIsNatural(units, r, feeBPS);
    var sup := WalkDown(Wrap(est + 2), units, r, feeBPS);
    if Priceable(units, r, feeBPS) {
      WalkFindsLeast(sup, units, r, feeBPS);
      LeastPriceIsUnique(sup, DeskCost(units, r, feeBPS), units, r, feeBPS);
      LeastBuys(sup, units, r, feeBPS);
    }
    cost := ClimbUp(sup, units, r, feeBPS);
    if !Priceable(units, r, feeBPS) {
      UnpriceableSearch(sup, cost, units, r, feeBPS);
    }
  }

  lemma LeastBuys(cost: int, units: int, r: Rate, feeBPS: int)
    requires LeastPrice(cost, units, r, feeBPS)
    ensures cost > 0 && Buys(cost, units, r, feeBPS)
  {
  }

  lemma WrapIsStored(v: int)
    ensures -MAX64 - 1 <= Wrap(v) <= MAX64 && (-MAX64 - 1 <= v <= MAX64 ==> Wrap(v) == v)
  {
  }

  lemma UnpriceableSearch(sup: int, cost: int, units: int, r: Rate, feeBPS: int)
    requires 0 < units && r.Valid() && 0 <= feeBPS < BPS && !Priceable(units, r, feeBPS)
    requires Estimate(units, r, feeBPS).Quotient?
    requires var top := Wrap(Estimate(units, r, feeBPS).q + 2);
      sup <= top && (sup < top ==> sup > 0 && Buys(top - 1, units, r, feeBPS))
    requires cost != 0 ==> exists k: nat :: k < 1_000 && cost == Climbed(sup, k) && Buys(cost, units, r, feeBPS)
    ensures cost == 0
  {
    var e := Estimate(units, r, feeBPS).q;
    EstimateIsNatural(units, r, feeBPS);
    if e + 2 <= MAX64 {
      OutOfRangeBuysNothing(e + 1, e + 1, units, r, feeBPS);
    } else {
      WrapsPastTheTop(e + 2);
    }
    assert sup == Wrap(e + 2);
    if cost != 0 {
      var k: nat :| k < 1_000 && cost == Climbed(sup, k) && Buys(cost, units, r, feeBPS);
      WrapAdds(e + 2, k);
      UnpriceableFindsNothing(e + 2 + k, units, r, feeBPS);
    }
  }

  /** Buying units and selling them straight back never makes money, and loses some under any fee. */
  lemma RoundTripLosesTheFee(sup: int, r: Rate, feeBPS: int)
    requires 0 < sup <= MAX64 && r.Valid() && 0 <= feeBPS < BPS
    ensures var back := DeskSell(DeskBuy(sup, r, feeBPS).0, r, feeBPS).0;
      back <= sup && (feeBPS > 0 ==> back < sup)
  {
    FeeLeavesNet(sup, r, feeBPS);
    var net, num, den := Net(sup, feeBPS), r.Num(), r.Den();
    var units := DeskBuy(sup, r, feeBPS).0;
    if units > 0 {
      DivMod(net * num, den);
      DivAtLeast(net * num, den, units);
      if feeBPS > 0 {
        FeeTakesSome(sup, feeBPS);
      }
      WorthAtMost(units, net, r, feeBPS);
    }
  }

  lemma FeeTakesSome(sup: int, feeBPS: int)
    requires sup > 0 && 0 < feeBPS < BPS
    ensures Net(sup, feeBPS) < sup
  {
    Scales(1, sup, feeBPS);
    assert sup * (BPS - feeBPS) == sup * BPS - sup * feeBPS;
    DivAtLeast(sup * (BPS - feeBPS), BPS, sup);
  }

  /** Units that cost at most `net` SUP sell for at most `net` SUP. */
  lemma WorthAtMost(units: int, net: int, r: Rate, feeBPS: int)
    requires 0 < units <= MAX64 && 0 <= net && r.Valid() && 0 <= feeBPS < BPS
    requires units * r.Den() <= net * r.Num()
    ensures DeskSell(units, r, feeBPS).0 <= net
  {
    var num, den := r.Num(), r.Den();
    var n := units * feeBPS;
    DivMod(n, BPS);
    DivAtLeast(n, BPS, 0);
    var q := n / BPS;
    var rest := units - (if n % BPS > 0 then q + 1 else q);
    Scales(rest, units, den);
    if MulDiv(rest, den, num).Quotient? {
      assert rest * den < net * num + num;
      DivAtLeast(rest * den, num, net + 1);
    }
  }

  // ----- issuing and burning

  datatype Minted = Minted(units: int, basisSUP: int, feeSUP: int) | BadRate

  /** The units of a deposit, at the rate and after the fee; the basis is the deposit without the fee. */
  function Mint(deposit: int, r: Rate, mintFeeBPS: int): Minted {
    if !r.Valid() || deposit < 0 || mintFeeBPS < 0 || mintFeeBPS > BPS then BadRate
    else
      var kept := BPS - mintFeeBPS;
      match (MulDiv(deposit, kept, BPS), MulDiv(Wrap(deposit * kept), r.Num(), Wrap(r.Den() * BPS)))
      case (Quotient(net, _), Quotient(units, _)) => Minted(units, net, deposit - net)
      case _ => BadRate
  }

  /** The minted units are worth no more than the deposit less its fee. */
  predicate WorthTheDeposit(deposit: int, r: Rate, mintFeeBPS: int, units: int) {
    units * (r.Den() * BPS) <= deposit * (BPS - mintFeeBPS) * r.Num()
  }

  /** The backing a mint adds is never more than the deposit; and while the scaled reference rate stays in 64
      bits, the units are worth no more than the deposit less its fee: nothing is printed for free. */
  lemma MintIsBacked(deposit: int, r: Rate, mintFeeBPS: int)
    requires Mint(deposit, r, mintFeeBPS).Minted?
    ensures var m := Mint(deposit, r, mintFeeBPS);
      && 0 <= m.basisSUP <= deposit && m.basisSUP + m.feeSUP == deposit && m.units >= 0
      && (r.Den() * BPS <= MAX64 ==> WorthTheDeposit(deposit, r, mintFeeBPS, m.units))
  {
    ShareOf(deposit, BPS - mintFeeBPS);
    var kept, num := deposit * (BPS - mintFeeBPS), r.Num();
    MulDivBounds(Wrap(kept), num, Wrap(r.Den() * BPS));
    Scales(0, deposit, BPS - mintFeeBPS);
    WrapIsNoMore(kept);
    Scales(Wrap(kept), kept, num);
  }

  /** Only an invalid rate, a negative deposit, a fee that is no share, or an amount out of range is refused: a
      deposit of nothing mints nothing, and a fee of everything leaves nothing to mint from. */
  lemma MintRefusesNonsense(deposit: int, r: Rate, mintFeeBPS: int)
    ensures r.r0 <= 0 || r.xRefPPM <= 0 || deposit < 0 || mintFeeBPS < 0 || mintFeeBPS > BPS ==>
      Mint(deposit, r, mintFeeBPS).BadRate?
    ensures r.r0 > 0 && r.xRefPPM > 0 && r.Num() >= 0 && r.Den() * BPS <= MAX64 ==>
      && (0 <= mintFeeBPS <= BPS ==> Mint(0, r, mintFeeBPS) == Minted(0, 0, 0))
      && (deposit >= 0 ==> Mint(deposit, r, BPS) == Minted(0, 0, deposit))
  {
    hide Wrap;
    if r.r0 > 0 && r.xRefPPM > 0 && r.Num() >= 0 && r.Den() * BPS <= MAX64 {
      WrapKeeps(r.Den() * BPS);
      WrapKeeps(0);
      QuotientIs(0, r.Den() * BPS, 0);
      QuotientIs(0, BPS, 0);
      ZeroTimes(r.Num(), BPS - mintFeeBPS, deposit);
    }
  }

  lemma ZeroTimes(a: int, b: int, c: int)
    ensures 0 * a == 0 && 0 * b == 0 && c * (BPS - BPS) == 0
  {
  }

  /** Within 64 bits a deposit mints the greatest number of units worth at most what is left of it, and adds
      the greatest basis that is at most that. */
  lemma MintIsTheMost(deposit: int, r: Rate, mintFeeBPS: int, units: int, basis: int)
    requires Mint(deposit, r, mintFeeBPS).Minted?
    requires deposit * (BPS - mintFeeBPS) <= MAX64 && r.Den() * BPS <= MAX64
    ensures units <= Mint(deposit, r, mintFeeBPS).units <==> WorthTheDeposit(deposit, r, mintFeeBPS, units)
    ensures basis <= Mint(deposit, r, mintFeeBPS).basisSUP <==> basis * BPS <= deposit * (BPS - mintFeeBPS)
  {
    hide Wrap;
    var kept := deposit * (BPS - mintFeeBPS);
    Scales(0, deposit, BPS - mintFeeBPS);
    WrapKeeps(kept);
    WrapKeeps(r.Den() * BPS);
    DivAtLeast(kept * r.Num(), r.Den() * BPS, units);
    DivAtLeast(kept, BPS, basis);
  }

  lemma WrapIsNoMore(v: int)
    requires v >= 0
    ensures Wrap(v) <= v
  {
  }

  /** No mint at this rate prints for free. */
  ghost predicate NeverPrintsForFree(r: Rate) {
    forall deposit, fee | Mint(deposit, r, fee).Minted? :: WorthTheDeposit(deposit, r, fee, Mint(deposit, r, fee).units)
  }

  /** A rate never prints for free exactly when the scaled reference rate stays in 64 bits, or wraps to
      nothing positive, or no unit can be minted at all. */
  lemma WhichRatesPrintForFree(r: Rate)
    requires r.Valid()
    ensures NeverPrintsForFree(r) <==> r.Num() <= 0 || r.Den() * BPS <= MAX64 || Wrap(r.Den() * BPS) <= 0
  {
    hide Wrap, WorthTheDeposit;
    if r.Num() <= 0 || r.Den() * BPS <= MAX64 || Wrap(r.Den() * BPS) <= 0 {
      forall deposit, fee | Mint(deposit, r, fee).Minted?
        ensures WorthTheDeposit(deposit, r, fee, Mint(deposit, r, fee).units)
      {
        if r.Den() * BPS <= MAX64 {
          MintIsBacked(deposit, r, fee);
        } else {
          NothingMinted(deposit, r, fee);
        }
      }
    } else {
      PrintsForFree(r);
    }
  }

  /** With a rate of nothing a deposit buys nothing; with a negative one, or a negative divisor, no mint. */
  lemma NothingMinted(deposit: int, r: Rate, mintFeeBPS: int)
    requires Mint(deposit, r, mintFeeBPS).Minted? && (r.Num() <= 0 || Wrap(r.Den() * BPS) <= 0)
    ensures WorthTheDeposit(deposit, r, mintFeeBPS, Mint(deposit, r, mintFeeBPS).units)
  {
    hide Wrap;
    var kept, num := Wrap(deposit * (BPS - mintFeeBPS)), r.Num();
    assert num == 0;
    assert kept * num == 0;
    QuotientIs(0, Wrap(r.Den() * BPS), 0);
  }

  /** The least deposit that buys one unit by the wrapped divisor costs far less than a unit is worth. */
  lemma PrintsForFree(r: Rate)
    requires r.Valid() && r.Num() > 0 && Wrap(r.Den() * BPS) > 0 && r.Den() * BPS > MAX64
    ensures exists deposit, fee ::
      Mint(deposit, r, fee).Minted? && !WorthTheDeposit(deposit, r, fee, Mint(deposit, r, fee).units)
  {
    hide Wrap;
    var d, num, fee := Wrap(r.Den() * BPS), r.Num(), BPS - 1;
    var deposit := CeilDiv(d, num);
    WrapLosesTurns(r.Den() * BPS);
    NumIsStored(r);
    LeastThatCovers(d, num, deposit);
    assert Wrap(deposit) == deposit by { WrapKeeps(deposit); }
    DivGrows(deposit, MAX64 * BPS, BPS);
    QuotientIs(MAX64 * BPS, BPS, MAX64);
    DivAtLeast(deposit, BPS, 0);
    var units := deposit * num / d;
    DivAtLeast(deposit * num, d, 1);
    DivMod(deposit * num, d);
    Scales(num, num, 1);
    FewUnits(deposit * num, d, num);
    assert MulDiv(deposit, 1, BPS).Quotient?;
    assert MulDiv(deposit, num, d) == Quotient(units, deposit * num % d);
    assert Mint(deposit, r, fee).Minted? && Mint(deposit, r, fee).units == units;
    Scales(1, units, r.Den() * BPS);
    assert !WorthTheDeposit(deposit, r, fee, units) by { NotWorth(deposit, r, units); }
  }

  lemma NotWorth(deposit: int, r: Rate, units: int)
    requires units * (r.Den() * BPS) > deposit * r.Num()
    ensures !WorthTheDeposit(deposit, r, BPS - 1, units)
  {
    assert deposit * (BPS - (BPS - 1)) == deposit;
  }

  lemma FewUnits(n: int, d: int, num: int)
    requires 0 < d && 0 < num <= MAX64 && 0 <= n < d + num
    ensures n / d <= MAX64
  {
    Scales(1, d, MAX64);
    Scales(1, MAX64 + 1, d);
    Spread(MAX64, 1, d);
    if n / d > MAX64 {
      DivAtLeast(n, d, MAX64 + 1);
    }
  }

  lemma LeastThatCovers(d: int, num: int, deposit: int)
    requires 0 < d <= MAX64 && 0 < num && deposit == CeilDiv(d, num)
    ensures 0 < deposit <= d && d <= deposit * num < d + num
  {
    AtLeastCeil(deposit, d, num);
    AtLeastCeil(deposit - 1, d, num);
    Spread(deposit, -1, num);
    AtLeastCeil(0, d, num);
    Scales(1, num, d);
    AtLeastCeil(d, d, num);
  }

  lemma WrapLosesTurns(v: int)
    requires v > MAX64
    ensures Wrap(v) <= v - TWO64 && Wrap(v) <= MAX64
  {
  }

  lemma WrapKeeps(v: int)
    requires -MAX64 - 1 <= v <= MAX64
    ensures Wrap(v) == v
  {
  }

  lemma NumIsStored(r: Rate)
    ensures r.Num() <= MAX64
  {
  }

  /** One such rate, at which a unit is worth more than a thousand million SUP: one SUP mints a million units. */
  lemma OneSUPMintsAMillion()
    ensures var r := Rate(1, 1_844_674_407_370_956);
      && Mint(1, r, 0) == Minted(1_192_748, 1, 0)
      && !WorthTheDeposit(1, r, 0, 1_192_748)
  {
    var r := Rate(1, 1_844_674_407_370_956);
    assert r.Num() == PPM;
    assert Wrap(r.Den() * BPS) == r.Den() * BPS - TWO64;
  }

  lemma ShareOf(amount: int, bps: int)
    requires amount >= 0 && 0 <= bps <= BPS
    ensures 0 <= amount * bps / BPS <= amount
  {
    Scales(bps, BPS, amount);
    Scales(0, bps, amount);
    DivAtLeast(amount * bps, BPS, 0);
    DivGrows(amount * bps, amount * BPS, BPS);
    QuotientIs(amount * BPS, BPS, amount);
  }

  lemma MulDivBounds(a: int, b: int, c: int)
    requires MulDiv(a, b, c).Quotient?
    ensures 0 <= MulDiv(a, b, c).q <= MAX64 && MulDiv(a, b, c).q * c <= a * b
  {
    DivMod(a * b, c);
    DivAtLeast(a * b, c, 0);
  }

  /** What a burn takes off the basis: in proportion to the supply, rounded down, and all of it with the
      last unit. */
  function BurnBasis(basis: int, supply: int, burn: int): int {
    if basis <= 0 || supply <= 0 || burn <= 0 then 0
    else if burn >= supply then basis
    else match MulDiv(basis, burn, supply)
      case Quotient(q, _) => q
      case Overflow => 0
  }

  /** A burn takes between nothing and the whole basis, never more than its exact share, and all of it
      with the last unit. */
  lemma BurnTakesItsShare(basis: int, supply: int, burn: int)
    requires basis >= 0
    ensures 0 <= BurnBasis(basis, supply, burn) <= basis
    ensures 0 <= burn <= supply ==> BurnBasis(basis, supply, burn) * supply <= basis * burn
    ensures 0 < supply <= burn ==> BurnBasis(basis, supply, burn) == basis
    ensures supply <= 0 || burn <= 0 ==> BurnBasis(basis, supply, burn) == 0
    ensures 0 < burn < supply && MulDiv(basis, burn, supply).Overflow? ==> BurnBasis(basis, supply, burn) == 0
  {
    if basis > 0 && supply > 0 && 0 < burn < supply && MulDiv(basis, burn, supply).Quotient? {
      MulDivBounds(basis, burn, supply);
      Scales(burn, supply, basis);
      DivGrows(basis * burn, basis * supply, supply);
      QuotientIs(basis * supply, supply, basis);
    }
  }

  /** And never a whole SUP less: what it takes is the greatest amount up to its exact share. */
  lemma BurnTakesNoLess(basis: int, supply: int, burn: int, share: int)
    requires 0 <= basis <= MAX64 && 0 < burn <= supply
    ensures share <= BurnBasis(basis, supply, burn) <==> share * supply <= basis * burn
  {
    Scales(0, basis, burn);
    Scales(burn, supply, basis);
    DivAtLeast(basis * burn, supply, share);
    DivGrows(basis * burn, basis * supply, supply);
    QuotientIs(basis * supply, supply, basis);
    if burn == supply {
      Scales(share, basis, supply);
      Scales(basis, share, supply);
    }
  }

  // ----- what an automatic charter costs

  datatype Terms = Terms(fee: int, minDeposit: int, shareBPS: int, floor: int)
  datatype CharterPlan = NoPlan | CharterPlan(fee: int, deposit: int)

  function PlanAuto(treasury: int, t: Terms, atFounding: bool): CharterPlan {
    if treasury < t.fee || t.fee < 0 || t.minDeposit <= 0 then NoPlan
    else if atFounding && treasury >= t.fee + t.minDeposit then CharterPlan(t.fee, t.minDeposit)
    else match MulDiv(treasury - t.fee, t.shareBPS, BPS)
      case Overflow => NoPlan
      case Quotient(share, _) =>
        var deposit := if t.minDeposit < share then t.minDeposit else share;
        if deposit < t.floor || deposit <= 0 then NoPlan else CharterPlan(t.fee, deposit)
  }

  /** A planned charter is one the treasury can pay, and never deposits more than the minimum asks. */
  lemma PlanIsAffordable(treasury: int, t: Terms, atFounding: bool)
    requires PlanAuto(treasury, t, atFounding).CharterPlan? && t.shareBPS <= BPS
    ensures var plan := PlanAuto(treasury, t, atFounding);
      plan.fee >= 0 && 0 < plan.deposit <= t.minDeposit && plan.fee + plan.deposit <= treasury
  {
    var rest := treasury - t.fee;
    if t.shareBPS >= 0 {
      ShareOf(rest, t.shareBPS);
    }
  }

  /** The terms ask for something, and the treasury covers the fee. */
  predicate MayCharter(treasury: int, t: Terms) { 0 <= t.fee <= treasury && t.minDeposit > 0 }

  /** A founding whose treasury covers the fee and the minimum deposits that minimum, in full. */
  predicate PaysInFull(treasury: int, t: Terms, atFounding: bool) {
    MayCharter(treasury, t) && atFounding && treasury >= t.fee + t.minDeposit
  }

  /** Any other charter may deposit this: no more than the minimum, nor than the allowed share of what the fee
      leaves. */
  predicate WithinShare(treasury: int, t: Terms, deposit: int) {
    deposit <= t.minDeposit && deposit * BPS <= (treasury - t.fee) * t.shareBPS
  }

  /** Exactly what is planned: the fee, and the whole minimum at a founding that covers both; otherwise the
      greatest deposit within the share; and no plan at all exactly when the fee is not covered, or that
      deposit is below the floor or nothing. */
  lemma PlanIsTheMost(treasury: int, t: Terms, atFounding: bool, deposit: int)
    requires treasury <= MAX64 && 0 <= t.shareBPS <= BPS
    ensures var plan := PlanAuto(treasury, t, atFounding);
      && (plan.CharterPlan? ==> plan.fee == t.fee && MayCharter(treasury, t))
      && (PaysInFull(treasury, t, atFounding) ==> plan == CharterPlan(t.fee, t.minDeposit))
      && (plan.CharterPlan? && !PaysInFull(treasury, t, atFounding) ==>
            (deposit <= plan.deposit <==> WithinShare(treasury, t, deposit)) && plan.deposit >= t.floor)
      && (plan.NoPlan? && MayCharter(treasury, t) && WithinShare(treasury, t, deposit) ==>
            deposit < t.floor || deposit <= 0)
  {
    if MayCharter(treasury, t) {
      var rest := treasury - t.fee;
      ShareOf(rest, t.shareBPS);
      Scales(0, rest, t.shareBPS);
      DivAtLeast(rest * t.shareBPS, BPS, deposit);
      assert MulDiv(rest, t.shareBPS, BPS).Quotient?;
    }
  }
}
