/** The demo city: roads, then seven centre-out packing passes over one terrain window. */
module CityLayout {
  import opened Terrain
  import opened Packing
  import opened Roads
  import opened CitySite
  import Sorting

  // ----- the building catalogue

  const CIVIC_SPECS: seq<Spec> := [
    Spec("civic_hall", 2, 2, 1, false, false),
    Spec("market", 3, 3, 1, false, false),
    Spec("bank", 3, 3, 1, false, false),
    Spec("school", 3, 3, 1, false, false),
    Spec("clinic", 3, 3, 1, false, false),
    Spec("police", 2, 2, 1, false, false),
    Spec("port", 2, 2, 1, true, false),
    Spec("mine", 2, 2, 1, false, true)]

  /** Each civic building is wanted once, the port alone on the coast, the mine alone by a deposit. */
  lemma EachCivicKindOnce(kind: string)
    requires kind in {"civic_hall", "market", "bank", "school", "clinic", "police", "port", "mine"}
    ensures |CIVIC_SPECS| == 8
    ensures exists i :: 0 <= i < 8 && CIVIC_SPECS[i].kind == kind
    ensures forall i | 0 <= i < 8 && CIVIC_SPECS[i].kind == kind ::
      var spec := CIVIC_SPECS[i];
      spec.count == 1 && spec.needCoast == (kind == "port") && spec.needMine == (kind == "mine")
  {
    assert CIVIC_SPECS[0].kind == "civic_hall" && CIVIC_SPECS[1].kind == "market" && CIVIC_SPECS[2].kind == "bank";
    assert CIVIC_SPECS[3].kind == "school" && CIVIC_SPECS[4].kind == "clinic" && CIVIC_SPECS[5].kind == "police";
    assert CIVIC_SPECS[6].kind == "port" && CIVIC_SPECS[7].kind == "mine";
  }

  const TOWER_OFFICE := Spec("tower_office", 3, 3, 0, false, false)
  const TOWER_RESIDENTIAL := Spec("tower_residential", 2, 2, 0, false, false)
  const MIDRISE := Spec("midrise", 2, 2, 0, false, false)
  const WIDE_MIDRISE := Spec("midrise", 3, 2, 0, false, false)
  const HOUSING := Spec("housing", 2, 2, 0, false, false)
  const PARK := Spec("park", 2, 2, 0, false, false)
  const FARM := Spec("farm", 2, 2, 0, false, false)

  const DOWNTOWN_SPECS := [TOWER_OFFICE, TOWER_RESIDENTIAL]
  const MIDRISE_SPECS := [MIDRISE, WIDE_MIDRISE]

  const DEPOSIT_MARGIN := 3

  // ----- the centre and the zones around it

  /** Four times the squared distance from the window's centre: whole numbers, since the centre of a
      window may lie between lots. */
  function CentreDistance(size: nat, p: Pos): int {
    Square(2 * p.x - (size - 1)) + Square(2 * p.y - (size - 1))
  }

  function Square(v: int): int { v * v }

  /** The window's middle, which lies between lots when the window is even. */
  function Middle(size: nat): real { (size - 1) as real / 2.0 }

  function SquaredDistance(size: nat, p: Pos): real {
    var dx, dy := p.x as real - Middle(size), p.y as real - Middle(size);
    dx * dx + dy * dy
  }

  /** Four times the squared distance, exactly. */
  lemma CentreDistanceMeasures(size: nat, p: Pos)
    ensures CentreDistance(size, p) as real == 4.0 * SquaredDistance(size, p)
  {
    DoubledSquare(p.x, size - 1);
    DoubledSquare(p.y, size - 1);
  }

  lemma DoubledSquare(v: int, w: int)
    ensures Square(2 * v - w) as real == 4.0 * ((v as real - w as real / 2.0) * (v as real - w as real / 2.0))
  {
    var d := 2 * v - w;
    SquareAsReal(d);
    assert d as real == 2.0 * (v as real - w as real / 2.0);
  }

  lemma {:induction false} SquareAsReal(v: int)
    ensures (v * v) as real == v as real * v as real
    decreases if v < 0 then -v else v
  {
    if v > 0 {
      SquareAsReal(v - 1);
      assert v * v == (v - 1) * (v - 1) + 2 * v - 1;
      assert (v - 1) as real == v as real - 1.0;
    } else if v < 0 {
      SquareAsReal(v + 1);
      assert v * v == (v + 1) * (v + 1) - 2 * v - 1;
      assert (v + 1) as real == v as real + 1.0;
    }
  }

  /** The middle is in the middle: the distance is the same mirrored and turned over, and grows outwards. */
  lemma MiddleIsInTheMiddle(size: nat, p: Pos)
    ensures CentreDistance(size, p) == CentreDistance(size, Pos(size - 1 - p.x, p.y))
    ensures CentreDistance(size, p) == CentreDistance(size, Pos(p.y, p.x))
    ensures 2 * p.x >= size - 1 ==> CentreDistance(size, Pos(p.x + 1, p.y)) > CentreDistance(size, p)
  {
    assert Square(2 * (p.x + 1) - (size - 1)) == Square(2 * p.x - (size - 1)) + 4 * (2 * p.x - (size - 1)) + 4;
  }

  function CentreKey(size: nat): Pos -> int { p => CentreDistance(size, p) }

  /** Every position of the window by distance from its centre, equal distances in reading order. */
  function CentreOrder(size: nat): seq<Pos> { Sorting.StableSort(RowMajor(size), CentreKey(size)) }

  ghost predicate CloserFirst(size: nat, a: Pos, b: Pos) {
    CentreDistance(size, a) < CentreDistance(size, b)
    || (CentreDistance(size, a) == CentreDistance(size, b) && ReadsBefore(a, b))
  }

  lemma CentreOrderIsByDistance(size: nat)
    ensures forall p :: p in CentreOrder(size) <==> 0 <= p.x < size && 0 <= p.y < size
    ensures forall i, j | 0 <= i < j < |CentreOrder(size)| ::
        CloserFirst(size, CentreOrder(size)[i], CentreOrder(size)[j])
  {
    var order := CentreOrder(size);
    RowsRead(size, size);
    ghost var earlier := (a: Pos, b: Pos) => ReadsBefore(a, b);
    Sorting.StableSortRanks(RowMajor(size), CentreKey(size), earlier);
    Sorting.SameElements(RowMajor(size), order);
    forall i, j | 0 <= i < j < |order|
      ensures CloserFirst(size, order[i], order[j])
    {
      assert Sorting.Ahead(order[i], order[j], CentreKey(size), earlier);
    }
  }

  function Max(a: int, b: int): int { if a < b then b else a }
  function Min(a: int, b: int): int { if a < b then a else b }

  function DowntownRadius(size: nat): nat { Max(size / 5, 3) }

  function MidriseRadius(size: nat): nat {
    if size / 3 <= DowntownRadius(size) then DowntownRadius(size) + 1 else size / 3
  }

  function EdgeBand(size: nat): nat { Max(size / 16, 2) }

  function ParkCount(size: nat): nat { Max(size / 8, 3) }

  function FarmCount(size: nat): nat { Max(size / 6, 4) }

  function Within(size: nat, radius: nat, p: Pos): bool { CentreDistance(size, p) <= 4 * Square(radius) }

  /** Each scales with the window: a fifth, a third, a sixteenth, an eighth and a sixth of it, rounded down, and
      never under a floor of its own. */
  lemma RadiiScale(size: nat)
    ensures var r := DowntownRadius(size); r >= 3 && 5 * (r + 1) > size && (r == 3 || 5 * r <= size)
    ensures var r := MidriseRadius(size);
      r > DowntownRadius(size) && 3 * (r + 1) > size && (r == DowntownRadius(size) + 1 || 3 * r <= size)
    ensures var band := EdgeBand(size); band >= 2 && 16 * (band + 1) > size && (band == 2 || 16 * band <= size)
    ensures var n := ParkCount(size); n >= 3 && 8 * (n + 1) > size && (n == 3 || 8 * n <= size)
    ensures var n := FarmCount(size); n >= 4 && 6 * (n + 1) > size && (n == 4 || 6 * n <= size)
  {
  }

  /** Within a radius means at most that far from the middle. */
  lemma WithinIsADistance(size: nat, radius: nat, p: Pos)
    ensures Within(size, radius, p) <==> SquaredDistance(size, p) <= radius as real * radius as real
  {
    CentreDistanceMeasures(size, p);
    SquareAsReal(radius);
  }

  /** Near the edge means within the band of one of the four sides. */
  lemma NearEdgeIsNearASide(size: nat, p: Pos)
    ensures NearEdge(size)(p) <==>
      var band := EdgeBand(size);
      p.x <= band || p.y <= band || size - 1 - p.x <= band || size - 1 - p.y <= band
  {
  }

  function Downtown(size: nat): Pos -> bool { p => Within(size, DowntownRadius(size), p) }

  function OutsideDowntown(size: nat): Pos -> bool { p => !Within(size, DowntownRadius(size), p) }

  function MidriseRing(size: nat): Pos -> bool {
    p => !Within(size, DowntownRadius(size), p) && Within(size, MidriseRadius(size), p)
  }

  function OuterRing(size: nat): Pos -> bool { p => !Within(size, MidriseRadius(size), p) }

  function NearEdge(size: nat): Pos -> bool {
    (p: Pos) => Min(Min(p.x, p.y), Min(size - 1 - p.x, size - 1 - p.y)) <= EdgeBand(size)
  }

  function Anywhere(): Pos -> bool { p => true }

  /** The three filled zones divide the window between them: each position lies in exactly one. */
  lemma ZonesPartition(size: nat, p: Pos)
    ensures Downtown(size)(p) || MidriseRing(size)(p) || OuterRing(size)(p)
    ensures !(Downtown(size)(p) && MidriseRing(size)(p))
    ensures !(MidriseRing(size)(p) && OuterRing(size)(p))
    ensures !(Downtown(size)(p) && OuterRing(size)(p))
  {
    SquareGrows(DowntownRadius(size), MidriseRadius(size));
  }

  lemma SquareGrows(a: nat, b: nat)
    requires a <= b
    ensures Square(a) <= Square(b)
  {
    assert Square(b) == Square(a) + (b - a) * (b + a);
    assert (b - a) * (b + a) >= 0;
  }

  // ----- the civic buildings' special ground

  ghost predicate OnCoast(win: Window, spec: Spec, p: Pos)
    requires win.Valid()
  {
    && p.x + spec.w <= win.size && p.y + spec.h <= win.size
    && exists q | LotAt(spec, p).Covers(q) && win.Contains(q) :: win.At(q).coast
  }

  /** A deposit under the footprint or within the search margin around it. */
  ghost predicate NearDeposit(win: Window, spec: Spec, p: Pos)
    requires win.Valid()
  {
    && p.x + spec.w <= win.size && p.y + spec.h <= win.size
    && exists q | win.Contains(q) && p.x - DEPOSIT_MARGIN <= q.x < p.x + spec.w + DEPOSIT_MARGIN
                  && p.y - DEPOSIT_MARGIN <= q.y < p.y + spec.h + DEPOSIT_MARGIN :: win.At(q).deposit
  }

  ghost function CivicGround(win: Window, spec: Spec): Pos -> bool
    requires win.Valid()
  {
    p => (spec.needCoast ==> OnCoast(win, spec, p)) && (spec.needMine ==> NearDeposit(win, spec, p))
  }

  /** Near a deposit means that some lot of the building lies within three lots of one, in both directions. */
  lemma NearDepositIsThreeLots(win: Window, spec: Spec, p: Pos)
    requires win.Valid() && spec.Solid()
    ensures NearDeposit(win, spec, p) <==>
      && p.x + spec.w <= win.size && p.y + spec.h <= win.size
      && exists q, c :: win.Contains(q) && win.At(q).deposit && LotAt(spec, p).Covers(c)
           && -3 <= q.x - c.x <= 3 && -3 <= q.y - c.y <= 3
  {
    forall q | win.Contains(q) && win.At(q).deposit
      ensures (p.x - 3 <= q.x < p.x + spec.w + 3 && p.y - 3 <= q.y < p.y + spec.h + 3)
        <==> exists c :: LotAt(spec, p).Covers(c) && -3 <= q.x - c.x <= 3 && -3 <= q.y - c.y <= 3
    {
      var c := Pos(Max(p.x, Min(q.x, p.x + spec.w - 1)), Max(p.y, Min(q.y, p.y + spec.h - 1)));
      assert LotAt(spec, p).Covers(c);
    }
  }

  /** On the coast means that no lot of the building leaves the window and some lot of it is on the coast. */
  lemma OnCoastTouchesIt(win: Window, spec: Spec, p: Pos)
    requires win.Valid() && win.Contains(p) && spec.Solid()
    ensures OnCoast(win, spec, p) <==>
      && (forall q | LotAt(spec, p).Covers(q) :: win.Contains(q))
      && exists q :: LotAt(spec, p).Covers(q) && win.Contains(q) && win.At(q).coast
  {
    assert LotAt(spec, p).Covers(Pos(p.x + spec.w - 1, p.y + spec.h - 1));
  }

  method AnyCornerCoast(win: Window, spec: Spec, p: Pos) returns (found: bool)
    requires win.Valid() && win.Contains(p)
    ensures found <==> OnCoast(win, spec, p)
  {
    if p.x + spec.w > win.size || p.y + spec.h > win.size {
      return false;
    }
    var lot := LotAt(spec, p);
    for dy := 0 to spec.h
      invariant forall q | lot.Covers(q) && q.y < p.y + dy :: !win.At(q).coast
    {
      for dx := 0 to spec.w
        invariant forall q | lot.Covers(q) && q.y == p.y + dy && q.x < p.x + dx :: !win.At(q).coast
      {
        if win.At(Pos(p.x + dx, p.y + dy)).coast {
          assert lot.Covers(Pos(p.x + dx, p.y + dy));
          return true;
        }
      }
    }
    return false;
  }

  method AnyCornerDeposit(win: Window, spec: Spec, p: Pos) returns (found: bool)
    requires win.Valid() && win.Contains(p)
    ensures found <==> NearDeposit(win, spec, p)
  {
    if p.x + spec.w > win.size || p.y + spec.h > win.size {
      return false;
    }
    var x0, y0 := Max(p.x - DEPOSIT_MARGIN, 0), Max(p.y - DEPOSIT_MARGIN, 0);
    var x1, y1 := Min(p.x + spec.w + DEPOSIT_MARGIN, win.size), Min(p.y + spec.h + DEPOSIT_MARGIN, win.size);
    for y := y0 to y1
      invariant forall q: Pos | x0 <= q.x < x1 && y0 <= q.y < y :: !win.At(q).deposit
    {
      for x := x0 to x1
        invariant forall q: Pos | x0 <= q.x < x && q.y == y :: !win.At(q).deposit
      {
        if win.At(Pos(x, y)).deposit {
          return true;
        }
      }
    }
    return false;
  }

  // ----- the seven passes

  /** The first `n` civic buildings, each wanted `count` times on ground of its own kind. */
  ghost function Civics(win: Window, roads: set<Pos>, order: seq<Pos>, n: nat): Plan
    requires win.Valid() && n <= |CIVIC_SPECS|
  {
    if n == 0 then Plan(roads, [])
    else
      var spec := CIVIC_SPECS[n - 1];
      Pass(win, Civics(win, roads, order, n - 1), spec, spec.count, CivicGround(win, spec), order)
  }

  ghost function WithParks(win: Window, roads: set<Pos>, order: seq<Pos>): Plan
    requires win.Valid()
  {
    Pass(win, Civics(win, roads, order, |CIVIC_SPECS|), PARK, ParkCount(win.size), OutsideDowntown(win.size), order)
  }

  ghost function WithFarms(win: Window, roads: set<Pos>, order: seq<Pos>): Plan
    requires win.Valid()
  {
    Pass(win, WithParks(win, roads, order), FARM, FarmCount(win.size), NearEdge(win.size), order)
  }

  ghost function WithDowntown(win: Window, roads: set<Pos>, order: seq<Pos>): Plan
    requires win.Valid()
  {
    Fill(win, WithFarms(win, roads, order), order, Downtown(win.size), LargestFirst(DOWNTOWN_SPECS))
  }

  ghost function WithMidrise(win: Window, roads: set<Pos>, order: seq<Pos>): Plan
    requires win.Valid()
  {
    Fill(win, WithDowntown(win, roads, order), order, MidriseRing(win.size), LargestFirst(MIDRISE_SPECS))
  }

  ghost function WithOuter(win: Window, roads: set<Pos>, order: seq<Pos>): Plan
    requires win.Valid()
  {
    Fill(win, WithMidrise(win, roads, order), order, OuterRing(win.size), LargestFirst([HOUSING]))
  }

  /** The finished city: the catch-all housing pass runs last, over the whole window. */
  ghost function Built(win: Window, roads: set<Pos>, order: seq<Pos>): Plan
    requires win.Valid()
  {
    Pass(win, WithOuter(win, roads, order), HOUSING, |order|, Anywhere(), order)
  }

  // ----- what the finished city promises

  lemma {:induction false} CivicsKeepPacked(win: Window, roads: set<Pos>, order: seq<Pos>, n: nat)
    requires win.Valid() && n <= |CIVIC_SPECS|
    ensures Packed(win, roads, Civics(win, roads, order, n))
  {
    if n > 0 {
      CivicsKeepPacked(win, roads, order, n - 1);
      var spec := CIVIC_SPECS[n - 1];
      PassKeepsPacked(win, roads, Civics(win, roads, order, n - 1), spec, spec.count, CivicGround(win, spec), order);
    }
  }

  lemma ZoneKeepsPacked(win: Window, roads: set<Pos>, plan: Plan, order: seq<Pos>, zone: Pos -> bool, specs: seq<Spec>)
    requires win.Valid() && Packed(win, roads, plan) && forall s | s in specs :: s.Solid()
    ensures Packed(win, roads, Fill(win, plan, order, zone, LargestFirst(specs)))
  {
    LargestFirstOrders(specs);
    FillKeepsPacked(win, roads, plan, order, zone, LargestFirst(specs));
  }

  /** Packing: what is occupied is exactly the roads and the lots; the lots are pairwise disjoint, inside
      the window, off every road, and never on a wet or steep tile. */
  lemma BuiltIsPacked(win: Window, roads: set<Pos>, order: seq<Pos>)
    requires win.Valid()
    ensures Packed(win, roads, Built(win, roads, order))
  {
    hide Pass, Fill, Packed, CivicGround;
    CivicsKeepPacked(win, roads, order, |CIVIC_SPECS|);
    PassKeepsPacked(win, roads, Civics(win, roads, order, |CIVIC_SPECS|), PARK, ParkCount(win.size),
                    OutsideDowntown(win.size), order);
    PassKeepsPacked(win, roads, WithParks(win, roads, order), FARM, FarmCount(win.size), NearEdge(win.size), order);
    ZoneKeepsPacked(win, roads, WithFarms(win, roads, order), order, Downtown(win.size), DOWNTOWN_SPECS);
    ZoneKeepsPacked(win, roads, WithDowntown(win, roads, order), order, MidriseRing(win.size), MIDRISE_SPECS);
    ZoneKeepsPacked(win, roads, WithMidrise(win, roads, order), order, OuterRing(win.size), [HOUSING]);
    PassKeepsPacked(win, roads, WithOuter(win, roads, order), HOUSING, |order|, Anywhere(), order);
  }

  // ----- what stands where

  /** The shapes of each kind of building. */
  predicate Shaped(lot: Lot) {
    if lot.kind in {"market", "bank", "school", "clinic", "tower_office"} then lot.w == lot.h == 3
    else if lot.kind == "midrise" then lot.h == 2 && (lot.w == 2 || lot.w == 3)
    else lot.w == lot.h == 2
  }

  /** Each kind keeps to its own ground. */
  ghost predicate InPlace(win: Window, lot: Lot)
    requires win.Valid()
  {
    var size, p := win.size, Pos(lot.x, lot.y);
    var inner, outer := DowntownRadius(size), MidriseRadius(size);
    && Shaped(lot)
    && (lot.kind == "port" ==> exists q :: lot.Covers(q) && win.Contains(q) && win.At(q).coast)
    && (lot.kind == "mine" ==> NearDeposit(win, Spec("mine", 2, 2, 1, false, true), p))
    && (lot.kind == "park" ==> !Within(size, inner, p))
    && (lot.kind == "farm" ==> NearEdge(size)(p))
    && (lot.kind in {"tower_office", "tower_residential"} ==> Within(size, inner, p))
    && (lot.kind == "midrise" ==> !Within(size, inner, p) && Within(size, outer, p))
    && (lot.kind == "housing" ==> !Within(size, outer, p))
  }

  ghost predicate AllInPlace(win: Window, lots: seq<Lot>)
    requires win.Valid()
  {
    forall i | 0 <= i < |lots| :: InPlace(win, lots[i])
  }

  lemma PassKeepsInPlace(win: Window, plan: Plan, spec: Spec, want: nat, eligible: Pos -> bool, order: seq<Pos>)
    requires win.Valid() && AllInPlace(win, plan.lots)
    requires forall p | eligible(p) :: InPlace(win, LotAt(spec, p))
    ensures AllInPlace(win, Pass(win, plan, spec, want, eligible, order).lots)
  {
    hide Pass, InPlace;
    var after := Pass(win, plan, spec, want, eligible, order);
    PassExtends(win, plan, spec, want, eligible, order);
    forall m | 0 <= m < |after.lots|
      ensures InPlace(win, after.lots[m])
    {
      if m >= |plan.lots| {
        PassAddsItsOwn(win, plan, spec, want, eligible, order, m);
      } else {
        assert after.lots[m] == plan.lots[m];
      }
    }
  }

  lemma FillKeepsInPlace(win: Window, plan: Plan, order: seq<Pos>, zone: Pos -> bool, specs: seq<Spec>)
    requires win.Valid() && AllInPlace(win, plan.lots)
    requires forall s, p | s in specs && zone(p) :: InPlace(win, LotAt(s, p))
    ensures AllInPlace(win, Fill(win, plan, order, zone, LargestFirst(specs)).lots)
  {
    hide Fill, InPlace, LargestFirst;
    var after := Fill(win, plan, order, zone, LargestFirst(specs));
    LargestFirstOrders(specs);
    FillExtends(win, plan, order, zone, LargestFirst(specs));
    forall m | 0 <= m < |after.lots|
      ensures InPlace(win, after.lots[m])
    {
      if m >= |plan.lots| {
        FillAddsItsOwn(win, plan, order, zone, LargestFirst(specs), m);
        var lot := after.lots[m];
        var s :| s in LargestFirst(specs) && lot == LotAt(s, Pos(lot.x, lot.y));
        assert s in specs;
      } else {
        assert after.lots[m] == plan.lots[m];
      }
    }
  }

  lemma {:induction false} CivicsInPlace(win: Window, roads: set<Pos>, order: seq<Pos>, n: nat)
    requires win.Valid() && n <= |CIVIC_SPECS|
    ensures AllInPlace(win, Civics(win, roads, order, n).lots)
  {
    if n > 0 {
      CivicsInPlace(win, roads, order, n - 1);
      var spec := CIVIC_SPECS[n - 1];
      CivicGroundIsItsPlace(win, n - 1);
      hide InPlace, CivicGround;
      PassKeepsInPlace(win, Civics(win, roads, order, n - 1), spec, spec.count, CivicGround(win, spec), order);
    }
  }

  lemma CivicGroundIsItsPlace(win: Window, k: nat)
    requires win.Valid() && k < |CIVIC_SPECS|
    ensures forall p | CivicGround(win, CIVIC_SPECS[k])(p) :: InPlace(win, LotAt(CIVIC_SPECS[k], p))
  {
    hide Within, NearEdge, NearDeposit;
    var spec := CIVIC_SPECS[k];
    forall p | CivicGround(win, spec)(p)
      ensures InPlace(win, LotAt(spec, p))
    {
      assert spec.kind == "port" ==> spec.needCoast && OnCoast(win, spec, p);
      assert spec.kind == "mine" ==> spec == Spec("mine", 2, 2, 1, false, true) && NearDeposit(win, spec, p);
    }
  }

  /** In the finished city every building has the shape of its kind and stands on its ground: the port on the
      coast, the mine by a deposit, parks out of downtown, farms at the edge, and each zone's buildings, housing
      among them, in that zone. */
  lemma BuiltIsInPlace(win: Window, roads: set<Pos>)
    requires win.Valid()
    ensures AllInPlace(win, Built(win, roads, CentreOrder(win.size)).lots)
  {
    var order, size := CentreOrder(win.size), win.size;
    CatchAllPlacesNothing(win, roads);
    ZoneGroundIsItsPlace(win);
    hide InPlace, AllInPlace, Pass, Fill, LargestFirst, CentreOrder, Civics, Downtown, MidriseRing, OuterRing,
      OutsideDowntown, NearEdge;
    CivicsInPlace(win, roads, order, |CIVIC_SPECS|);
    PassKeepsInPlace(win, Civics(win, roads, order, |CIVIC_SPECS|), PARK, ParkCount(size), OutsideDowntown(size),
                     order);
    PassKeepsInPlace(win, WithParks(win, roads, order), FARM, FarmCount(size), NearEdge(size), order);
    FillKeepsInPlace(win, WithFarms(win, roads, order), order, Downtown(size), DOWNTOWN_SPECS);
    FillKeepsInPlace(win, WithDowntown(win, roads, order), order, MidriseRing(size), MIDRISE_SPECS);
    FillKeepsInPlace(win, WithMidrise(win, roads, order), order, OuterRing(size), [HOUSING]);
  }

  lemma ZoneGroundIsItsPlace(win: Window)
    requires win.Valid()
    ensures forall p | OutsideDowntown(win.size)(p) :: InPlace(win, LotAt(PARK, p))
    ensures forall p | NearEdge(win.size)(p) :: InPlace(win, LotAt(FARM, p))
    ensures forall s, p | s in DOWNTOWN_SPECS && Downtown(win.size)(p) :: InPlace(win, LotAt(s, p))
    ensures forall s, p | s in MIDRISE_SPECS && MidriseRing(win.size)(p) :: InPlace(win, LotAt(s, p))
    ensures forall s, p | s in [HOUSING] && OuterRing(win.size)(p) :: InPlace(win, LotAt(s, p))
  {
    hide Within, DowntownRadius, MidriseRadius, NearEdge;
  }

  /** A pass over the whole window places as many as wanted, or leaves no eligible spot with room. */
  lemma PassIsAsWanted(win: Window, plan: Plan, spec: Spec, want: nat, eligible: Pos -> bool)
    requires win.Valid() && spec.Solid()
    ensures var after := Pass(win, plan, spec, want, eligible, CentreOrder(win.size));
      && plan.lots <= after.lots && |after.lots| <= |plan.lots| + want
      && (|after.lots| == |plan.lots| + want
          || forall p | win.Contains(p) && eligible(p) :: !Fits(win, after.taken, spec, p))
  {
    hide Pass, CentreOrder, Fits;
    var order := CentreOrder(win.size);
    var after := Pass(win, plan, spec, want, eligible, order);
    CentreOrderIsByDistance(win.size);
    PassExtends(win, plan, spec, want, eligible, order);
    if |after.lots| < |plan.lots| + want {
      PassLeavesNoRoom(win, plan, spec, want, eligible, order, after.taken);
    }
  }

  /** As many parks as the window's size asks for stand outside downtown, and as many farms at its edge, or
      there was no room for one more. */
  lemma ParksAndFarmsAreAsWanted(win: Window, roads: set<Pos>)
    requires win.Valid()
    ensures var order := CentreOrder(win.size);
            var civics := Civics(win, roads, order, |CIVIC_SPECS|);
            var parks, farms := WithParks(win, roads, order), WithFarms(win, roads, order);
      && civics.lots <= parks.lots <= farms.lots
      && |parks.lots| - |civics.lots| <= ParkCount(win.size) && |farms.lots| - |parks.lots| <= FarmCount(win.size)
      && (|parks.lots| - |civics.lots| == ParkCount(win.size)
          || forall p | win.Contains(p) && !Within(win.size, DowntownRadius(win.size), p) ::
               !SquareFree(win, parks.taken, p))
      && (|farms.lots| - |parks.lots| == FarmCount(win.size)
          || forall p | win.Contains(p) && NearEdge(win.size)(p) :: !SquareFree(win, farms.taken, p))
      && (forall i | |civics.lots| <= i < |parks.lots| :: parks.lots[i].kind == "park")
      && (forall i | |parks.lots| <= i < |farms.lots| :: farms.lots[i].kind == "farm")
  {
    hide Pass, CentreOrder, Fits, SquareFree, ParkCount, FarmCount, Within, NearEdge;
    var order, size := CentreOrder(win.size), win.size;
    var civics := Civics(win, roads, order, |CIVIC_SPECS|);
    var parks, farms := WithParks(win, roads, order), WithFarms(win, roads, order);
    PassIsAsWanted(win, civics, PARK, ParkCount(size), OutsideDowntown(size));
    PassIsAsWanted(win, parks, FARM, FarmCount(size), NearEdge(size));
    forall p
      ensures Fits(win, parks.taken, PARK, p) <==> SquareFree(win, parks.taken, p)
      ensures Fits(win, farms.taken, FARM, p) <==> SquareFree(win, farms.taken, p)
    {
      SquareFits(win, parks.taken, PARK, p);
      SquareFits(win, farms.taken, FARM, p);
    }
    forall i | |civics.lots| <= i < |parks.lots|
      ensures parks.lots[i].kind == "park"
    {
      PassAddsItsOwn(win, civics, PARK, ParkCount(size), OutsideDowntown(size), order, i);
    }
    forall i | |parks.lots| <= i < |farms.lots|
      ensures farms.lots[i].kind == "farm"
    {
      PassAddsItsOwn(win, parks, FARM, FarmCount(size), NearEdge(size), order, i);
    }
  }

  // ----- no gaps

  /** Four free lots in a square with its top-left corner at `p`. */
  ghost predicate SquareFree(win: Window, taken: set<Pos>, p: Pos)
    requires win.Valid()
  {
    Free(win, taken, p) && Free(win, taken, Pos(p.x + 1, p.y)) && Free(win, taken, Pos(p.x, p.y + 1))
    && Free(win, taken, Pos(p.x + 1, p.y + 1))
  }

  lemma SquareFits(win: Window, taken: set<Pos>, spec: Spec, p: Pos)
    requires win.Valid() && spec.w == spec.h == 2
    ensures Fits(win, taken, spec, p) <==> SquareFree(win, taken, p)
  {
    var lot := LotAt(spec, p);
    assert lot.Covers(p) && lot.Covers(Pos(p.x + 1, p.y)) && lot.Covers(Pos(p.x, p.y + 1))
    && lot.Covers(Pos(p.x + 1, p.y + 1));
    forall q | lot.Covers(q)
      ensures q == p || q == Pos(p.x + 1, p.y) || q == Pos(p.x, p.y + 1) || q == Pos(p.x + 1, p.y + 1)
    {
    }
  }

  /** Maximality: when the layout returns, no 2x2 square of free buildable lots is left anywhere. */
  lemma BuiltLeavesNoGap(win: Window, roads: set<Pos>, p: Pos)
    requires win.Valid()
    ensures !SquareFree(win, Built(win, roads, CentreOrder(win.size)).taken, p)
  {
    var order := CentreOrder(win.size);
    var built := Built(win, roads, order);
    if SquareFree(win, built.taken, p) {
      CentreOrderIsByDistance(win.size);
      assert p in order && Anywhere()(p);
      SquareFits(win, built.taken, HOUSING, p);
      PassLeavesNoRoom(win, WithOuter(win, roads, order), HOUSING, |order|, Anywhere(), order, built.taken);
    }
  }

  lemma ZoneIsFull(win: Window, plan: Plan, zone: Pos -> bool, specs: seq<Spec>)
    requires win.Valid() && forall s | s in specs :: s.Solid()
    ensures forall s, p | s in specs && win.Contains(p) && zone(p) ::
      !Fits(win, Fill(win, plan, CentreOrder(win.size), zone, LargestFirst(specs)).taken, s, p)
  {
    LargestFirstOrders(specs);
    CentreOrderIsByDistance(win.size);
    var order := CentreOrder(win.size);
    FillLeavesNoRoom(win, plan, order, zone, LargestFirst(specs),
                     Fill(win, plan, order, zone, LargestFirst(specs)).taken);
  }

  /** Each zone, once filled, has no room left for either of its own footprints. */
  lemma ZonesAreFull(win: Window, roads: set<Pos>, p: Pos)
    requires win.Valid() && win.Contains(p)
    ensures Downtown(win.size)(p) ==>
      && !Fits(win, WithDowntown(win, roads, CentreOrder(win.size)).taken, TOWER_OFFICE, p)
      && !Fits(win, WithDowntown(win, roads, CentreOrder(win.size)).taken, TOWER_RESIDENTIAL, p)
    ensures MidriseRing(win.size)(p) ==>
      && !Fits(win, WithMidrise(win, roads, CentreOrder(win.size)).taken, WIDE_MIDRISE, p)
      && !Fits(win, WithMidrise(win, roads, CentreOrder(win.size)).taken, MIDRISE, p)
    ensures OuterRing(win.size)(p) ==> !Fits(win, WithOuter(win, roads, CentreOrder(win.size)).taken, HOUSING, p)
  {
    hide Fits, Fill, CentreOrder, WithFarms;
    var order := CentreOrder(win.size);
    ZoneIsFull(win, WithFarms(win, roads, order), Downtown(win.size), DOWNTOWN_SPECS);
    ZoneIsFull(win, WithDowntown(win, roads, order), MidriseRing(win.size), MIDRISE_SPECS);
    ZoneIsFull(win, WithMidrise(win, roads, order), OuterRing(win.size), [HOUSING]);
    assert TOWER_OFFICE in DOWNTOWN_SPECS && TOWER_RESIDENTIAL in DOWNTOWN_SPECS;
    assert MIDRISE in MIDRISE_SPECS && WIDE_MIDRISE in MIDRISE_SPECS;
    assert HOUSING in [HOUSING];
  }

  lemma {:induction false} PassWithoutRoomIsIdle(win: Window, plan: Plan, spec: Spec, want: nat, eligible: Pos -> bool,
                                                 order: seq<Pos>)
    requires win.Valid()
    requires forall p | p in order && eligible(p) :: !Fits(win, plan.taken, spec, p)
    ensures Pass(win, plan, spec, want, eligible, order) == plan
    decreases |order|
  {
    if order != [] && want > 0 {
      assert order[0] in order;
      PassWithoutRoomIsIdle(win, plan, spec, want, eligible, order[1..]);
    }
  }

  /** The catch-all pass is never needed: every corner position lies in some zone, and each zone was
      already filled with a footprint of housing's own size. */
  lemma CatchAllPlacesNothing(win: Window, roads: set<Pos>)
    requires win.Valid()
    ensures Built(win, roads, CentreOrder(win.size)) == WithOuter(win, roads, CentreOrder(win.size))
  {
    var order := CentreOrder(win.size);
    var downtown, midrise, outer := WithDowntown(win, roads, order), WithMidrise(win, roads, order),
                                    WithOuter(win, roads, order);
    FillExtends(win, downtown, order, MidriseRing(win.size), LargestFirst(MIDRISE_SPECS));
    FillExtends(win, midrise, order, OuterRing(win.size), LargestFirst([HOUSING]));
    CentreOrderIsByDistance(win.size);
    forall p | p in order && Anywhere()(p)
      ensures !Fits(win, outer.taken, HOUSING, p)
    {
      ZonesPartition(win.size, p);
      ZonesAreFull(win, roads, p);
      RoomOnlyShrinks(win, downtown.taken, outer.taken, HOUSING, p);
      RoomOnlyShrinks(win, midrise.taken, outer.taken, HOUSING, p);
      forall taken
        ensures Fits(win, taken, HOUSING, p) <==> SquareFree(win, taken, p)
        ensures Fits(win, taken, TOWER_RESIDENTIAL, p) <==> SquareFree(win, taken, p)
        ensures Fits(win, taken, MIDRISE, p) <==> SquareFree(win, taken, p)
      {
        SquareFits(win, taken, HOUSING, p);
        SquareFits(win, taken, TOWER_RESIDENTIAL, p);
        SquareFits(win, taken, MIDRISE, p);
      }
    }
    PassWithoutRoomIsIdle(win, outer, HOUSING, |order|, Anywhere(), order);
  }

  /** No room for its own footprints: a downtown position for either tower, a mid-rise one for either shape. */
  ghost predicate ZoneFull(win: Window, taken: set<Pos>, p: Pos)
    requires win.Valid()
  {
    && (Downtown(win.size)(p) ==> !Fits(win, taken, TOWER_OFFICE, p) && !Fits(win, taken, TOWER_RESIDENTIAL, p))
    && (MidriseRing(win.size)(p) ==> !Fits(win, taken, WIDE_MIDRISE, p) && !Fits(win, taken, MIDRISE, p))
    && (OuterRing(win.size)(p) ==> !Fits(win, taken, HOUSING, p))
  }

  /** The finished city has no room left in any zone for any footprint of that zone. */
  lemma BuiltFillsItsZones(win: Window, roads: set<Pos>, p: Pos)
    requires win.Valid() && win.Contains(p)
    ensures ZoneFull(win, Built(win, roads, CentreOrder(win.size)).taken, p)
  {
    hide Fits, Fill, Pass, CentreOrder, LargestFirst, Downtown, MidriseRing, OuterRing;
    var order := CentreOrder(win.size);
    var downtown, midrise, outer := WithDowntown(win, roads, order), WithMidrise(win, roads, order),
                                    WithOuter(win, roads, order);
    FillExtends(win, downtown, order, MidriseRing(win.size), LargestFirst(MIDRISE_SPECS));
    FillExtends(win, midrise, order, OuterRing(win.size), LargestFirst([HOUSING]));
    ZonesAreFull(win, roads, p);
    CatchAllPlacesNothing(win, roads);
    RoomOnlyShrinks(win, downtown.taken, outer.taken, TOWER_OFFICE, p);
    RoomOnlyShrinks(win, downtown.taken, outer.taken, TOWER_RESIDENTIAL, p);
    RoomOnlyShrinks(win, midrise.taken, outer.taken, WIDE_MIDRISE, p);
    RoomOnlyShrinks(win, midrise.taken, outer.taken, MIDRISE, p);
  }

  /** The n-th civic building takes the spot nearest the centre among all that suit it, in reading order
      between equals; it is missing only when no spot in the window suits it. */
  ghost predicate NearestSite(win: Window, taken: set<Pos>, spec: Spec, p: Pos)
    requires win.Valid()
  {
    && win.Contains(p) && CivicGround(win, spec)(p) && Fits(win, taken, spec, p)
    && forall q | win.Contains(q) && CivicGround(win, spec)(q) && Fits(win, taken, spec, q) ::
         p == q || CloserFirst(win.size, p, q)
  }

  lemma CivicTakesNearestSite(win: Window, roads: set<Pos>, n: nat)
    requires win.Valid() && n < |CIVIC_SPECS|
    ensures var order, spec := CentreOrder(win.size), CIVIC_SPECS[n];
            var before, after := Civics(win, roads, order, n), Civics(win, roads, order, n + 1);
      || (exists p :: NearestSite(win, before.taken, spec, p) && after == Put(before, spec, p))
      || (after == before && forall p | win.Contains(p) && CivicGround(win, spec)(p) ::
            !Fits(win, before.taken, spec, p))
  {
    hide Fits, Put, CentreOrder, CivicGround;
    var order, spec := CentreOrder(win.size), CIVIC_SPECS[n];
    var before := Civics(win, roads, order, n);
    CentreOrderIsByDistance(win.size);
    WantOne(win, before, spec, CivicGround(win, spec), order);
    if k :| 0 <= k < |order| && Civics(win, roads, order, n + 1) == Put(before, spec, order[k])
            && CivicGround(win, spec)(order[k]) && Fits(win, before.taken, spec, order[k])
            && forall j | 0 <= j < k && CivicGround(win, spec)(order[j]) :: !Fits(win, before.taken, spec, order[j]) {
      FirstIsNearest(win, before.taken, spec, order, k);
    }
  }

  lemma FirstIsNearest(win: Window, taken: set<Pos>, spec: Spec, order: seq<Pos>, k: nat)
    requires win.Valid() && order == CentreOrder(win.size) && k < |order|
    requires CivicGround(win, spec)(order[k]) && Fits(win, taken, spec, order[k])
    requires forall j | 0 <= j < k && CivicGround(win, spec)(order[j]) :: !Fits(win, taken, spec, order[j])
    ensures NearestSite(win, taken, spec, order[k])
  {
    hide Fits, CentreOrder, CivicGround, CloserFirst;
    CentreOrderIsByDistance(win.size);
    forall q | win.Contains(q) && CivicGround(win, spec)(q) && Fits(win, taken, spec, q)
      ensures order[k] == q || CloserFirst(win.size, order[k], q)
    {
      var j :| 0 <= j < |order| && order[j] == q;
    }
  }

  lemma {:induction false} WantOne(win: Window, plan: Plan, spec: Spec, eligible: Pos -> bool, order: seq<Pos>)
    requires win.Valid()
    ensures var after := Pass(win, plan, spec, 1, eligible, order);
      || (after == plan && forall p | p in order && eligible(p) :: !Fits(win, plan.taken, spec, p))
      || (exists k | 0 <= k < |order| ::
            && after == Put(plan, spec, order[k]) && eligible(order[k]) && Fits(win, plan.taken, spec, order[k])
            && forall j | 0 <= j < k && eligible(order[j]) :: !Fits(win, plan.taken, spec, order[j]))
    decreases |order|
  {
    if order == [] {
    } else if eligible(order[0]) && Fits(win, plan.taken, spec, order[0]) {
      assert Pass(win, Put(plan, spec, order[0]), spec, 0, eligible, order[1..]) == Put(plan, spec, order[0]);
    } else {
      WantOne(win, plan, spec, eligible, order[1..]);
      var after := Pass(win, plan, spec, 1, eligible, order[1..]);
      if k :| 0 <= k < |order[1..]| && after == Put(plan, spec, order[1..][k]) && eligible(order[1..][k])
              && Fits(win, plan.taken, spec, order[1..][k])
              && forall j | 0 <= j < k && eligible(order[1..][j]) :: !Fits(win, plan.taken, spec, order[1..][j]) {
        assert order[k + 1] == order[1..][k];
        forall j | 0 <= j < k + 1 && eligible(order[j])
          ensures !Fits(win, plan.taken, spec, order[j])
        {
          if j > 0 {
            assert order[j] == order[1..][j - 1];
          }
        }
      }
    }
  }

  // ----- the layout itself

  datatype Layout = Layout(size: nat, roads: seq<RoadTile>, bridges: seq<RoadTile>, lots: seq<Lot>)

  ghost predicate OneTilePerLot(roads: seq<RoadTile>) {
    forall i, j | 0 <= i < j < |roads| :: ReadsBefore(roads[i].Where(), roads[j].Where())
  }

  /** Each lot with a road appears once, in reading order, with the highest class traced over it. */
  ghost predicate RoadNetwork(win: Window, roads: seq<RoadTile>)
    requires win.Valid()
  {
    && OneTilePerLot(roads)
    && forall r :: r in roads <==> win.Contains(r.Where()) && r.class_ == TopClass(win, r.Where()) && r.class_ >= 0
  }

  /** The bridges are exactly the roads over water. */
  ghost predicate BridgesOf(win: Window, roads: seq<RoadTile>, bridges: seq<RoadTile>)
    requires win.Valid()
  {
    && OneTilePerLot(bridges)
    && forall r :: r in bridges <==> r in roads && win.Contains(r.Where()) && win.At(r.Where()).water
  }

  /** On a window every local road can cross, no road of class local lies on barred ground, and the same
      for arterials; a wide river never carries a local road. */
  lemma RoadsAvoidBarredGround(win: Window, roads: seq<RoadTile>, r: RoadTile)
    requires win.Valid() && RoadNetwork(win, roads) && r in roads
    ensures r.class_ == LOCAL && Crossable(win, LOCAL) ==>
      var t := win.At(r.Where()); !t.impassable && !t.steep && !t.wideRiver
    ensures r.class_ == ARTERIAL && Crossable(win, ARTERIAL) ==>
      var t := win.At(r.Where()); !t.impassable && !t.steep
  {
    if r.class_ == LOCAL && Crossable(win, LOCAL) {
      StreetsAvoidBarredGround(win, ROAD_SPACING, LOCAL);
      assert RoadOk(win, LOCAL, r.Where());
    }
    if r.class_ == ARTERIAL && Crossable(win, ARTERIAL) {
      StreetsAvoidBarredGround(win, ARTERIAL_SPACING, ARTERIAL);
      assert RoadOk(win, ARTERIAL, r.Where());
    }
  }

  method TraceClasses(win: Window) returns (classAt: array<int>)
    requires win.Valid()
    ensures fresh(classAt) && classAt.Length == win.size * win.size
    ensures forall x, y | 0 <= x < win.size && 0 <= y < win.size ::
        classAt[Index(win.size, x, y)] == TopClass(win, Pos(x, y))
  {
    var localLines := LineIndices(win.size, ROAD_SPACING);
    var arterialLines := LineIndices(win.size, ARTERIAL_SPACING);
    var localRoads := TraceLineSet(win, localLines, LOCAL);
    var arterialRoads := TraceLineSet(win, arterialLines, ARTERIAL);
    var highway := ElevatedHighwayPath(win.size);
    classAt := new int[win.size * win.size](_ => -1);
    ghost var bare := classAt[..];
    SetClasses(win, classAt, localRoads, LOCAL);
    ghost var streets := classAt[..];
    SetClasses(win, classAt, arterialRoads, ARTERIAL);
    ghost var avenues := classAt[..];
    SetClasses(win, classAt, highway, HIGHWAY);
    forall x, y | 0 <= x < win.size && 0 <= y < win.size
      ensures classAt[..][Index(win.size, x, y)] == TopClass(win, Pos(x, y))
    {
      var q, i := Pos(x, y), Index(win.size, x, y);
      GridStreetsFromLines(win, ROAD_SPACING, localLines, LOCAL, q);
      GridStreetsFromLines(win, ARTERIAL_SPACING, arterialLines, ARTERIAL, q);
      assert bare[i] == -1;
      assert streets[i] == if GridStreet(win, ROAD_SPACING, LOCAL, q) then LOCAL else -1;
      assert avenues[i] == if GridStreet(win, ARTERIAL_SPACING, ARTERIAL, q) then ARTERIAL else streets[i];
    }
  }

  /** Every road lot of the class grid, in reading order. */
  method CollectRoads(win: Window, classAt: array<int>) returns (roads: seq<RoadTile>)
    requires win.Valid() && classAt.Length == win.size * win.size
    requires forall x, y | 0 <= x < win.size && 0 <= y < win.size ::
        classAt[Index(win.size, x, y)] == TopClass(win, Pos(x, y))
    ensures RoadNetwork(win, roads)
  {
    roads := [];
    for y := 0 to win.size
      invariant OneTilePerLot(roads)
      invariant forall r :: r in roads <==>
          win.Contains(r.Where()) && r.y < y && r.class_ == TopClass(win, r.Where()) && r.class_ >= 0
    {
      for x := 0 to win.size
        invariant OneTilePerLot(roads)
        invariant forall r :: r in roads <==>
          win.Contains(r.Where()) && (r.y < y || (r.y == y && r.x < x)) && r.class_ == TopClass(win, r.Where())
          && r.class_ >= 0
      {
        var c := classAt[Index(win.size, x, y)];
        if c >= 0 {
          roads := roads + [RoadTile(x, y, c)];
        }
      }
    }
  }

  lemma RoadCellsOf(win: Window, roads: seq<RoadTile>)
    requires win.Valid() && RoadNetwork(win, roads)
    ensures (set r | r in roads :: r.Where()) == RoadCells(win)
  {
    forall q | q in RoadCells(win)
      ensures q in set r | r in roads :: r.Where()
    {
      assert RoadTile(q.x, q.y, TopClass(win, q)).Where() == q;
      assert RoadTile(q.x, q.y, TopClass(win, q)) in roads;
    }
  }

  method CollectBridges(win: Window, roads: seq<RoadTile>) returns (bridges: seq<RoadTile>)
    requires win.Valid() && OneTilePerLot(roads) && forall r | r in roads :: win.Contains(r.Where())
    ensures BridgesOf(win, roads, bridges)
  {
    bridges := [];
    for k := 0 to |roads|
      invariant OneTilePerLot(bridges)
      invariant forall r :: r in bridges <==> r in roads[..k] && win.At(r.Where()).water
    {
      assert roads[..k + 1] == roads[..k] + [roads[k]];
      forall r | r in bridges
        ensures ReadsBefore(r.Where(), roads[k].Where())
      {
        var i :| 0 <= i < k && roads[..k][i] == r;
      }
      if win.At(roads[k].Where()).water {
        bridges := bridges + [roads[k]];
      }
    }
    assert roads[..|roads|] == roads;
  }

  method RankPositions(size: nat) returns (order: seq<Pos>)
    ensures order == CentreOrder(size)
  {
    order := [];
    for y := 0 to size
      invariant order == Rows(size, y)
    {
      for x := 0 to size
        invariant order == Rows(size, y) + Row(size, y)[..x]
      {
        order := order + [Pos(x, y)];
      }
      assert Row(size, y)[..size] == Row(size, y);
    }
    order := Sorting.StableSort(order, CentreKey(size));
  }

  method PlaceCivic(site: Site, spec: Spec, order: seq<Pos>)
    requires site.Valid() && forall p | p in order :: site.win.Contains(p)
    modifies site`lots, site.occupied
    ensures site.Current() == Pass(site.win, old(site.Current()), spec, spec.count, CivicGround(site.win, spec), order)
  {
    hide Fits, Put, OnCoast, NearDeposit;
    ghost var ground := CivicGround(site.win, spec);
    var placed := 0;
    for k := 0 to |order|
      invariant 0 <= placed <= spec.count
      invariant Pass(site.win, site.Current(), spec, spec.count - placed, ground, order[k..])
             == Pass(site.win, old(site.Current()), spec, spec.count, ground, order)
    {
      if placed >= spec.count {
        break;
      }
      var p := order[k];
      assert order[k..][1..] == order[k + 1..];
      if spec.needCoast {
        var coast := AnyCornerCoast(site.win, spec, p);
        if !coast { continue; }
      }
      if spec.needMine {
        var deposit := AnyCornerDeposit(site.win, spec, p);
        if !deposit { continue; }
      }
      var ok := site.Place(spec, p.x, p.y);
      if ok {
        placed := placed + 1;
      }
    }
  }

  method PlaceCivics(site: Site, order: seq<Pos>, ghost roads: set<Pos>)
    requires site.Valid() && forall p | p in order :: site.win.Contains(p)
    requires site.Current() == Plan(roads, [])
    modifies site`lots, site.occupied
    ensures site.Current() == Civics(site.win, roads, order, |CIVIC_SPECS|)
  {
    for i := 0 to |CIVIC_SPECS|
      invariant site.Current() == Civics(site.win, roads, order, i)
    {
      PlaceCivic(site, CIVIC_SPECS[i], order);
    }
  }

  /** The seven passes over a site where only roads stand. */
  method PlaceBuildings(site: Site, order: seq<Pos>, ghost roads: set<Pos>)
    requires site.Valid() && order == CentreOrder(site.win.size)
    requires site.Current() == Plan(roads, [])
    modifies site`lots, site.occupied
    ensures site.Current() == Built(site.win, roads, order)
  {
    var size := site.win.size;
    CentreOrderIsByDistance(size);
    PlaceCivics(site, order, roads);
    site.PlaceUpTo(PARK, ParkCount(size), OutsideDowntown(size), order);
    site.PlaceUpTo(FARM, FarmCount(size), NearEdge(size), order);
    site.FillZone(order, Downtown(size), DOWNTOWN_SPECS);
    site.FillZone(order, MidriseRing(size), MIDRISE_SPECS);
    site.FillZone(order, OuterRing(size), [HOUSING]);
    site.PlaceUpTo(HOUSING, |order|, Anywhere(), order);
  }

  /** The layout of one window, of any size and any terrain: a road network, its bridges, and lots that
      are well packed and leave no square gap. */
  method LayoutCity(win: Window) returns (layout: Layout)
    requires win.Valid()
    ensures layout.size == win.size
    ensures RoadNetwork(win, layout.roads) && BridgesOf(win, layout.roads, layout.bridges)
    ensures layout.lots == Built(win, RoadCells(win), CentreOrder(win.size)).lots
    ensures Packed(win, RoadCells(win), Plan(Occupied(RoadCells(win), layout.lots), layout.lots))
    ensures forall p :: !SquareFree(win, Occupied(RoadCells(win), layout.lots), p)
    ensures forall p | win.Contains(p) :: ZoneFull(win, Occupied(RoadCells(win), layout.lots), p)
    ensures AllInPlace(win, layout.lots)
    ensures forall lot, q | lot in layout.lots && lot.Covers(q) ::
        && win.Contains(q) && !win.At(q).water && !win.At(q).steep && q !in RoadCells(win)
  {
    hide Built, SquareFree, ZoneFull, AllInPlace, Packed, RoadNetwork, BridgesOf, RoadCells, Occupied, CentreOrder;
    var classAt := TraceClasses(win);
    var roads := CollectRoads(win, classAt);
    RoadsAreOnTheMap(win, roads);
    var site := new Site(win, roads);
    ghost var cells := RoadCells(win);
    RoadCellsOf(win, roads);
    var order := RankPositions(win.size);
    PlaceBuildings(site, order, cells);
    var bridges := CollectBridges(win, roads);
    CityIsFinished(win, cells, site.lots);
    BuiltIsInPlace(win, cells);
    LotsStandOnGoodGround(win, cells, site.lots);
    return Layout(win.size, roads, bridges, site.lots);
  }

  lemma RoadsAreOnTheMap(win: Window, roads: seq<RoadTile>)
    requires win.Valid() && RoadNetwork(win, roads)
    ensures OneTilePerLot(roads) && forall r | r in roads :: win.Contains(r.Where())
  {
  }

  lemma LotsStandOnGoodGround(win: Window, roads: set<Pos>, lots: seq<Lot>)
    requires win.Valid() && Packed(win, roads, Plan(Occupied(roads, lots), lots))
    ensures forall lot, q | lot in lots && lot.Covers(q) ::
        && win.Contains(q) && !win.At(q).water && !win.At(q).steep && q !in roads
  {
    forall lot, q | lot in lots && lot.Covers(q)
      ensures Free(win, roads, q) && !win.At(q).water && !win.At(q).steep
    {
      var i :| 0 <= i < |lots| && lots[i] == lot;
      assert WellSited(win, roads, lots[i]);
      FreeIsDryAndLevel(win, roads, q);
    }
  }

  /** What the buildings of the finished city promise together. */
  lemma CityIsFinished(win: Window, roads: set<Pos>, lots: seq<Lot>)
    requires win.Valid() && lots == Built(win, roads, CentreOrder(win.size)).lots
    ensures Packed(win, roads, Plan(Occupied(roads, lots), lots))
    ensures forall p :: !SquareFree(win, Occupied(roads, lots), p)
    ensures forall p | win.Contains(p) :: ZoneFull(win, Occupied(roads, lots), p)
  {
    hide Built, SquareFree, ZoneFull, Occupied, CentreOrder;
    var built := Built(win, roads, CentreOrder(win.size));
    BuiltIsPacked(win, roads, CentreOrder(win.size));
    assert built == Plan(Occupied(roads, lots), lots);
    forall p
      ensures !SquareFree(win, built.taken, p)
    {
      BuiltLeavesNoGap(win, roads, p);
    }
    forall p | win.Contains(p)
      ensures ZoneFull(win, built.taken, p)
    {
      BuiltFillsItsZones(win, roads, p);
    }
  }
}
