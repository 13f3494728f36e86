/** Greedy placement of rectangular footprints on a grid that only ever fills up. */
module Packing {
  import opened Terrain
  import Sorting

  datatype Spec = Spec(kind: string, w: nat, h: nat, count: nat, needCoast: bool, needMine: bool) {
    ghost predicate Solid() { w > 0 && h > 0 }
    function Area(): nat { w * h }
  }

  /** One placed building. */
  datatype Lot = Lot(kind: string, x: int, y: int, w: nat, h: nat) {
    predicate Covers(q: Pos) { x <= q.x < x + w && y <= q.y < y + h }
  }

  /** What is taken, by roads and buildings together, and the buildings in placement order. */
  datatype Plan = Plan(taken: set<Pos>, lots: seq<Lot>)

  function LotAt(spec: Spec, p: Pos): Lot { Lot(spec.kind, p.x, p.y, spec.w, spec.h) }

  function Footprint(lot: Lot): (cells: set<Pos>)
    ensures forall q :: q in cells <==> lot.Covers(q)
  {
    set i, j | lot.x <= i < lot.x + lot.w && lot.y <= j < lot.y + lot.h :: Pos(i, j)
  }

  predicate Free(win: Window, taken: set<Pos>, q: Pos)
    requires win.Valid()
  {
    win.Contains(q) && q !in taken && win.At(q).Buildable()
  }

  ghost predicate Fits(win: Window, taken: set<Pos>, spec: Spec, p: Pos)
    requires win.Valid()
  {
    && p.x + spec.w <= win.size
    && p.y + spec.h <= win.size
    && forall q | LotAt(spec, p).Covers(q) :: Free(win, taken, q)
  }

  /** Free means inside the window, taken by nothing, dry and not steep. */
  lemma FreeIsDryAndLevel(win: Window, taken: set<Pos>, q: Pos)
    requires win.Valid()
    ensures Free(win, taken, q) <==>
      && 0 <= q.x < win.size && 0 <= q.y < win.size && q !in taken
      && !win.At(q).water && !win.At(q).steep
  {
  }

  /** A footprint fits exactly when every lot under it is free: none of it can hang over the edge. */
  lemma FitsOnFreeLots(win: Window, taken: set<Pos>, spec: Spec, p: Pos)
    requires win.Valid() && spec.Solid()
    ensures Fits(win, taken, spec, p) <==> forall q | LotAt(spec, p).Covers(q) :: Free(win, taken, q)
  {
    var last := Pos(p.x + spec.w - 1, p.y + spec.h - 1);
    assert LotAt(spec, p).Covers(last);
  }

  function Put(plan: Plan, spec: Spec, p: Pos): Plan {
    Plan(plan.taken + Footprint(LotAt(spec, p)), plan.lots + [LotAt(spec, p)])
  }

  /** One centre-out pass: the footprint is tried at each eligible position in turn, until `want` of
      them stand. A pass with no limit of its own wants as many as there are positions. */
  ghost function Pass(win: Window, plan: Plan, spec: Spec, want: nat, eligible: Pos -> bool, order: seq<Pos>): Plan
    requires win.Valid()
    decreases |order|
  {
    if order == [] || want == 0 then plan
    else if eligible(order[0]) && Fits(win, plan.taken, spec, order[0]) then
      Pass(win, Put(plan, spec, order[0]), spec, want - 1, eligible, order[1..])
    else
      Pass(win, plan, spec, want, eligible, order[1..])
  }

  /** One unlimited pass per footprint, in the order given. */
  ghost function Fill(win: Window, plan: Plan, order: seq<Pos>, zone: Pos -> bool, specs: seq<Spec>): Plan
    requires win.Valid()
    decreases |specs|
  {
    if specs == [] then plan
    else
      var n := |specs| - 1;
      Pass(win, Fill(win, plan, order, zone, specs[..n]), specs[n], |order|, zone, order)
  }

  function BySize(): Spec -> int { (s: Spec) => 0 - s.Area() }

  /** The footprints of a zone by decreasing area, equal areas in their listed order. */
  function LargestFirst(specs: seq<Spec>): seq<Spec> { Sorting.StableSort(specs, BySize()) }

  // ----- what every plan keeps

  /** The road cells and the footprints of `lots`. */
  function Occupied(roads: set<Pos>, lots: seq<Lot>): set<Pos> {
    if lots == [] then roads else Occupied(roads, lots[..|lots| - 1]) + Footprint(lots[|lots| - 1])
  }

  ghost predicate Disjoint(a: Lot, b: Lot) {
    forall q :: !(a.Covers(q) && b.Covers(q))
  }

  /** A lot that stands on buildable ground inside the window, off every road. */
  ghost predicate WellSited(win: Window, roads: set<Pos>, lot: Lot)
    requires win.Valid()
  {
    lot.w > 0 && lot.h > 0 && forall q | lot.Covers(q) :: Free(win, roads, q)
  }

  ghost predicate Packed(win: Window, roads: set<Pos>, plan: Plan)
    requires win.Valid()
  {
    && plan.taken == Occupied(roads, plan.lots)
    && (forall i | 0 <= i < |plan.lots| :: WellSited(win, roads, plan.lots[i]))
    && (forall i, j | 0 <= i < j < |plan.lots| :: Disjoint(plan.lots[i], plan.lots[j]))
  }

  lemma {:induction false} OccupiedCovers(roads: set<Pos>, lots: seq<Lot>)
    ensures roads <= Occupied(roads, lots)
    ensures forall i | 0 <= i < |lots| :: Footprint(lots[i]) <= Occupied(roads, lots)
  {
    if lots != [] {
      var n := |lots| - 1;
      OccupiedCovers(roads, lots[..n]);
      forall i | 0 <= i < |lots|
        ensures Footprint(lots[i]) <= Occupied(roads, lots)
      {
        if i < n {
          assert lots[..n][i] == lots[i];
        }
      }
    }
  }

  lemma PutKeepsPacked(win: Window, roads: set<Pos>, plan: Plan, spec: Spec, p: Pos)
    requires win.Valid() && spec.Solid()
    requires Packed(win, roads, plan) && Fits(win, plan.taken, spec, p)
    ensures Packed(win, roads, Put(plan, spec, p))
  {
    var next, lot := Put(plan, spec, p), LotAt(spec, p);
    OccupiedCovers(roads, plan.lots);
    assert next.lots[..|next.lots| - 1] == plan.lots;
    forall i | 0 <= i < |plan.lots|
      ensures Disjoint(plan.lots[i], lot)
    {
      forall q
        ensures !(plan.lots[i].Covers(q) && lot.Covers(q))
      {
        if plan.lots[i].Covers(q) {
          assert q in Footprint(plan.lots[i]);
          assert q in plan.taken;
        }
      }
    }
    assert WellSited(win, roads, lot) by {
      forall q | lot.Covers(q)
        ensures Free(win, roads, q)
      {
        assert Free(win, plan.taken, q);
      }
    }
  }

  lemma {:induction false} PassKeepsPacked(win: Window, roads: set<Pos>, plan: Plan, spec: Spec, want: nat,
                                           eligible: Pos -> bool, order: seq<Pos>)
    requires win.Valid() && spec.Solid()
    requires Packed(win, roads, plan)
    ensures Packed(win, roads, Pass(win, plan, spec, want, eligible, order))
    decreases |order|
  {
    if order == [] || want == 0 {
    } else if eligible(order[0]) && Fits(win, plan.taken, spec, order[0]) {
      PutKeepsPacked(win, roads, plan, spec, order[0]);
      PassKeepsPacked(win, roads, Put(plan, spec, order[0]), spec, want - 1, eligible, order[1..]);
    } else {
      PassKeepsPacked(win, roads, plan, spec, want, eligible, order[1..]);
    }
  }

  lemma {:induction false} FillKeepsPacked(win: Window, roads: set<Pos>, plan: Plan, order: seq<Pos>,
                                           zone: Pos -> bool, specs: seq<Spec>)
    requires win.Valid() && forall s | s in specs :: s.Solid()
    requires Packed(win, roads, plan)
    ensures Packed(win, roads, Fill(win, plan, order, zone, specs))
    decreases |specs|
  {
    if specs != [] {
      var n := |specs| - 1;
      FillKeepsPacked(win, roads, plan, order, zone, specs[..n]);
      PassKeepsPacked(win, roads, Fill(win, plan, order, zone, specs[..n]), specs[n], |order|, zone, order);
    }
  }

  function TotalArea(lots: seq<Lot>): nat {
    if lots == [] then 0 else TotalArea(lots[..|lots| - 1]) + lots[|lots| - 1].w * lots[|lots| - 1].h
  }

  lemma {:induction false} RowSize(lot: Lot)
    requires lot.h == 1
    ensures |Footprint(lot)| == lot.w
    decreases lot.w
  {
    if lot.w == 0 {
      assert Footprint(lot) == {};
    } else {
      var left := lot.(w := lot.w - 1);
      RowSize(left);
      assert Footprint(lot) == Footprint(left) + {Pos(lot.x + lot.w - 1, lot.y)};
    }
  }

  lemma LastRowSplits(lot: Lot, above: Lot, last: Lot)
    requires lot.h > 0 && above == lot.(h := lot.h - 1) && last == lot.(y := lot.y + lot.h - 1, h := 1)
    ensures |Footprint(lot)| == |Footprint(above)| + |Footprint(last)|
  {
    forall q
      ensures q in Footprint(lot) <==> q in Footprint(above) || q in Footprint(last)
      ensures !(q in Footprint(above) && q in Footprint(last))
    {
      assert q in Footprint(lot) <==> lot.Covers(q);
      assert q in Footprint(above) <==> above.Covers(q);
      assert q in Footprint(last) <==> last.Covers(q);
    }
    assert Footprint(lot) == Footprint(above) + Footprint(last);
    assert Footprint(above) !! Footprint(last);
  }

  lemma {:induction false} FootprintSize(lot: Lot)
    ensures |Footprint(lot)| == lot.w * lot.h
    decreases lot.h
  {
    if lot.h == 0 {
      assert Footprint(lot) == {};
    } else {
      var above, last := lot.(h := lot.h - 1), lot.(y := lot.y + lot.h - 1, h := 1);
      LastRowSplits(lot, above, last);
      FootprintSize(above);
      RowSize(last);
      calc {
        lot.w * lot.h;
        lot.w * (lot.h - 1) + lot.w;
        |Footprint(lot)|;
      }
    }
  }

  /** No lot is counted twice: the occupied ground is the roads plus the areas of the buildings. */
  lemma {:induction false} PackedArea(win: Window, roads: set<Pos>, lots: seq<Lot>)
    requires win.Valid() && Packed(win, roads, Plan(Occupied(roads, lots), lots))
    ensures |Occupied(roads, lots)| == |roads| + TotalArea(lots)
    decreases |lots|
  {
    if lots != [] {
      var n := |lots| - 1;
      var rest, last := lots[..n], lots[n];
      PackedArea(win, roads, rest);
      FootprintSize(last);
      forall q | q in Occupied(roads, rest)
        ensures q !in Footprint(last)
      {
        OccupiedFrom(roads, rest, q);
        assert WellSited(win, roads, last);
        assert last.Covers(q) ==> Free(win, roads, q);
      }
      assert Occupied(roads, rest) !! Footprint(last);
    }
  }

  lemma {:induction false} OccupiedFrom(roads: set<Pos>, lots: seq<Lot>, q: Pos)
    requires q in Occupied(roads, lots)
    ensures q in roads || exists i | 0 <= i < |lots| :: lots[i].Covers(q)
  {
    if lots != [] {
      var n := |lots| - 1;
      if lots[n].Covers(q) {
      } else {
        OccupiedFrom(roads, lots[..n], q);
        if i :| 0 <= i < n && lots[..n][i].Covers(q) {
          assert lots[i].Covers(q);
        }
      }
    }
  }

  // ----- a plan only grows, so room that is gone stays gone

  ghost predicate Extends(later: Plan, earlier: Plan) {
    earlier.taken <= later.taken && earlier.lots <= later.lots
  }

  lemma {:induction false} PassExtends(win: Window, plan: Plan, spec: Spec, want: nat, eligible: Pos -> bool,
                                       order: seq<Pos>)
    requires win.Valid()
    ensures Extends(Pass(win, plan, spec, want, eligible, order), plan)
    ensures |Pass(win, plan, spec, want, eligible, order).lots| <= |plan.lots| + want
    decreases |order|
  {
    if order == [] || want == 0 {
    } else if eligible(order[0]) && Fits(win, plan.taken, spec, order[0]) {
      PassExtends(win, Put(plan, spec, order[0]), spec, want - 1, eligible, order[1..]);
    } else {
      PassExtends(win, plan, spec, want, eligible, order[1..]);
    }
  }

  lemma {:induction false} FillExtends(win: Window, plan: Plan, order: seq<Pos>, zone: Pos -> bool, specs: seq<Spec>)
    requires win.Valid()
    ensures Extends(Fill(win, plan, order, zone, specs), plan)
    decreases |specs|
  {
    if specs != [] {
      var n := |specs| - 1;
      FillExtends(win, plan, order, zone, specs[..n]);
      PassExtends(win, Fill(win, plan, order, zone, specs[..n]), specs[n], |order|, zone, order);
    }
  }

  lemma RoomOnlyShrinks(win: Window, taken: set<Pos>, later: set<Pos>, spec: Spec, p: Pos)
    requires win.Valid() && taken <= later
    ensures Fits(win, later, spec, p) ==> Fits(win, taken, spec, p)
  {
    if Fits(win, later, spec, p) {
      forall q | LotAt(spec, p).Covers(q)
        ensures Free(win, taken, q)
      {
        assert Free(win, later, q);
      }
    }
  }

  lemma TakenSpotIsFull(win: Window, taken: set<Pos>, spec: Spec, p: Pos)
    requires win.Valid() && spec.Solid() && p in taken
    ensures !Fits(win, taken, spec, p)
  {
    assert LotAt(spec, p).Covers(p);
  }

  /** Maximality: a pass that was not stopped by its quota leaves no eligible position of the order
      where its footprint would still fit, now or ever after. */
  lemma {:induction false} PassLeavesNoRoom(win: Window, plan: Plan, spec: Spec, want: nat, eligible: Pos -> bool,
                                            order: seq<Pos>,
                                            later: set<Pos>)
    requires win.Valid() && spec.Solid()
    requires |Pass(win, plan, spec, want, eligible, order).lots| < |plan.lots| + want || |order| <= want
    requires Pass(win, plan, spec, want, eligible, order).taken <= later
    ensures forall p | p in order && eligible(p) :: !Fits(win, later, spec, p)
    decreases |order|
  {
    if order != [] && want > 0 {
      var p := order[0];
      if eligible(p) && Fits(win, plan.taken, spec, p) {
        var next := Put(plan, spec, p);
        PassLeavesNoRoom(win, next, spec, want - 1, eligible, order[1..], later);
        PassExtends(win, next, spec, want - 1, eligible, order[1..]);
        assert p in Footprint(LotAt(spec, p));
        TakenSpotIsFull(win, later, spec, p);
      } else {
        PassLeavesNoRoom(win, plan, spec, want, eligible, order[1..], later);
        PassExtends(win, plan, spec, want, eligible, order[1..]);
        RoomOnlyShrinks(win, plan.taken, later, spec, p);
      }
    }
  }

  /** A filled zone has no room left for any of its footprints, now or ever after. */
  lemma {:induction false} FillLeavesNoRoom(win: Window, plan: Plan, order: seq<Pos>, zone: Pos -> bool,
                                            specs: seq<Spec>, later: set<Pos>)
    requires win.Valid() && forall s | s in specs :: s.Solid()
    requires Fill(win, plan, order, zone, specs).taken <= later
    ensures forall s, p | s in specs && p in order && zone(p) :: !Fits(win, later, s, p)
    decreases |specs|
  {
    if specs != [] {
      var n := |specs| - 1;
      var before := Fill(win, plan, order, zone, specs[..n]);
      PassExtends(win, before, specs[n], |order|, zone, order);
      FillLeavesNoRoom(win, plan, order, zone, specs[..n], later);
      PassLeavesNoRoom(win, before, specs[n], |order|, zone, order, later);
      assert specs == specs[..n] + [specs[n]];
    }
  }

  lemma LargestFirstOrders(specs: seq<Spec>)
    ensures forall i, j | 0 <= i < j < |LargestFirst(specs)| ::
        LargestFirst(specs)[i].Area() >= LargestFirst(specs)[j].Area()
    ensures forall s :: s in LargestFirst(specs) <==> s in specs
  {
    ghost var any := (a: Spec, b: Spec) => true;
    Sorting.StableSortRanks(specs, BySize(), any);
    Sorting.SameElements(specs, LargestFirst(specs));
    forall i, j | 0 <= i < j < |LargestFirst(specs)|
      ensures LargestFirst(specs)[i].Area() >= LargestFirst(specs)[j].Area()
    {
      assert Sorting.Ahead(LargestFirst(specs)[i], LargestFirst(specs)[j], BySize(), any);
    }
  }

  /** Larger in area is larger on the ground: no footprint is tried before one that covers more lots. */
  lemma LargestFirstByGround(specs: seq<Spec>, i: nat, j: nat, p: Pos)
    requires i < j < |LargestFirst(specs)|
    ensures |Footprint(LotAt(LargestFirst(specs)[i], p))| >= |Footprint(LotAt(LargestFirst(specs)[j], p))|
  {
    hide LargestFirst;
    LargestFirstOrders(specs);
    FootprintSize(LotAt(LargestFirst(specs)[i], p));
    FootprintSize(LotAt(LargestFirst(specs)[j], p));
  }

  /** When a zone comes to its k-th footprint, no footprint tried before it (each at least as large)
      fits at any position of the zone, and none ever will again. */
  lemma LargerFootprintsAreExhausted(win: Window, plan: Plan, order: seq<Pos>, zone: Pos -> bool, specs: seq<Spec>,
                                     k: nat, j: nat,
                                     later: set<Pos>, p: Pos)
    requires win.Valid() && forall s | s in specs :: s.Solid()
    requires j < k <= |LargestFirst(specs)|
    requires Fill(win, plan, order, zone, LargestFirst(specs)[..k]).taken <= later
    requires p in order && zone(p)
    ensures !Fits(win, later, LargestFirst(specs)[j], p)
    ensures k < |LargestFirst(specs)| ==> LargestFirst(specs)[j].Area() >= LargestFirst(specs)[k].Area()
  {
    LargestFirstOrders(specs);
    var tried := LargestFirst(specs)[..k];
    forall s | s in tried
      ensures s.Solid()
    {
      assert s in LargestFirst(specs);
    }
    assert tried[j] == LargestFirst(specs)[j];
    FillLeavesNoRoom(win, plan, order, zone, tried, later);
  }

  /** A pass adds its own footprint, at eligible positions of the order, and nothing else. */
  lemma {:induction false} PassAddsItsOwn(win: Window, plan: Plan, spec: Spec, want: nat, eligible: Pos -> bool,
                                          order: seq<Pos>, m: nat)
    requires win.Valid() && |plan.lots| <= m < |Pass(win, plan, spec, want, eligible, order).lots|
    ensures var lot := Pass(win, plan, spec, want, eligible, order).lots[m];
      lot == LotAt(spec, Pos(lot.x, lot.y)) && eligible(Pos(lot.x, lot.y)) && Pos(lot.x, lot.y) in order
    decreases |order|
  {
    hide Fits;
    var p, rest := order[0], order[1..];
    var placed := eligible(p) && Fits(win, plan.taken, spec, p);
    var next := if placed then Put(plan, spec, p) else plan;
    var left := if placed then want - 1 else want;
    PassExtends(win, next, spec, left, eligible, rest);
    if placed && m == |plan.lots| {
      assert Pass(win, plan, spec, want, eligible, order).lots[m] == next.lots[m];
    } else {
      PassAddsItsOwn(win, next, spec, left, eligible, rest, m);
    }
  }

  /** A fill adds footprints of its list, at positions of its zone, and nothing else. */
  lemma {:induction false} FillAddsItsOwn(win: Window, plan: Plan, order: seq<Pos>, zone: Pos -> bool, specs: seq<Spec>,
                                          m: nat)
    requires win.Valid() && |plan.lots| <= m < |Fill(win, plan, order, zone, specs).lots|
    ensures var lot := Fill(win, plan, order, zone, specs).lots[m];
      zone(Pos(lot.x, lot.y)) && exists s :: s in specs && lot == LotAt(s, Pos(lot.x, lot.y))
    decreases |specs|
  {
    hide Pass;
    var n := |specs| - 1;
    assert specs != [];
    var before := Fill(win, plan, order, zone, specs[..n]);
    PassExtends(win, before, specs[n], |order|, zone, order);
    FillExtends(win, plan, order, zone, specs[..n]);
    if m < |before.lots| {
      FillAddsItsOwn(win, plan, order, zone, specs[..n], m);
      var lot := before.lots[m];
      var s :| s in specs[..n] && lot == LotAt(s, Pos(lot.x, lot.y));
      assert s in specs;
    } else {
      PassAddsItsOwn(win, before, specs[n], |order|, zone, order, m);
      assert specs[n] in specs;
    }
  }

  // ----- nearest first

  /** Lot m of a plan was put on the k-th position of the order, and at that moment no eligible
      position ranked before it had room. */
  ghost predicate FirstFit(win: Window, roads: set<Pos>, lots: seq<Lot>, m: nat, spec: Spec, eligible: Pos -> bool,
                           order: seq<Pos>, k: nat)
    requires win.Valid()
  {
    && m < |lots| && k < |order|
    && lots[m] == LotAt(spec, order[k]) && eligible(order[k])
    && Fits(win, Occupied(roads, lots[..m]), spec, order[k])
    && forall j | 0 <= j < k && eligible(order[j]) :: !Fits(win, Occupied(roads, lots[..m]), spec, order[j])
  }

  /** Every lot a pass adds stands on the first eligible position with room at that moment. */
  lemma {:induction false} PassTakesFirstFit(win: Window, roads: set<Pos>, plan: Plan, spec: Spec, want: nat,
                                             eligible: Pos -> bool,
                                             order: seq<Pos>, m: nat)
    requires win.Valid() && spec.Solid() && Packed(win, roads, plan)
    requires |plan.lots| <= m < |Pass(win, plan, spec, want, eligible, order).lots|
    ensures var lots := Pass(win, plan, spec, want, eligible, order).lots;
      exists k: nat :: FirstFit(win, roads, lots, m, spec, eligible, order, k)
    decreases |order|
  {
    var p, rest := order[0], order[1..];
    var lots := Pass(win, plan, spec, want, eligible, order).lots;
    var placed := eligible(p) && Fits(win, plan.taken, spec, p);
    var next := if placed then Put(plan, spec, p) else plan;
    var left := if placed then want - 1 else want;
    PassExtends(win, next, spec, left, eligible, rest);
    if placed && m == |plan.lots| {
      assert lots[m] == next.lots[m];
      assert lots[..m] == plan.lots;
      assert FirstFit(win, roads, lots, m, spec, eligible, order, 0);
    } else {
      if placed {
        PutKeepsPacked(win, roads, plan, spec, p);
      }
      PassTakesFirstFit(win, roads, next, spec, left, eligible, rest, m);
      var k: nat :| FirstFit(win, roads, lots, m, spec, eligible, rest, k);
      var taken := Occupied(roads, lots[..m]);
      assert eligible(p) ==> !Fits(win, taken, spec, p) by {
        assert next.lots <= lots[..m];
        OccupiedGrows(roads, next.lots, lots[..m]);
        if placed {
          assert p in Footprint(LotAt(spec, p));
          TakenSpotIsFull(win, taken, spec, p);
        } else {
          RoomOnlyShrinks(win, plan.taken, taken, spec, p);
        }
      }
      forall j | 0 <= j < k + 1 && eligible(order[j])
        ensures !Fits(win, taken, spec, order[j])
      {
        if j > 0 {
          assert order[j] == rest[j - 1];
        }
      }
      assert FirstFit(win, roads, lots, m, spec, eligible, order, k + 1);
    }
  }

  lemma {:induction false} OccupiedGrows(roads: set<Pos>, lots: seq<Lot>, more: seq<Lot>)
    requires lots <= more
    ensures Occupied(roads, lots) <= Occupied(roads, more)
    decreases |more|
  {
    if |lots| < |more| {
      OccupiedGrows(roads, lots, more[..|more| - 1]);
    } else {
      assert lots == more;
    }
  }
}
