/** The mutable side of a city being laid out: the occupied grid and the lots placed so far. */
module CitySite {
  import opened Terrain
  import opened Packing
  import opened Roads

  class Site {
    const win: Window
    const occupied: array<bool>
    var lots: seq<Lot>

    ghost predicate Valid() {
      win.Valid() && occupied.Length == win.size * win.size
    }

    /** The lots of the window that are marked occupied. */
    ghost function Taken(): (taken: set<Pos>)
      reads occupied
      requires Valid()
      ensures forall q :: q in taken <==> win.Contains(q) && occupied[Index(win.size, q.x, q.y)]
    {
      set x, y | 0 <= x < win.size && 0 <= y < win.size && occupied[Index(win.size, x, y)] :: Pos(x, y)
    }

    ghost function Current(): Plan
      reads this, occupied
      requires Valid()
    {
      Plan(Taken(), lots)
    }

    /** Only the roads stand: every road cell is occupied, and nothing else. */
    constructor (win: Window, roads: seq<RoadTile>)
      requires win.Valid()
      requires forall r | r in roads :: win.Contains(r.Where())
      ensures Valid() && this.win == win && fresh(occupied)
      ensures Current() == Plan(set r | r in roads :: r.Where(), [])
    {
      this.win := win;
      occupied := new bool[win.size * win.size](_ => false);
      lots := [];
      new;
      MarkRoads(roads);
    }

    method MarkRoads(roads: seq<RoadTile>)
      requires Valid() && Taken() == {}
      requires forall r | r in roads :: win.Contains(r.Where())
      modifies occupied
      ensures Taken() == set r | r in roads :: r.Where()
    {
      for k := 0 to |roads|
        invariant forall q :: q in Taken() <==> exists i | 0 <= i < k :: roads[i].Where() == q
      {
        var r := roads[k];
        assert r in roads;
        MarkOne(r.x, r.y);
      }
      forall q
        ensures q in Taken() <==> q in set r | r in roads :: r.Where()
      {
        if r :| r in roads && r.Where() == q {
          var i :| 0 <= i < |roads| && roads[i] == r;
        }
      }
    }

    method MarkOne(x: int, y: int)
      requires Valid() && win.Contains(Pos(x, y))
      modifies occupied
      ensures Taken() == old(Taken()) + {Pos(x, y)}
    {
      occupied[Index(win.size, x, y)] := true;
      forall q | win.Contains(q) && Index(win.size, q.x, q.y) == Index(win.size, x, y)
        ensures q == Pos(x, y)
      {
        IndexInjective(win.size, q.x, q.y, x, y);
      }
    }

    /** A lot is free to build on: inside the window, unoccupied, dry and not steep. */
    predicate IsBuildable(x: int, y: int)
      reads occupied
      requires Valid()
      ensures IsBuildable(x, y) <==> Free(win, Taken(), Pos(x, y))
    {
      if x < 0 || y < 0 || x >= win.size || y >= win.size then false
      else !occupied[Index(win.size, x, y)] && win.tiles[Index(win.size, x, y)].Buildable()
    }

    /** Whether every lot under the footprint is free. */
    method HasRoom(spec: Spec, x: int, y: int) returns (ok: bool)
      requires Valid()
      ensures ok <==> Fits(win, Taken(), spec, Pos(x, y))
    {
      var lot := LotAt(spec, Pos(x, y));
      if x + spec.w > win.size || y + spec.h > win.size {
        return false;
      }
      for dy := 0 to spec.h
        invariant forall q | lot.Covers(q) && q.y < y + dy :: Free(win, Taken(), q)
      {
        for dx := 0 to spec.w
          invariant forall q | lot.Covers(q) && q.y == y + dy && q.x < x + dx :: Free(win, Taken(), q)
        {
          if !IsBuildable(x + dx, y + dy) {
            assert lot.Covers(Pos(x + dx, y + dy));
            return false;
          }
        }
      }
      return true;
    }

    method Mark(spec: Spec, x: int, y: int)
      requires Valid() && Fits(win, Taken(), spec, Pos(x, y))
      modifies occupied
      ensures Taken() == old(Taken()) + Footprint(LotAt(spec, Pos(x, y)))
    {
      var lot := LotAt(spec, Pos(x, y));
      ghost var before := Taken();
      for dy := 0 to spec.h
        invariant forall q :: q in Taken() <==> q in before || (lot.Covers(q) && q.y < y + dy)
      {
        ghost var above := Taken();
        for dx := 0 to spec.w
          invariant forall q :: q in Taken() <==> q in above || (lot.Covers(q) && q.y == y + dy && q.x < x + dx)
        {
          assert lot.Covers(Pos(x + dx, y + dy));
          MarkOne(x + dx, y + dy);
        }
      }
    }

    /** Puts the footprint with its top-left corner at (x, y) if every lot under it is free, and leaves
        everything as it was otherwise. */
    method Place(spec: Spec, x: int, y: int) returns (ok: bool)
      requires Valid()
      modifies this`lots, occupied
      ensures ok <==> Fits(win, old(Taken()), spec, Pos(x, y))
      ensures Current() == if ok then Put(old(Current()), spec, Pos(x, y)) else old(Current())
    {
      ok := HasRoom(spec, x, y);
      if ok {
        Mark(spec, x, y);
        lots := lots + [LotAt(spec, Pos(x, y))];
      }
    }

    /** Tries the footprint at every eligible position of the order until `want` stand. */
    method PlaceUpTo(spec: Spec, want: nat, eligible: Pos -> bool, order: seq<Pos>)
      requires Valid()
      modifies this`lots, occupied
      ensures Current() == Pass(win, old(Current()), spec, want, eligible, order)
    {
      hide Fits, Put;
      var placed := 0;
      for k := 0 to |order|
        invariant 0 <= placed <= want
        invariant Pass(win, Current(), spec, want - placed, eligible, order[k..])
               == Pass(win, old(Current()), spec, want, eligible, order)
      {
        if placed >= want {
          break;
        }
        assert order[k..][1..] == order[k + 1..];
        if eligible(order[k]) {
          var ok := Place(spec, order[k].x, order[k].y);
          if ok {
            placed := placed + 1;
          }
        }
      }
    }

    /** Every footprint over every position of the zone, one footprint after another, largest first. */
    method FillZone(order: seq<Pos>, inZone: Pos -> bool, specs: seq<Spec>)
      requires Valid()
      modifies this`lots, occupied
      ensures Current() == Fill(win, old(Current()), order, inZone, LargestFirst(specs))
    {
      hide Fits, Put, LargestFirst;
      var sorted := LargestFirst(specs);
      for k := 0 to |sorted|
        invariant Current() == Fill(win, old(Current()), order, inZone, sorted[..k])
      {
        ghost var start := Current();
        var spec := sorted[k];
        for i := 0 to |order|
          invariant Pass(win, Current(), spec, |order| - i, inZone, order[i..])
                 == Pass(win, start, spec, |order|, inZone, order)
        {
          assert order[i..][1..] == order[i + 1..];
          if inZone(order[i]) {
            var placed := Place(spec, order[i].x, order[i].y);
            if !placed {
              WantDoesNotBind(win, Current(), spec, |order| - i - 1, |order| - i, inZone, order[i + 1..]);
            }
          } else {
            WantDoesNotBind(win, Current(), spec, |order| - i - 1, |order| - i, inZone, order[i + 1..]);
          }
        }
        assert sorted[..k + 1][..k] == sorted[..k];
      }
      assert sorted[..|sorted|] == sorted;
    }
  }

  /** A pass places at most one footprint per position, so a quota of that many never stops it. */
  lemma {:induction false} WantDoesNotBind(win: Window, plan: Plan, spec: Spec, want: nat, want': nat,
                                           eligible: Pos -> bool, order: seq<Pos>)
    requires win.Valid() && |order| <= want && |order| <= want'
    ensures Pass(win, plan, spec, want, eligible, order) == Pass(win, plan, spec, want', eligible, order)
    decreases |order|
  {
    if order != [] {
      if eligible(order[0]) && Fits(win, plan.taken, spec, order[0]) {
        WantDoesNotBind(win, Put(plan, spec, order[0]), spec, want - 1, want' - 1, eligible, order[1..]);
      } else {
        WantDoesNotBind(win, plan, spec, want, want', eligible, order[1..]);
      }
    }
  }
}
