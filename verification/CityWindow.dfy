/** Choosing the neighbourhood of a city: the flattest, driest square window of one chunk. */
module CityWindow {

  import opened Terrain

  /** Elevation in metres and water flags, row by row. */
  datatype Grid = Grid(elevation: seq<int>, flags: seq<bv8>, width: int) {
    predicate Has(p: Pos) {
      0 <= p.x < width && 0 <= p.y && p.y * width + p.x < |elevation| && p.y * width + p.x < |flags|
    }
  }

  const STEEP_DELTA := 220
  const WATER: bv8 := 7

  function Distance(a: int, b: int): nat { if a < b then b - a else a - b }

  /** East, west, south and north. */
  const SIDES: seq<Pos> := [Pos(1, 0), Pos(-1, 0), Pos(0, 1), Pos(0, -1)]

  function Beside(p: Pos, side: Pos): Pos { Pos(p.x + side.x, p.y + side.y) }

  /** The sides of a tile are the tiles one step away, straight. */
  lemma SidesAreOneStep(p: Pos, q: Pos)
    ensures (exists i :: 0 <= i < |SIDES| && q == Beside(p, SIDES[i])) <==> Distance(p.x, q.x) + Distance(p.y, q.y) == 1
  {
    if Distance(p.x, q.x) + Distance(p.y, q.y) == 1 {
      var i := if q.x > p.x then 0 else if q.x < p.x then 1 else if q.y > p.y then 2 else 3;
      assert q == Beside(p, SIDES[i]);
    }
  }

  /** Whether the grid has an elevation there. */
  predicate Measured(g: Grid, p: Pos) { 0 <= p.x < g.width && 0 <= p.y && p.y * g.width + p.x < |g.elevation| }

  function Height(g: Grid, p: Pos): int
    requires Measured(g, p)
  {
    assert p.y * g.width >= 0;
    g.elevation[p.y * g.width + p.x]
  }

  predicate Cliff(g: Grid, p: Pos, q: Pos)
    requires Measured(g, p)
  {
    Measured(g, q) && Distance(Height(g, p), Height(g, q)) > STEEP_DELTA
  }

  /** The ground drops or climbs by more than the threshold towards one of the four sides. */
  ghost predicate Steep(g: Grid, p: Pos)
    requires Measured(g, p)
  {
    exists i :: 0 <= i < |SIDES| && Cliff(g, p, Beside(p, SIDES[i]))
  }

  predicate Wet(g: Grid, p: Pos)
    requires g.Has(p)
  {
    assert p.y * g.width >= 0;
    g.flags[p.y * g.width + p.x] & WATER != 0
  }

  /** Wet means flagged as ocean, stream or lake. */
  lemma WetIsAnyWater(g: Grid, p: Pos)
    requires g.Has(p)
    ensures var f := g.flags[p.y * g.width + p.x]; Wet(g, p) <==> f & 1 != 0 || f & 2 != 0 || f & 4 != 0
  {
  }

  ghost predicate Bad(g: Grid, p: Pos) { g.Has(p) && (Wet(g, p) || Steep(g, p)) }

  /** A tile of the grid, with the elevation kept for it. */
  ghost predicate Charted(g: Grid, p: Pos, height: int) {
    var i := p.y * g.width + p.x;
    0 <= p.x < g.width && 0 <= p.y && 0 <= i < |g.elevation| && g.elevation[i] == height
  }

  lemma ChartedIsMeasured(g: Grid, p: Pos, h: int)
    ensures Charted(g, p, h) <==> Measured(g, p) && Height(g, p) == h
  {
    if Measured(g, p) {
      assert p.y * g.width >= 0;
    }
  }

  /** More than 220 metres up or down to a charted tile one straight step away is steep. */
  lemma CliffsAreSteep(g: Grid, p: Pos, h: int, q: Pos, k: int)
    requires Charted(g, p, h) && Charted(g, q, k) && Distance(p.x, q.x) + Distance(p.y, q.y) == 1
    requires k - h > 220 || h - k > 220
    ensures Measured(g, p) && Steep(g, p)
  {
    hide Charted, Measured, Height;
    ChartedIsMeasured(g, p, h);
    ChartedIsMeasured(g, q, k);
    SidesAreOneStep(p, q);
  }

  /** And steep ground has such a tile beside it. */
  lemma SteepHasACliff(g: Grid, p: Pos, h: int) returns (q: Pos, k: int)
    requires Charted(g, p, h) && Measured(g, p) && Steep(g, p)
    ensures Charted(g, q, k) && Distance(p.x, q.x) + Distance(p.y, q.y) == 1 && (k - h > 220 || h - k > 220)
  {
    hide Charted, Measured, Height;
    ChartedIsMeasured(g, p, h);
    var i :| 0 <= i < |SIDES| && Cliff(g, p, Beside(p, SIDES[i]));
    q := Beside(p, SIDES[i]);
    k := Height(g, q);
    ChartedIsMeasured(g, q, k);
    SidesAreOneStep(p, q);
  }

  /** A tile counts against a window when it is wet, or steep, or both. */
  lemma BadIsWetOrSteep(g: Grid, p: Pos)
    requires g.Has(p)
    ensures Wet(g, p) ==> Bad(g, p)
    ensures Steep(g, p) ==> Bad(g, p)
    ensures Bad(g, p) && !Wet(g, p) ==> Steep(g, p)
  {
  }

  /** A cliff has two sides: beside a steep tile lies another one. */
  lemma SteepTilesComeInPairs(g: Grid, p: Pos)
    requires Measured(g, p) && Steep(g, p)
    ensures exists i | 0 <= i < |SIDES| :: var q := Beside(p, SIDES[i]); Measured(g, q) && Steep(g, q)
  {
    var i :| 0 <= i < |SIDES| && Cliff(g, p, Beside(p, SIDES[i]));
    var q, back := Beside(p, SIDES[i]), if i % 2 == 0 then i + 1 else i - 1;
    assert Beside(q, SIDES[back]) == p;
    assert Cliff(g, q, Beside(q, SIDES[back]));
  }

  method IsSteepAt(g: Grid, x: int, y: int) returns (steep: bool)
    requires Measured(g, Pos(x, y))
    ensures steep <==> Steep(g, Pos(x, y))
  {
    var p := Pos(x, y);
    var e := Height(g, p);
    var worst, i := 0, 0;
    while i < |SIDES|
      invariant 0 <= i <= |SIDES| && worst >= 0
      invariant worst > STEEP_DELTA <==> exists k :: 0 <= k < i && Cliff(g, p, Beside(p, SIDES[k]))
    {
      var q := Beside(p, SIDES[i]);
      if Measured(g, q) {
        var diff := Height(g, q) - e;
        if diff < 0 {
          diff := -diff;
        }
        if diff > worst {
          worst := diff;
        }
      }
      i := i + 1;
    }
    steep := worst > STEEP_DELTA;
  }

  // ----- windows

  /** The bad tiles of a window that come before column `lx` of row `ly`, row by row. */
  ghost function BadBefore(g: Grid, corner: Pos, size: int, ly: int, lx: int): set<Pos> {
    set x, y | corner.x <= x < corner.x + size && corner.y <= y < corner.y + size
               && (y < corner.y + ly || (y == corner.y + ly && x < corner.x + lx)) && Bad(g, Pos(x, y)) :: Pos(x, y)
  }

  /** The wet or steep tiles of a window. */
  ghost function BadTiles(g: Grid, corner: Pos, size: int): set<Pos> {
    set x, y | corner.x <= x < corner.x + size && corner.y <= y < corner.y + size && Bad(g, Pos(x, y)) :: Pos(x, y)
  }

  lemma OneMoreTile(g: Grid, corner: Pos, size: int, ly: int, lx: int)
    requires 0 <= lx < size && 0 <= ly < size
    ensures var p := Pos(corner.x + lx, corner.y + ly);
      |BadBefore(g, corner, size, ly, lx + 1)| == |BadBefore(g, corner, size, ly, lx)| + if Bad(g, p) then 1 else 0
  {
    hide Bad;
    var p, was, now := Pos(corner.x + lx, corner.y + ly), BadBefore(g, corner, size, ly, lx),
                       BadBefore(g, corner, size, ly, lx + 1);
    assert p !in was;
    assert now == if Bad(g, p) then was + {p} else was;
  }

  lemma NextRow(g: Grid, corner: Pos, size: int, ly: int)
    ensures BadBefore(g, corner, size, ly, size) == BadBefore(g, corner, size, ly + 1, 0)
    ensures BadBefore(g, corner, size, 0, 0) == {}
    ensures BadBefore(g, corner, size, size, 0) == BadTiles(g, corner, size)
  {
    hide Bad;
  }

  method CountBad(g: Grid, corner: Pos, size: int) returns (bad: nat)
    requires forall x, y | corner.x <= x < corner.x + size && corner.y <= y < corner.y + size :: g.Has(Pos(x, y))
    ensures bad == |BadTiles(g, corner, size)|
  {
    hide Steep, BadTiles, BadBefore;
    bad := 0;
    var ly := 0;
    NextRow(g, corner, size, 0);
    while ly < size
      invariant 0 <= ly && (ly <= size || ly == 0)
      invariant bad == |BadBefore(g, corner, size, ly, 0)|
    {
      var lx := 0;
      while lx < size
        invariant 0 <= lx <= size
        invariant bad == |BadBefore(g, corner, size, ly, lx)|
      {
        var p := Pos(corner.x + lx, corner.y + ly);
        assert g.Has(p);
        OneMoreTile(g, corner, size, ly, lx);
        if Wet(g, p) {
          bad := bad + 1;
        } else {
          var steep := IsSteepAt(g, p.x, p.y);
          if steep {
            bad := bad + 1;
          }
        }
        lx := lx + 1;
      }
      NextRow(g, corner, size, ly);
      ly := ly + 1;
    }
    NextRow(g, corner, size, size);
    if size < 0 {
      EmptyWindow(g, corner, size);
    }
  }

  lemma EmptyWindow(g: Grid, corner: Pos, size: int)
    requires size <= 0
    ensures BadTiles(g, corner, size) == {} && BadBefore(g, corner, size, 0, 0) == {}
  {
  }

  /** A square chunk of the grid, and the window's edge. */
  datatype Search = Search(g: Grid, chunk: Pos, edge: int, size: int) {
    predicate FitsAt(o: Pos) { 0 <= o.x <= edge - size && 0 <= o.y <= edge - size }

    ghost function BadAt(o: Pos): nat { |BadTiles(g, Pos(chunk.x + o.x, chunk.y + o.y), size)| }

    /** The chunk lies on the grid. */
    ghost predicate OnGrid() {
      forall x, y | chunk.x <= x < chunk.x + edge && chunk.y <= y < chunk.y + edge :: g.Has(Pos(x, y))
    }

    /** No window has fewer bad tiles, and none before it in row order has as few. */
    ghost predicate FirstFlattest(best: Pos) {
      && FitsAt(best)
      && forall o | FitsAt(o) :: BadAt(best) <= BadAt(o) && (ReadsBefore(o, best) ==> BadAt(best) < BadAt(o))
    }
  }

  /** A chunk within the grid's columns, and within the rows of both layers, lies on the grid. */
  lemma ChunkWithinIsOnGrid(s: Search)
    requires 0 <= s.chunk.x && s.chunk.x + s.edge <= s.g.width && 0 <= s.chunk.y
    requires (s.chunk.y + s.edge) * s.g.width <= |s.g.elevation| && (s.chunk.y + s.edge) * s.g.width <= |s.g.flags|
    ensures s.OnGrid()
  {
    forall x, y | s.chunk.x <= x < s.chunk.x + s.edge && s.chunk.y <= y < s.chunk.y + s.edge
      ensures s.g.Has(Pos(x, y))
    {
      var left := s.chunk.y + s.edge - 1 - y;
      assert left * s.g.width >= 0;
      assert (y + 1 + left) * s.g.width == y * s.g.width + s.g.width + left * s.g.width;
    }
  }

  /** At most one window is the first flattest one, so the answer is settled by the grid alone. */
  lemma FirstFlattestIsUnique(s: Search, a: Pos, b: Pos)
    requires s.FirstFlattest(a) && s.FirstFlattest(b)
    ensures a == b
  {
    hide Search.BadAt;
  }

  /** The window at `corner` lies on the grid whenever the chunk does. */
  lemma WindowIsOnGrid(s: Search, o: Pos)
    requires s.OnGrid() && s.FitsAt(o)
    ensures var corner := Pos(s.chunk.x + o.x, s.chunk.y + o.y);
      forall x, y | corner.x <= x < corner.x + s.size && corner.y <= y < corner.y + s.size :: s.g.Has(Pos(x, y))
  {
  }

  /** Best among the windows read before `o`. */
  ghost predicate BestBefore(s: Search, best: Pos, bestBad: int, o: Pos) {
    if bestBad < 0 then forall p | s.FitsAt(p) :: !ReadsBefore(p, o)
    else
      && s.FitsAt(best) && ReadsBefore(best, o) && bestBad == s.BadAt(best)
      && forall p | s.FitsAt(p) && ReadsBefore(p, o) ::
          s.BadAt(best) <= s.BadAt(p) && (ReadsBefore(p, best) ==> s.BadAt(best) < s.BadAt(p))
  }

  /** One more window is compared with the best so far. */
  lemma OneMoreWindow(s: Search, best: Pos, bestBad: int, o: Pos)
    requires s.FitsAt(o) && BestBefore(s, best, bestBad, o)
    ensures var next := Pos(o.x + 1, o.y);
      if bestBad < 0 || s.BadAt(o) < bestBad then BestBefore(s, o, s.BadAt(o), next)
      else BestBefore(s, best, bestBad, next)
  {
    hide Search.BadAt;
    forall p | s.FitsAt(p) && ReadsBefore(p, Pos(o.x + 1, o.y))
      ensures p == o || ReadsBefore(p, o)
    {
    }
  }

  /** Past the last window of a row, the next row begins. */
  lemma NextWindowRow(s: Search, best: Pos, bestBad: int, o: Pos)
    requires o.x > s.edge - s.size && BestBefore(s, best, bestBad, o)
    ensures BestBefore(s, best, bestBad, Pos(0, o.y + 1))
  {
    hide Search.BadAt;
  }

  lemma PastTheLastRow(s: Search, best: Pos, bestBad: int, o: Pos)
    requires s.size <= s.edge && o.y > s.edge - s.size && BestBefore(s, best, bestBad, o)
    ensures s.FirstFlattest(best)
  {
    hide Search.BadAt;
    assert s.FitsAt(Pos(0, 0));
  }

  method BestCityWindow(s: Search) returns (best: Pos)
    requires s.OnGrid()
    ensures s.size <= s.edge ==> s.FirstFlattest(best)
    ensures s.size > s.edge ==> best == Pos(0, 0)
  {
    hide Search.BadAt, Search.OnGrid, Search.FirstFlattest, BestBefore, BadTiles;
    best := Pos(0, 0);
    var bestBad: int := -1;
    var maxOff := s.edge - s.size;
    var oy := 0;
    NoneBefore(s);
    while oy <= maxOff
      invariant 0 <= oy && (oy <= maxOff + 1 || oy == 0)
      invariant BestBefore(s, best, bestBad, Pos(0, oy))
      invariant maxOff < 0 ==> best == Pos(0, 0)
    {
      var ox := 0;
      while ox <= maxOff
        invariant 0 <= ox <= maxOff + 1
        invariant BestBefore(s, best, bestBad, Pos(ox, oy))
      {
        var o := Pos(ox, oy);
        WindowIsOnGrid(s, o);
        var bad := CountBad(s.g, Pos(s.chunk.x + ox, s.chunk.y + oy), s.size);
        BadAtIs(s, o);
        OneMoreWindow(s, best, bestBad, o);
        if bestBad < 0 || bad < bestBad {
          bestBad := bad;
          best := o;
        }
        ox := ox + 1;
      }
      NextWindowRow(s, best, bestBad, Pos(ox, oy));
      oy := oy + 1;
    }
    if s.size <= s.edge {
      PastTheLastRow(s, best, bestBad, Pos(0, oy));
    }
  }

  lemma NoneBefore(s: Search)
    ensures BestBefore(s, Pos(0, 0), -1, Pos(0, 0))
  {
  }

  lemma BadAtIs(s: Search, o: Pos)
    ensures s.BadAt(o) == |BadTiles(s.g, Pos(s.chunk.x + o.x, s.chunk.y + o.y), s.size)|
  {
  }
}
