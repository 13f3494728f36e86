/** The two jogged street grids and the elevated highway of a city window. */
module Roads {
  import opened Terrain
  import Sorting

  const LOCAL := 0
  const ARTERIAL := 1
  const HIGHWAY := 2

  const ROAD_SPACING := 4
  const ARTERIAL_SPACING := 2 * ROAD_SPACING

  datatype RoadTile = RoadTile(x: int, y: int, class_: int) {
    function Where(): Pos { Pos(x, y) }
  }

  // ----- grid lines

  /** `v` is one of the lines drawn every `spacing` lots from the middle of the window. */
  predicate OnGrid(size: nat, spacing: nat, v: int)
    requires spacing > 0
  {
    0 <= v < size && (v - size / 2) % spacing == 0
  }

  ghost predicate Increasing(s: seq<int>) {
    forall i, j | 0 <= i < j < |s| :: s[i] < s[j]
  }

  lemma Spread(a: int, b: int, k: int)
    ensures (a + b) * k == a * k + b * k
  {
  }

  lemma StepsApart(a: int, b: int, spacing: nat)
    ensures a < b ==> a * spacing + spacing <= b * spacing
  {
    if a < b {
      Spread(a + 1, b - a - 1, spacing);
      Spread(a, 1, spacing);
      assert (b - a - 1) * spacing >= 0;
    }
  }

  lemma MultiplesAreApart(spacing: nat, off: int, d: int)
    requires spacing > 0 && off % spacing == 0 && d % spacing == 0
    requires off <= d < off + spacing
    ensures d == off
  {
    StepsApart(off / spacing, d / spacing, spacing);
    StepsApart(d / spacing, off / spacing, spacing);
  }

  lemma Negated(d: int, spacing: nat)
    requires spacing > 0
    ensures d % spacing == 0 <==> (-d) % spacing == 0
  {
    if d % spacing == 0 {
      assert d == (d / spacing) * spacing;
      assert -d == (-(d / spacing)) * spacing;
      Exact(-(d / spacing), spacing);
    }
    if (-d) % spacing == 0 {
      assert -d == ((-d) / spacing) * spacing;
      assert d == (-((-d) / spacing)) * spacing;
      Exact(-((-d) / spacing), spacing);
    }
  }

  lemma Exact(k: int, spacing: nat)
    requires spacing > 0
    ensures (k * spacing) % spacing == 0
  {
    StepsApart(k, (k * spacing) / spacing, spacing);
    StepsApart((k * spacing) / spacing, k, spacing);
  }

  /** Every line nearer the middle than `off`, each once. */
  ghost predicate Ring(size: nat, spacing: nat, off: int, raw: seq<int>)
    requires spacing > 0
  {
    && (forall v :: v in raw <==> OnGrid(size, spacing, v) && -off < v - size / 2 < off)
    && (forall i, j | 0 <= i < j < |raw| :: raw[i] != raw[j])
  }

  /** The next multiple of the spacing brings at most one line on each side. */
  lemma NextRing(size: nat, spacing: nat, off: int, raw: seq<int>, wider: seq<int>)
    requires spacing > 0 && off > 0 && off % spacing == 0 && Ring(size, spacing, off, raw)
    requires wider == raw + (if size / 2 - off >= 0 then [size / 2 - off] else [])
                          + (if size / 2 + off < size then [size / 2 + off] else [])
    ensures Ring(size, spacing, off + spacing, wider)
  {
    Negated(off, spacing);
    forall v
      ensures v in wider <==> OnGrid(size, spacing, v) && -(off + spacing) < v - size / 2 < off + spacing
    {
      var d := v - size / 2;
      if OnGrid(size, spacing, v) && off <= d < off + spacing {
        MultiplesAreApart(spacing, off, d);
      } else if OnGrid(size, spacing, v) && off <= -d < off + spacing {
        Negated(d, spacing);
        MultiplesAreApart(spacing, off, -d);
      }
    }
    forall i, j | 0 <= i < j < |wider|
      ensures wider[i] != wider[j]
    {
      assert i < |raw| ==> wider[i] == raw[i] && raw[i] in raw;
      assert j < |raw| ==> wider[j] == raw[j];
    }
  }

  lemma FirstRing(size: nat, spacing: nat)
    requires size > 0 && spacing > 0
    ensures spacing % spacing == 0 && Ring(size, spacing, spacing, [size / 2])
  {
    Exact(1, spacing);
    Exact(0, spacing);
    forall v | OnGrid(size, spacing, v) && 0 - spacing < v - size / 2 < spacing
      ensures v == size / 2
    {
      Negated(v - size / 2, spacing);
      if v >= size / 2 {
        MultiplesAreApart(spacing, 0, v - size / 2);
      } else {
        MultiplesAreApart(spacing, 0, size / 2 - v);
      }
    }
  }

  lemma LastRing(size: nat, spacing: nat, off: int, lines: seq<int>)
    requires spacing > 0 && Ring(size, spacing, off, lines)
    requires size / 2 - off < 0 && size / 2 + off >= size
    ensures forall v :: v in lines <==> OnGrid(size, spacing, v)
  {
  }

  /** The lines of one street grid: in order, each once, and exactly those on the grid. A window of no
      lots still yields the single line 0, which no street then follows. */
  method LineIndices(size: nat, spacing: nat) returns (lines: seq<int>)
    requires spacing > 0
    ensures Increasing(lines)
    ensures size > 0 ==> forall v :: v in lines <==> OnGrid(size, spacing, v)
    ensures size == 0 ==> lines == [0]
  {
    var mid := size / 2;
    lines := [mid];
    var off := spacing;
    if size > 0 {
      FirstRing(size, spacing);
    }
    while mid - off >= 0 || mid + off < size
      invariant off >= spacing
      invariant size == 0 ==> lines == [0]
      invariant size > 0 ==> off % spacing == 0 && Ring(size, spacing, off, lines)
      decreases size - off
    {
      ghost var before := lines;
      if mid - off >= 0 {
        lines := lines + [mid - off];
      }
      if mid + off < size {
        lines := lines + [mid + off];
      }
      if size > 0 {
        NextRing(size, spacing, off, before, lines);
        NextMultiple(off, spacing);
      }
      off := off + spacing;
    }
    if size > 0 {
      LastRing(size, spacing, off, lines);
    }
    lines := SortInts(lines);
    assert size == 0 ==> 0 in lines && |lines| == 1;
  }

  /** sort.Ints on values that are all different. */
  method SortInts(raw: seq<int>) returns (lines: seq<int>)
    requires forall i, j | 0 <= i < j < |raw| :: raw[i] != raw[j]
    ensures Increasing(lines) && |lines| == |raw|
    ensures forall v :: v in lines <==> v in raw
  {
    var key := (v: int) => v;
    ghost var before := (a: int, b: int) => a != b;
    Sorting.StableSortRanks(raw, key, before);
    lines := Sorting.StableSort(raw, key);
    Sorting.SameElements(raw, lines);
    forall i, j | 0 <= i < j < |lines|
      ensures lines[i] < lines[j]
    {
      assert Sorting.Ahead(lines[i], lines[j], key, before);
    }
  }

  lemma NextMultiple(off: int, spacing: nat)
    requires spacing > 0 && off % spacing == 0
    ensures (off + spacing) % spacing == 0
  {
    Exact(off / spacing + 1, spacing);
    assert off == (off / spacing) * spacing;
    assert off + spacing == (off / spacing + 1) * spacing;
  }

  /** Twice the spacing from the same centre: an arterial line is always one of the local lines. */
  lemma ArterialLinesAreLocal(size: nat, v: int)
    requires OnGrid(size, ARTERIAL_SPACING, v)
    ensures OnGrid(size, ROAD_SPACING, v)
  {
  }

  // ----- jogging around ground a class may not cross

  /** Whether a road of this class may run through the tile at all. */
  predicate PassableForClass(t: Tile, cls: int) {
    !t.impassable && !t.steep && !(t.wideRiver && cls == LOCAL)
  }

  /** An arterial crosses all that a local road may, and wide rivers besides. */
  lemma OnlyWideRiversPartTheClasses(t: Tile)
    ensures PassableForClass(t, LOCAL) <==> PassableForClass(t, ARTERIAL) && !t.wideRiver
    ensures PassableForClass(t, ARTERIAL) <==> !(t.impassable || t.steep)
  {
  }

  predicate RoadOk(win: Window, cls: int, q: Pos)
    requires win.Valid()
  {
    win.Contains(q) && PassableForClass(win.At(q), cls)
  }

  function ColumnTest(win: Window, cls: int, x: int): int -> bool
    requires win.Valid()
  {
    y => RoadOk(win, cls, Pos(x, y))
  }

  function RowTest(win: Window, cls: int, y: int): int -> bool
    requires win.Valid()
  {
    x => RoadOk(win, cls, Pos(x, y))
  }

  function Dist(a: int, b: int): nat { if a < b then b - a else a - b }

  /** `r` is the passing index nearest to the nominal one, the larger of two equally near, and the
      nominal one itself when no index passes. */
  ghost predicate IsJog(size: nat, nominal: int, test: int -> bool, r: int) {
    && 0 <= r < size
    && (forall i | 0 <= i < size && test(i) ::
          test(r) && (Dist(r, nominal) < Dist(i, nominal) || (Dist(r, nominal) == Dist(i, nominal) && i <= r)))
    && (test(r) || r == nominal)
  }

  lemma JogIsUnique(size: nat, nominal: int, test: int -> bool, r: int, r': int)
    requires IsJog(size, nominal, test, r) && IsJog(size, nominal, test, r')
    ensures r == r'
  {
  }

  method Jog(size: nat, nominal: int, test: int -> bool) returns (r: int)
    requires 0 <= nominal < size
    ensures IsJog(size, nominal, test, r)
  {
    if test(nominal) {
      return nominal;
    }
    for d := 1 to size
      invariant forall i | 0 <= i < size && Dist(i, nominal) < d :: !test(i)
    {
      if nominal + d < size && test(nominal + d) {
        return nominal + d;
      }
      if nominal - d >= 0 && test(nominal - d) {
        return nominal - d;
      }
    }
    return nominal;
  }

  lemma JogExists(size: nat, nominal: int, test: int -> bool) returns (r: int)
    requires 0 <= nominal < size
    ensures IsJog(size, nominal, test, r)
  {
    r := JogBeyond(size, nominal, test, 0);
  }

  lemma JogBeyond(size: nat, nominal: int, test: int -> bool, d: nat) returns (r: int)
    requires 0 <= nominal < size && d <= size
    requires forall i | 0 <= i < size && Dist(i, nominal) < d :: !test(i)
    ensures IsJog(size, nominal, test, r)
    decreases size - d
  {
    if nominal + d < size && test(nominal + d) {
      r := nominal + d;
    } else if nominal - d >= 0 && test(nominal - d) {
      r := nominal - d;
    } else if d < size {
      r := JogBeyond(size, nominal, test, d + 1);
    } else {
      r := nominal;
    }
  }

  // ----- streets

  /** Some line's street, across or down the window, runs over `q`. */
  ghost predicate OnStreet(win: Window, lines: seq<int>, cls: int, q: Pos)
    requires win.Valid()
  {
    exists l | l in lines :: Across(win, l, cls, q) || Down(win, l, cls, q)
  }

  ghost predicate Across(win: Window, l: int, cls: int, q: Pos)
    requires win.Valid()
  {
    win.Contains(q) && IsJog(win.size, l, ColumnTest(win, cls, q.x), q.y)
  }

  ghost predicate Down(win: Window, l: int, cls: int, q: Pos)
    requires win.Valid()
  {
    win.Contains(q) && IsJog(win.size, l, RowTest(win, cls, q.y), q.x)
  }

  ghost predicate LinesInside(win: Window, lines: seq<int>) {
    win.size > 0 ==> forall l | l in lines :: 0 <= l < win.size
  }

  method TraceLineSet(win: Window, lines: seq<int>, cls: int) returns (out: seq<RoadTile>)
    requires win.Valid() && LinesInside(win, lines)
    ensures forall r :: r in out <==> r.class_ == cls && OnStreet(win, lines, cls, r.Where())
  {
    out := [];
    for k := 0 to |lines|
      invariant forall r :: r in out <==> r.class_ == cls && OnStreet(win, lines[..k], cls, r.Where())
    {
      assert lines[k] in lines;
      var across := TraceAcross(win, lines[k], cls);
      var down := TraceDown(win, lines[k], cls);
      assert lines[..k + 1] == lines[..k] + [lines[k]];
      out := out + across + down;
    }
    assert lines[..|lines|] == lines;
  }

  method TraceAcross(win: Window, l: int, cls: int) returns (out: seq<RoadTile>)
    requires win.Valid() && (win.size > 0 ==> 0 <= l < win.size)
    ensures forall r :: r in out <==> r.class_ == cls && Across(win, l, cls, r.Where())
  {
    out := [];
    for x := 0 to win.size
      invariant forall r :: r in out <==> r.class_ == cls && r.x < x && Across(win, l, cls, r.Where())
    {
      var y := Jog(win.size, l, ColumnTest(win, cls, x));
      forall r: RoadTile | r.x == x && Across(win, l, cls, r.Where())
        ensures r.y == y
      {
        JogIsUnique(win.size, l, ColumnTest(win, cls, x), r.y, y);
      }
      out := out + [RoadTile(x, y, cls)];
    }
  }

  method TraceDown(win: Window, l: int, cls: int) returns (out: seq<RoadTile>)
    requires win.Valid() && (win.size > 0 ==> 0 <= l < win.size)
    ensures forall r :: r in out <==> r.class_ == cls && Down(win, l, cls, r.Where())
  {
    out := [];
    for y := 0 to win.size
      invariant forall r :: r in out <==> r.class_ == cls && r.y < y && Down(win, l, cls, r.Where())
    {
      var x := Jog(win.size, l, RowTest(win, cls, y));
      forall r: RoadTile | r.y == y && Down(win, l, cls, r.Where())
        ensures r.x == x
      {
        JogIsUnique(win.size, l, RowTest(win, cls, y), r.x, x);
      }
      out := out + [RoadTile(x, y, cls)];
    }
  }

  ghost predicate ColumnPassable(win: Window, cls: int, x: int)
    requires win.Valid()
  {
    exists y | 0 <= y < win.size :: RoadOk(win, cls, Pos(x, y))
  }

  ghost predicate RowPassable(win: Window, cls: int, y: int)
    requires win.Valid()
  {
    exists x | 0 <= x < win.size :: RoadOk(win, cls, Pos(x, y))
  }

  /** Every row and every column has some tile this class may cross. */
  ghost predicate Crossable(win: Window, cls: int)
    requires win.Valid()
  {
    forall v | 0 <= v < win.size :: ColumnPassable(win, cls, v) && RowPassable(win, cls, v)
  }

  lemma CrossableColumnsJog(win: Window, l: int, cls: int, q: Pos)
    requires win.Valid() && Across(win, l, cls, q)
    ensures ColumnPassable(win, cls, q.x) <==> RoadOk(win, cls, q)
  {
    if ColumnPassable(win, cls, q.x) {
      var y :| 0 <= y < win.size && RoadOk(win, cls, Pos(q.x, y));
      assert ColumnTest(win, cls, q.x)(y);
    }
  }

  lemma CrossableRowsJog(win: Window, l: int, cls: int, q: Pos)
    requires win.Valid() && Down(win, l, cls, q)
    ensures RowPassable(win, cls, q.y) <==> RoadOk(win, cls, q)
  {
    if RowPassable(win, cls, q.y) {
      var x :| 0 <= x < win.size && RoadOk(win, cls, Pos(x, q.y));
      assert RowTest(win, cls, q.y)(x);
    }
  }

  // ----- the streets of a whole grid

  /** Some street of the grid with this spacing runs over `q`. */
  ghost predicate GridStreet(win: Window, spacing: nat, cls: int, q: Pos)
    requires win.Valid() && spacing > 0
  {
    exists l | OnGrid(win.size, spacing, l) :: Across(win, l, cls, q) || Down(win, l, cls, q)
  }

  lemma GridStreetsFromLines(win: Window, spacing: nat, lines: seq<int>, cls: int, q: Pos)
    requires win.Valid() && spacing > 0
    requires win.size > 0 ==> forall v :: v in lines <==> OnGrid(win.size, spacing, v)
    ensures OnStreet(win, lines, cls, q) <==> GridStreet(win, spacing, cls, q)
  {
  }

  /** No street of a class runs over ground barred to it exactly when every row and every column of the
      window has some tile the class may cross. */
  lemma StreetsAvoidBarredGround(win: Window, spacing: nat, cls: int)
    requires win.Valid() && spacing > 0
    ensures (forall q | GridStreet(win, spacing, cls, q) :: RoadOk(win, cls, q)) <==> Crossable(win, cls)
  {
    if Crossable(win, cls) {
      forall q | GridStreet(win, spacing, cls, q)
        ensures RoadOk(win, cls, q)
      {
        var l :| OnGrid(win.size, spacing, l) && (Across(win, l, cls, q) || Down(win, l, cls, q));
        if Across(win, l, cls, q) {
          CrossableColumnsJog(win, l, cls, q);
        } else {
          CrossableRowsJog(win, l, cls, q);
        }
      }
    }
    if forall q | GridStreet(win, spacing, cls, q) :: RoadOk(win, cls, q) {
      forall v | 0 <= v < win.size
        ensures ColumnPassable(win, cls, v) && RowPassable(win, cls, v)
      {
        var l := win.size / 2;
        Exact(0, spacing);
        assert OnGrid(win.size, spacing, l);
        var y := JogExists(win.size, l, ColumnTest(win, cls, v));
        assert Across(win, l, cls, Pos(v, y));
        assert GridStreet(win, spacing, cls, Pos(v, y));
        CrossableColumnsJog(win, l, cls, Pos(v, y));
        var x := JogExists(win.size, l, RowTest(win, cls, v));
        assert Down(win, l, cls, Pos(x, v));
        assert GridStreet(win, spacing, cls, Pos(x, v));
        CrossableRowsJog(win, l, cls, Pos(x, v));
      }
    }
  }

  // ----- the elevated highway

  /** Three quarters of the way down the window, whatever the terrain. */
  function HighwayRow(size: nat): (row: int)
    ensures size > 0 ==> 0 <= row < size
    ensures size >= 4 ==> 3 * size <= 4 * row < 3 * size + 4
    ensures size < 4 ==> size == 0 || row == size - 1
  {
    var row := size - size / 4;
    var row := if row >= size then size - 1 else row;
    if row < 0 then 0 else row
  }

  method ElevatedHighwayPath(size: nat) returns (path: seq<RoadTile>)
    ensures forall r :: r in path <==> r.class_ == HIGHWAY && 0 <= r.x < size && r.y == HighwayRow(size)
    ensures |path| == size
  {
    path := [];
    for x := 0 to size
      invariant |path| == x
      invariant forall r :: r in path <==> r.class_ == HIGHWAY && 0 <= r.x < x && r.y == HighwayRow(size)
    {
      path := path + [RoadTile(x, HighwayRow(size), HIGHWAY)];
    }
  }

  // ----- one class per lot

  /** The highest class of road traced over `q`, -1 for none. */
  ghost function TopClass(win: Window, q: Pos): int
    requires win.Valid()
  {
    if win.Contains(q) && q.y == HighwayRow(win.size) then HIGHWAY
    else if GridStreet(win, ARTERIAL_SPACING, ARTERIAL, q) then ARTERIAL
    else if GridStreet(win, ROAD_SPACING, LOCAL, q) then LOCAL
    else -1
  }

  /** A road of this class runs over `q`. */
  ghost predicate Traced(win: Window, cls: int, q: Pos)
    requires win.Valid()
  {
    || (cls == LOCAL
        && exists l | OnGrid(win.size, 4, l) :: Across(win, l, LOCAL, q) || Down(win, l, LOCAL, q))
    || (cls == ARTERIAL
        && exists l | OnGrid(win.size, 8, l) :: Across(win, l, ARTERIAL, q) || Down(win, l, ARTERIAL, q))
    || (cls == HIGHWAY && win.Contains(q) && q.y == HighwayRow(win.size))
  }

  /** The class of a lot is the highest of all the roads over it. */
  lemma TopClassIsTheHighest(win: Window, q: Pos)
    requires win.Valid()
    ensures forall cls | Traced(win, cls, q) :: 0 <= cls <= TopClass(win, q)
    ensures TopClass(win, q) == -1 || Traced(win, TopClass(win, q), q)
  {
  }

  ghost function RoadCells(win: Window): set<Pos>
    requires win.Valid()
  {
    set x, y | 0 <= x < win.size && 0 <= y < win.size && TopClass(win, Pos(x, y)) >= 0 :: Pos(x, y)
  }

  ghost predicate Raised(win: Window, before: seq<int>, after: seq<int>, tiles: seq<RoadTile>, cls: int)
    requires win.Valid() && |before| == |after| == win.size * win.size
  {
    forall x, y | 0 <= x < win.size && 0 <= y < win.size ::
      var i := Index(win.size, x, y);
      after[i] == if RoadTile(x, y, cls) in tiles && before[i] < cls then cls else before[i]
  }

  /** Raises every listed lot to the list's class; a lot already of a higher class keeps it. */
  method SetClasses(win: Window, classAt: array<int>, tiles: seq<RoadTile>, cls: int)
    requires win.Valid() && classAt.Length == win.size * win.size
    requires forall r | r in tiles :: r.class_ == cls && win.Contains(r.Where())
    modifies classAt
    ensures Raised(win, old(classAt[..]), classAt[..], tiles, cls)
  {
    ghost var before := classAt[..];
    for k := 0 to |tiles|
      invariant Raised(win, before, classAt[..], tiles[..k], cls)
    {
      var r := tiles[k];
      assert r in tiles;
      var i := Index(win.size, r.x, r.y);
      ghost var was := classAt[..];
      if classAt[i] < r.class_ {
        classAt[i] := r.class_;
      }
      forall x, y | 0 <= x < win.size && 0 <= y < win.size
        ensures var j := Index(win.size, x, y);
          classAt[..][j] == if RoadTile(x, y, cls) in tiles[..k + 1] && before[j] < cls then cls else before[j]
      {
        var j := Index(win.size, x, y);
        if j == i {
          IndexInjective(win.size, x, y, r.x, r.y);
        }
        assert tiles[..k + 1] == tiles[..k] + [r];
      }
    }
    assert tiles[..|tiles|] == tiles;
  }
}
