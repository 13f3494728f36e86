/** A river drawn as one continuous, smoothed stroke. Coordinates are real numbers. */
module RiverStroke {

  datatype Point = Point(x: real, y: real, r: real)

  // ----- corner cutting

  function Mix(a: real, b: real): real { 0.75 * a + 0.25 * b }

  /** A quarter of the way from `p` to `q`. */
  function Quarter(p: Point, q: Point): Point { Point(Mix(p.x, q.x), Mix(p.y, q.y), Mix(p.r, q.r)) }

  /** The two points that replace each corner, segment by segment. */
  function Corners(run: seq<Point>): seq<Point> {
    if |run| < 2 then []
    else
      var p, q := run[|run| - 2], run[|run| - 1];
      Corners(run[..|run| - 1]) + [Quarter(p, q), Quarter(q, p)]
  }

  /** One round of Chaikin corner cutting; the end points stay. */
  function Cut(run: seq<Point>): seq<Point>
    requires run != []
  {
    [run[0]] + Corners(run) + [run[|run| - 1]]
  }

  /** A cut point lies on its segment, three times as far from the far end as from the near one. */
  lemma CutsAtAQuarter(p: Point, q: Point)
    ensures var c := Quarter(p, q);
      q.x - c.x == 3.0 * (c.x - p.x) && q.y - c.y == 3.0 * (c.y - p.y) && q.r - c.r == 3.0 * (c.r - p.r)
  {
  }

  /** Every segment gives way to its two cut points, in order, between the run's own ends. */
  lemma {:induction false} EverySegmentIsCut(run: seq<Point>, i: nat)
    requires i + 1 < |run|
    ensures |Cut(run)| == 2 * |run| && Cut(run)[0] == run[0] && Cut(run)[2 * |run| - 1] == run[|run| - 1]
    ensures Cut(run)[2 * i + 1] == Quarter(run[i], run[i + 1])
    ensures Cut(run)[2 * i + 2] == Quarter(run[i + 1], run[i])
    decreases |run|
  {
    hide Quarter;
    var n := |run| - 1;
    CornersLength(run);
    CornersLength(run[..n]);
    if i + 1 < n {
      EverySegmentIsCut(run[..n], i);
      assert Cut(run[..n])[2 * i + 1] == Corners(run[..n])[2 * i];
      assert Cut(run[..n])[2 * i + 2] == Corners(run[..n])[2 * i + 1];
    }
  }

  function Smoothed(run: seq<Point>): seq<Point> { if |run| <= 2 then run else Cut(Cut(run)) }

  lemma {:induction false} CornersLength(run: seq<Point>)
    requires run != []
    ensures |Corners(run)| == 2 * (|run| - 1)
    decreases |run|
  {
    if |run| >= 2 {
      CornersLength(run[..|run| - 1]);
    }
  }

  ghost predicate Box(run: seq<Point>, lo: Point, hi: Point) {
    forall p | p in run :: lo.x <= p.x <= hi.x && lo.y <= p.y <= hi.y && lo.r <= p.r <= hi.r
  }

  /** Corner cutting never leaves the bounding box of the run. */
  lemma {:induction false} CornersStayInside(run: seq<Point>, lo: Point, hi: Point)
    requires Box(run, lo, hi)
    ensures Box(Corners(run), lo, hi)
    decreases |run|
  {
    if |run| >= 2 {
      var n := |run| - 1;
      forall p | p in run[..n]
        ensures p in run
      {
      }
      CornersStayInside(run[..n], lo, hi);
      assert run[n - 1] in run && run[n] in run;
    }
  }

  lemma CutStaysInside(run: seq<Point>, lo: Point, hi: Point)
    requires run != [] && Box(run, lo, hi)
    ensures Box(Cut(run), lo, hi)
  {
    CornersStayInside(run, lo, hi);
    assert run[0] in run && run[|run| - 1] in run;
  }

  function Abs(v: real): real { if v < 0.0 then -v else v }

  predicate Near(p: Point, q: Point, dx: real, dy: real) { Abs(q.x - p.x) <= dx && Abs(q.y - p.y) <= dy }

  /** No jump of the run is longer than this, along either axis. */
  ghost predicate Jumps(run: seq<Point>, dx: real, dy: real) {
    forall i | 0 <= i < |run| - 1 :: Near(run[i], run[i + 1], dx, dy)
  }

  lemma JumpsAppend(a: seq<Point>, q: Point, dx: real, dy: real)
    requires Jumps(a, dx, dy) && (a != [] ==> Near(a[|a| - 1], q, dx, dy))
    ensures Jumps(a + [q], dx, dy)
  {
    var r := a + [q];
    forall i | 0 <= i < |r| - 1
      ensures Near(r[i], r[i + 1], dx, dy)
    {
      assert r[i] == a[i];
      if i + 1 < |a| {
        assert r[i + 1] == a[i + 1];
      }
    }
  }

  /** The cut points of two segments in a row: no jump among them is longer than the longer segment. */
  lemma CutSteps(o: Point, p: Point, q: Point, dx: real, dy: real)
    requires Near(o, p, dx, dy) && Near(p, q, dx, dy)
    ensures Near(Quarter(p, o), Quarter(p, q), dx, dy)
    ensures Near(Quarter(p, q), Quarter(q, p), dx, dy)
    ensures Near(p, Quarter(p, q), dx, dy) && Near(Quarter(q, p), q, dx, dy)
  {
  }

  lemma {:induction false} CornersNeverLengthen(run: seq<Point>, dx: real, dy: real)
    requires |run| >= 2 && Jumps(run, dx, dy)
    ensures Jumps([run[0]] + Corners(run), dx, dy)
    ensures var n := |run| - 1; Corners(run) != [] && Corners(run)[|Corners(run)| - 1] == Quarter(run[n], run[n - 1])
    decreases |run|
  {
    var n := |run| - 1;
    var rest := run[..n];
    var p, q := run[n - 1], run[n];
    assert Near(p, q, dx, dy);
    var before := [run[0]] + Corners(rest);
    if n == 1 {
      assert Corners(rest) == [];
      CutSteps(p, p, q, dx, dy);
    } else {
      assert forall i | 0 <= i < |rest| - 1 :: Near(rest[i], rest[i + 1], dx, dy) by {
        forall i | 0 <= i < |rest| - 1
          ensures Near(rest[i], rest[i + 1], dx, dy)
        {
          assert rest[i] == run[i] && rest[i + 1] == run[i + 1];
        }
      }
      CornersNeverLengthen(rest, dx, dy);
      assert Near(run[n - 2], run[n - 1], dx, dy);
      CutSteps(run[n - 2], p, q, dx, dy);
      assert before[|before| - 1] == Quarter(p, run[n - 2]);
    }
    JumpsAppend(before, Quarter(p, q), dx, dy);
    JumpsAppend(before + [Quarter(p, q)], Quarter(q, p), dx, dy);
    assert [run[0]] + Corners(run) == before + [Quarter(p, q)] + [Quarter(q, p)];
  }

  lemma CutNeverLengthens(run: seq<Point>, dx: real, dy: real)
    requires |run| >= 2 && Jumps(run, dx, dy)
    ensures Jumps(Cut(run), dx, dy)
  {
    var n := |run| - 1;
    CornersNeverLengthen(run, dx, dy);
    assert Near(run[n - 1], run[n], dx, dy);
    CutSteps(run[n - 1], run[n - 1], run[n], dx, dy);
    var front := [run[0]] + Corners(run);
    assert front[|front| - 1] == Quarter(run[n], run[n - 1]);
    JumpsAppend(front, run[n], dx, dy);
  }

  /** Two rounds of cutting keep the end points, stay inside the run's box, and lengthen no jump. */
  lemma SmoothingIsGentle(run: seq<Point>, lo: Point, hi: Point, dx: real, dy: real)
    requires |run| >= 2 && Box(run, lo, hi) && Jumps(run, dx, dy)
    ensures var s := Smoothed(run);
      && |s| >= 2 && s[0] == run[0] && s[|s| - 1] == run[|run| - 1]
      && Box(s, lo, hi) && Jumps(s, dx, dy)
      && (|run| > 2 ==> |s| == 4 * |run|)
  {
    hide Corners, Box, Jumps;
    if |run| > 2 {
      var once := Cut(run);
      CornersLength(run);
      CornersLength(once);
      CutStaysInside(run, lo, hi);
      CutStaysInside(once, lo, hi);
      CutNeverLengthens(run, dx, dy);
      CutNeverLengthens(once, dx, dy);
    }
  }

  // ----- pixels

  datatype Pixel = Pixel(x: int, y: int)

  /** To the nearest whole number, halves away from zero. */
  function Round(v: real): int { if v >= 0.0 then (v + 0.5).Floor else -((-v + 0.5).Floor) }

  /** Round goes to a nearest whole number, and from halfway away from zero. */
  lemma RoundIsNearest(v: real)
    ensures -0.5 <= v - Round(v) as real <= 0.5
    ensures v - Round(v) as real == 0.5 ==> v < 0.0
    ensures v - Round(v) as real == -0.5 ==> v > 0.0
  {
  }

  function Along(a: real, b: real, t: real): real { a + (b - a) * t }

  function At(p: Point, q: Point, t: real): Pixel { Pixel(Round(Along(p.x, q.x, t)), Round(Along(p.y, q.y, t))) }

  function Dot(p: Point): Pixel { Pixel(Round(p.x), Round(p.y)) }

  function Larger(a: real, b: real): real { if a < b then b else a }

  function Steps(p: Point, q: Point): (n: int)
    ensures n > 0
  {
    Larger(Abs(q.x - p.x), Abs(q.y - p.y)).Floor + 1
  }

  /** No more steps than the longer side needs. */
  lemma StepsAreFew(p: Point, q: Point)
    ensures var longer := Larger(Abs(q.x - p.x), Abs(q.y - p.y));
      (Steps(p, q) - 1) as real <= longer < Steps(p, q) as real
  {
  }

  predicate Touch(a: Pixel, b: Pixel) { -1 <= a.x - b.x <= 1 && -1 <= a.y - b.y <= 1 }

  ghost predicate Unbroken(s: seq<Pixel>) {
    forall i | 0 <= i < |s| - 1 :: Touch(s[i], s[i + 1])
  }

  /** The centres along one segment, both ends included. */
  function SegmentPixels(p: Point, q: Point): seq<Pixel> {
    seq(Steps(p, q) + 1, s => At(p, q, s as real / Steps(p, q) as real))
  }

  function StrokePixels(run: seq<Point>): seq<Pixel> {
    if |run| < 2 then []
    else StrokePixels(run[..|run| - 1]) + SegmentPixels(run[|run| - 2], run[|run| - 1])
  }

  lemma RoundIsClose(u: real, v: real)
    requires -1.0 < u - v < 1.0
    ensures -1 <= Round(u) - Round(v) <= 1
  {
  }

  lemma RoundIsBetween(v: real, lo: int, hi: int)
    requires lo as real <= v <= hi as real
    ensures lo <= Round(v) <= hi
  {
  }

  lemma Multiplies(k: real, m: real)
    requires m > 0.0
    ensures k >= 1.0 ==> k * m >= m
    ensures k <= -1.0 ==> k * m <= -m
  {
    if k >= 1.0 {
      assert (k - 1.0) * m >= 0.0;
    }
    if k <= -1.0 {
      assert (-1.0 - k) * m >= 0.0;
    }
  }

  lemma SmallShare(d: real, m: real)
    requires m > 0.0 && -m < d < m
    ensures -1.0 < d / m < 1.0
  {
    var k := d / m;
    assert k * m == d;
    Multiplies(k, m);
  }

  lemma ShareOf(d: real, s: real, m: real)
    requires m > 0.0
    ensures d * (s / m) == s * (d / m)
  {
    var k, t := d / m, s / m;
    assert d == k * m && s == t * m;
    assert k * m * t == t * m * k;
  }

  lemma OneStep(a: real, b: real, s: int, n: int)
    requires n > 0 && Abs(b - a) < n as real
    ensures -1 <= Round(Along(a, b, s as real / n as real)) - Round(Along(a, b, (s + 1) as real / n as real)) <= 1
  {
    hide Round;
    var d, m, k := b - a, n as real, (b - a) / n as real;
    SmallShare(d, m);
    ShareOf(d, s as real, m);
    ShareOf(d, (s + 1) as real, m);
    var here := s as real * k;
    assert (s + 1) as real * k == here + k by {
      assert (s + 1) as real == s as real + 1.0;
    }
    assert Along(a, b, s as real / m) == a + here;
    assert Along(a, b, (s + 1) as real / m) == a + (here + k);
    RoundIsClose(a + here, a + (here + k));
  }

  lemma StepsOutrun(p: Point, q: Point)
    ensures Abs(q.x - p.x) < Steps(p, q) as real && Abs(q.y - p.y) < Steps(p, q) as real
  {
  }

  lemma SegmentEnds(a: real, b: real, n: int)
    requires n > 0
    ensures Along(a, b, 0 as real / n as real) == a && Along(a, b, n as real / n as real) == b
  {
    var m := n as real;
    assert 0.0 / m == 0.0 && m / m == 1.0;
  }

  lemma SegmentIsUnbroken(p: Point, q: Point)
    ensures var s := SegmentPixels(p, q);
      Unbroken(s) && s[0] == Dot(p) && s[|s| - 1] == Dot(q)
  {
    hide Round, Steps, Along;
    var n, s := Steps(p, q), SegmentPixels(p, q);
    StepsOutrun(p, q);
    forall i | 0 <= i < |s| - 1
      ensures Touch(s[i], s[i + 1])
    {
      OneStep(p.x, q.x, i, n);
      OneStep(p.y, q.y, i, n);
      assert s[i] == At(p, q, i as real / n as real) && s[i + 1] == At(p, q, (i + 1) as real / n as real);
    }
    SegmentEnds(p.x, q.x, n);
    SegmentEnds(p.y, q.y, n);
    assert s[0] == At(p, q, 0 as real / n as real) && s[n] == At(p, q, n as real / n as real);
  }

  lemma {:induction false} StrokeIsUnbroken(run: seq<Point>)
    requires |run| >= 2
    ensures var s := StrokePixels(run);
      s != [] && Unbroken(s) && s[0] == Dot(run[0]) && s[|s| - 1] == Dot(run[|run| - 1])
    decreases |run|
  {
    var n := |run| - 1;
    var rest, last := run[..n], SegmentPixels(run[n - 1], run[n]);
    SegmentIsUnbroken(run[n - 1], run[n]);
    if n == 1 {
      assert StrokePixels(rest) == [];
      assert StrokePixels(run) == last;
    } else {
      StrokeIsUnbroken(rest);
      var front, s := StrokePixels(rest), StrokePixels(run);
      forall i | 0 <= i < |s| - 1
        ensures Touch(s[i], s[i + 1])
      {
        if i < |front| - 1 {
          assert s[i] == front[i] && s[i + 1] == front[i + 1];
        } else if i == |front| - 1 {
          assert s[i] == Dot(rest[n - 1]) && s[i + 1] == last[0];
        } else {
          assert s[i] == last[i - |front|] && s[i + 1] == last[i + 1 - |front|];
        }
      }
    }
  }

  lemma Positive(x: real, y: real)
    requires x >= 0.0 && y >= 0.0
    ensures x * y >= 0.0
  {
  }

  lemma AlongStaysBetween(a: real, b: real, t: real, lo: real, hi: real)
    requires lo <= a <= hi && lo <= b <= hi && 0.0 <= t <= 1.0
    ensures lo <= Along(a, b, t) <= hi
  {
    var u := 1.0 - t;
    assert Along(a, b, t) - lo == (a - lo) * u + (b - lo) * t;
    assert hi - Along(a, b, t) == (hi - a) * u + (hi - b) * t;
    Positive(a - lo, u);
    Positive(b - lo, t);
    Positive(hi - a, u);
    Positive(hi - b, t);
  }

  lemma ShareIsProper(s: int, n: int)
    requires 0 <= s <= n && n > 0
    ensures 0.0 <= s as real / n as real <= 1.0
  {
    var m := n as real;
    QuotientSign(s as real, m);
    QuotientSign(m - s as real, m);
    assert s as real / m + (m - s as real) / m == 1.0;
  }

  lemma QuotientSign(v: real, m: real)
    requires v >= 0.0 && m > 0.0
    ensures v / m >= 0.0
  {
    var k := v / m;
    assert k * m == v;
    assert k < 0.0 ==> -k * m > 0.0;
  }

  // ----- blots

  /** One dot of the brush. */
  datatype Blot = Blot(centre: Pixel, radius: int)

  function BlotAt(p: Point, q: Point, t: real): Blot {
    var radius := Round(Along(p.r, q.r, t));
    Blot(At(p, q, t), (if radius < 1 then 1 else radius) - 1)
  }

  function SegmentBlots(p: Point, q: Point): seq<Blot> {
    seq(Steps(p, q) + 1, s => BlotAt(p, q, s as real / Steps(p, q) as real))
  }

  function StrokeBlots(run: seq<Point>): seq<Blot> {
    if |run| < 2 then []
    else StrokeBlots(run[..|run| - 1]) + SegmentBlots(run[|run| - 2], run[|run| - 1])
  }

  ghost predicate CentredOn(blots: seq<Blot>, pixels: seq<Pixel>) {
    |blots| == |pixels| && forall i | 0 <= i < |blots| :: blots[i].centre == pixels[i] && blots[i].radius >= 0
  }

  lemma {:induction false} StrokeCentres(run: seq<Point>)
    ensures CentredOn(StrokeBlots(run), StrokePixels(run))
    decreases |run|
  {
    hide Steps, Along, Round;
    if |run| >= 2 {
      StrokeCentres(run[..|run| - 1]);
    }
  }

  ghost predicate Inside(b: Blot, width: int, height: int) {
    0 <= b.centre.x < width && 0 <= b.centre.y < height && 0 <= b.radius <= 4
  }

  /** The corners of the box every cell's point lies in: its pixel on the map, its width from 1 to 5. */
  function LowCorner(): Point { Point(0.0, 0.0, 1.0) }
  function HighCorner(width: int, height: int): Point { Point((width - 1) as real, (height - 1) as real, 5.0) }

  lemma BlotStaysInside(p: Point, q: Point, t: real, width: int, height: int)
    requires Box([p, q], LowCorner(), HighCorner(width, height)) && 0.0 <= t <= 1.0
    ensures Inside(BlotAt(p, q, t), width, height)
  {
    hide Along, Round;
    var hi := HighCorner(width, height);
    assert p in [p, q] && q in [p, q];
    AlongStaysBetween(p.x, q.x, t, 0.0, hi.x);
    AlongStaysBetween(p.y, q.y, t, 0.0, hi.y);
    AlongStaysBetween(p.r, q.r, t, 1.0, 5.0);
    RoundIsBetween(Along(p.x, q.x, t), 0, width - 1);
    RoundIsBetween(Along(p.y, q.y, t), 0, height - 1);
    RoundIsBetween(Along(p.r, q.r, t), 1, 5);
  }

  lemma {:induction false} StrokeStaysInside(run: seq<Point>, width: int, height: int)
    requires Box(run, LowCorner(), HighCorner(width, height))
    ensures forall b | b in StrokeBlots(run) :: Inside(b, width, height)
    decreases |run|
  {
    hide Steps, Along, Round;
    if |run| >= 2 {
      var n := |run| - 1;
      forall p | p in run[..n]
        ensures p in run
      {
      }
      StrokeStaysInside(run[..n], width, height);
      var p, q := run[n - 1], run[n];
      forall b | b in SegmentBlots(p, q)
        ensures Inside(b, width, height)
      {
        var s :| 0 <= s <= Steps(p, q) && SegmentBlots(p, q)[s] == b;
        ShareIsProper(s, Steps(p, q));
        BlotStaysInside(p, q, s as real / Steps(p, q) as real, width, height);
      }
    }
  }

  // ----- one river

  datatype Cell = Cell(px: int, py: int, flow: int)

  /** The stroke's width: one more at each tripling of the flow past twenty, up to five. */
  function Width(flow: int): (w: int)
    ensures 1 <= w <= 5
  {
    if flow <= 20 then 1 else if flow <= 60 then 2 else if flow <= 180 then 3 else if flow <= 540 then 4 else 5
  }

  function Tripled(flow: int, times: nat): int { if times == 0 then flow else 3 * Tripled(flow, times - 1) }

  /** A stroke is at most `w` wide exactly while the flow is at most twenty tripled once less often; five is
      the most. */
  lemma WidthCountsTriplings(flow: int, w: nat)
    ensures 1 <= Width(flow) <= 5
    ensures 1 <= w < 5 ==> (Width(flow) <= w <==> flow <= Tripled(20, w - 1))
  {
    assert Tripled(20, 0) == 20 && Tripled(20, 1) == 60 && Tripled(20, 2) == 180 && Tripled(20, 3) == 540;
  }

  method RiverWidth(flow: int) returns (w: int)
    ensures w == Width(flow)
  {
    w := 1;
    var f := 20;
    while f < flow && w < 5
      invariant 1 <= w <= 5
      invariant f == if w == 1 then 20 else if w == 2 then 60 else if w == 3 then 180 else if w == 4 then 540 else 1620
      invariant w > 1 ==> flow > f / 3
      decreases 5 - w
    {
      w := w + 1;
      f := f * 3;
    }
  }

  function PointOf(c: Cell): Point { Point(c.px as real, c.py as real, Width(c.flow) as real) }

  function PointsOf(cells: seq<Cell>): seq<Point> { seq(|cells|, i requires 0 <= i < |cells| => PointOf(cells[i])) }

  predicate Breaks(p: Point, q: Point, width: int) { Abs(q.x - p.x) > width as real / 2.0 }

  /** A river breaks where it jumps more than half the map, to either side; how far up or down is no matter. */
  lemma BreaksBeyondHalfTheMap(p: Point, q: Point, width: int)
    ensures Breaks(p, q, width) <==> q.x - p.x > 0.5 * width as real || p.x - q.x > 0.5 * width as real
  {
  }

  /** The cells' points split wherever the river jumps more than half the map. */
  function Runs(points: seq<Point>, width: int): (runs: seq<seq<Point>>)
    ensures forall i | 0 <= i < |runs| :: runs[i] != []
  {
    if points == [] then []
    else
      var before, p := Runs(points[..|points| - 1], width), points[|points| - 1];
      if before == [] then [[p]]
      else
        var last := before[|before| - 1];
        if Breaks(last[|last| - 1], p, width) then before + [[p]]
        else before[..|before| - 1] + [last + [p]]
  }

  function Joined(runs: seq<seq<Point>>): seq<Point> {
    if runs == [] then [] else Joined(runs[..|runs| - 1]) + runs[|runs| - 1]
  }

  /** Splitting loses no cell and keeps their order. */
  lemma {:induction false} RunsKeepEveryCell(points: seq<Point>, width: int)
    ensures Joined(Runs(points, width)) == points
    ensures points != [] ==> Runs(points, width) != []
    decreases |points|
  {
    if points != [] {
      var n := |points| - 1;
      var before, p := Runs(points[..n], width), points[n];
      RunsKeepEveryCell(points[..n], width);
      assert points == points[..n] + [p];
      if before != [] {
        var k := |before| - 1;
        var last := before[k];
        if Breaks(last[|last| - 1], p, width) {
          assert (before + [[p]])[..|before|] == before;
        } else {
          assert (before[..k] + [last + [p]])[..k] == before[..k];
          assert Joined(before[..k]) + (last + [p]) == Joined(before) + [p];
        }
      }
    }
  }

  /** Within a run no jump exceeds half the map. */
  lemma {:induction false} RunsNeverJumpFar(points: seq<Point>, width: int)
    ensures forall run, i | run in Runs(points, width) && 0 <= i < |run| - 1 :: !Breaks(run[i], run[i + 1], width)
    decreases |points|
  {
    if points != [] {
      var n := |points| - 1;
      var before, p := Runs(points[..n], width), points[n];
      RunsNeverJumpFar(points[..n], width);
      if before != [] {
        var k := |before| - 1;
        var last := before[k];
        if !Breaks(last[|last| - 1], p, width) {
          forall i | 0 <= i < |last + [p]| - 1
            ensures !Breaks((last + [p])[i], (last + [p])[i + 1], width)
          {
            assert last in before;
          }
        }
      }
    }
  }

  /** Between these two runs the river jumps. */
  predicate JumpAfter(runs: seq<seq<Point>>, i: int, width: int)
    requires 0 <= i < |runs| - 1 && runs[i] != [] && runs[i + 1] != []
  {
    Breaks(runs[i][|runs[i]| - 1], runs[i + 1][0], width)
  }

  ghost predicate SplitAtJumps(runs: seq<seq<Point>>, width: int)
    requires forall i | 0 <= i < |runs| :: runs[i] != []
  {
    forall i | 0 <= i < |runs| - 1 :: JumpAfter(runs, i, width)
  }

  /** The next run starts exactly where the river jumped more than half the map. */
  lemma {:induction false} RunsSplitOnlyAtJumps(points: seq<Point>, width: int)
    ensures SplitAtJumps(Runs(points, width), width)
    decreases |points|
  {
    hide Breaks;
    if points != [] {
      var n := |points| - 1;
      var before, runs := Runs(points[..n], width), Runs(points, width);
      RunsSplitOnlyAtJumps(points[..n], width);
      if before != [] {
        var k := |before| - 1;
        forall i | 0 <= i < |runs| - 1
          ensures JumpAfter(runs, i, width)
        {
          var last := before[k];
          if Breaks(last[|last| - 1], points[n], width) {
            assert runs == before + [[points[n]]];
          } else {
            assert runs == before[..k] + [last + [points[n]]];
          }
          assert runs[i] == before[i];
          if i + 1 <= k {
            assert runs[i + 1][0] == before[i + 1][0];
            assert JumpAfter(before, i, width);
          }
        }
      }
    }
  }

  /** The cells before the k-th run. */
  function RunStart(runs: seq<seq<Point>>, k: nat): nat
    requires k <= |runs|
  {
    |Joined(runs[..k])|
  }

  lemma {:induction false} RunIsSlice(runs: seq<seq<Point>>, k: nat)
    requires k < |runs|
    ensures var from := RunStart(runs, k);
      from + |runs[k]| <= |Joined(runs)| && Joined(runs)[from..from + |runs[k]|] == runs[k]
    decreases |runs|
  {
    var n := |runs| - 1;
    if k < n {
      RunIsSlice(runs[..n], k);
      assert runs[..n][..k] == runs[..k];
    }
  }

  /** The k-th run is made of consecutive cells of the river, in its order. */
  lemma RunIsConsecutive(cells: seq<Cell>, width: int, k: nat)
    requires k < |Runs(PointsOf(cells), width)|
    ensures var runs := Runs(PointsOf(cells), width); var from := RunStart(runs, k); var upto := from + |runs[k]|;
      from < upto <= |cells| && runs[k] == PointsOf(cells[from..upto])
  {
    hide Runs, PointOf;
    var runs := Runs(PointsOf(cells), width);
    RunsKeepEveryCell(PointsOf(cells), width);
    RunIsSlice(runs, k);
  }

  // ----- ink

  /** A dot's disc. */
  predicate InDisc(p: Pixel, b: Blot) {
    (p.x - b.centre.x) * (p.x - b.centre.x) + (p.y - b.centre.y) * (p.y - b.centre.y) <= b.radius * b.radius
  }

  predicate InImage(p: Pixel, width: int, height: int) { 0 <= p.x < width && 0 <= p.y < height }

  ghost predicate Inked(p: Pixel, blots: seq<Blot>) { exists i :: 0 <= i < |blots| && InDisc(p, blots[i]) }

  /** `after` is `before` with the blots painted, as far as they fall on the image. */
  ghost predicate Paints(before: set<Pixel>, blots: seq<Blot>, after: set<Pixel>, width: int, height: int) {
    forall p: Pixel :: p in after <==> p in before || (InImage(p, width, height) && Inked(p, blots))
  }

  lemma PaintsOn(a: set<Pixel>, first: seq<Blot>, b: set<Pixel>, second: seq<Blot>, c: set<Pixel>, width: int,
                 height: int)
    requires Paints(a, first, b, width, height) && Paints(b, second, c, width, height)
    ensures Paints(a, first + second, c, width, height)
  {
    hide InDisc, InImage;
    var all := first + second;
    forall p: Pixel
      ensures Inked(p, all) <==> Inked(p, first) || Inked(p, second)
    {
      forall i | 0 <= i < |all| && InDisc(p, all[i])
        ensures Inked(p, first) || Inked(p, second)
      {
        if i < |first| {
          assert all[i] == first[i];
        } else {
          assert all[i] == second[i - |first|];
        }
      }
      forall i | 0 <= i < |first| && InDisc(p, first[i])
        ensures Inked(p, all)
      {
        assert all[i] == first[i];
      }
      forall i | 0 <= i < |second| && InDisc(p, second[i])
        ensures Inked(p, all)
      {
        assert all[|first| + i] == second[i];
      }
    }
  }

  function RiverBlots(runs: seq<seq<Point>>): seq<Blot> {
    if runs == [] then [] else RiverBlots(runs[..|runs| - 1]) + StrokeBlots(Smoothed(runs[|runs| - 1]))
  }

  lemma SquaresGrow(v: int, r: int)
    requires r >= 0
    ensures v > r ==> v * v > r * r
    ensures v < -r ==> v * v > r * r
  {
    assert v * v - r * r == (v - r) * (v + r);
    assert v * v - r * r == (-v - r) * (-v + r);
  }

  lemma DiscBounds(p: Pixel, b: Blot)
    requires b.radius >= 0 && InDisc(p, b)
    ensures -b.radius <= p.x - b.centre.x <= b.radius && -b.radius <= p.y - b.centre.y <= b.radius
  {
    var dx, dy := p.x - b.centre.x, p.y - b.centre.y;
    assert dx * dx >= 0 && dy * dy >= 0;
    SquaresGrow(dx, b.radius);
    SquaresGrow(dy, b.radius);
  }

  /** The rounds of corner cutting, as the drawing makes them. */
  method CutRounds(cells: seq<Point>) returns (run: seq<Point>)
    ensures run == Smoothed(cells)
  {
    hide Corners;
    run := cells;
    var it := 0;
    while it < 2 && |run| > 2
      invariant 0 <= it <= 2
      invariant |run| > 2 <==> |cells| > 2
      invariant |cells| <= 2 ==> run == cells
      invariant |cells| > 2 ==> run == if it == 0 then cells else if it == 1 then Cut(cells) else Cut(Cut(cells))
      decreases 2 - it
    {
      CornersLength(run);
      NextCorners(run, 0);
      var out := [run[0]];
      var i := 0;
      while i + 1 < |run|
        invariant 0 <= i < |run|
        invariant out == [run[0]] + Corners(run[..i + 1])
      {
        var p, q := run[i], run[i + 1];
        NextCorners(run, i);
        out := out + [Quarter(p, q), Quarter(q, p)];
        i := i + 1;
      }
      assert run[..i + 1] == run;
      run := out + [run[|run| - 1]];
      it := it + 1;
    }
  }

  lemma NextCorners(run: seq<Point>, i: nat)
    requires i + 1 < |run|
    ensures Corners(run[..i + 2]) == Corners(run[..i + 1]) + [Quarter(run[i], run[i + 1]), Quarter(run[i + 1], run[i])]
    ensures Corners(run[..1]) == []
  {
    assert run[..i + 2][..i + 1] == run[..i + 1];
  }

  /** Where a drawing stands after some cells: all runs but the last are on the picture, the last one is in hand. */
  ghost predicate Drawing(before: set<Pixel>, points: seq<Point>, run: seq<Point>, after: set<Pixel>, width: int,
                          height: int) {
    var runs := Runs(points, width);
    if points == [] then run == [] && Paints(before, [], after, width, height)
    else runs != [] && run == runs[|runs| - 1] && Paints(before, RiverBlots(runs[..|runs| - 1]), after, width, height)
  }

  lemma NoInk()
    ensures StrokeBlots(Smoothed([])) == []
  {
  }

  lemma PaintsNothing(a: set<Pixel>, width: int, height: int)
    ensures Paints(a, [], a, width, height)
  {
  }

  lemma FlushedRun(before: set<Pixel>, points: seq<Point>, run: seq<Point>, mid: set<Pixel>, after: set<Pixel>,
                   width: int, height: int)
    requires Drawing(before, points, run, mid, width, height)
    requires Paints(mid, StrokeBlots(Smoothed(run)), after, width, height)
    ensures Paints(before, RiverBlots(Runs(points, width)), after, width, height)
  {
    hide StrokeBlots, Smoothed, Paints;
    var runs := Runs(points, width);
    if points == [] {
      NoInk();
      PaintsOn(before, [], mid, [], after, width, height);
      assert [] + [] == RiverBlots(runs);
    } else {
      PaintsOn(before, RiverBlots(runs[..|runs| - 1]), mid, StrokeBlots(Smoothed(run)), after, width, height);
    }
  }

  lemma RunBegins(points: seq<Point>, p: Point, run: seq<Point>, width: int)
    requires var runs := Runs(points, width); runs != [] && run == runs[|runs| - 1]
    requires Breaks(run[|run| - 1], p, width)
    ensures var runs := Runs(points + [p], width);
      runs != [] && runs[|runs| - 1] == [p] && runs[..|runs| - 1] == Runs(points, width)
  {
    assert (points + [p])[..|points|] == points;
  }

  lemma RunGrows(points: seq<Point>, p: Point, run: seq<Point>, width: int)
    requires var runs := Runs(points, width);
      if points == [] then run == [] else runs != [] && run == runs[|runs| - 1] && !Breaks(run[|run| - 1], p, width)
    ensures var before, runs := Runs(points, width), Runs(points + [p], width);
      && runs != [] && runs[|runs| - 1] == run + [p]
      && (if points == [] then RiverBlots(runs[..|runs| - 1]) == [] else runs[..|runs| - 1] == before[..|before| - 1])
  {
    assert (points + [p])[..|points|] == points;
    var before := Runs(points, width);
    if points != [] {
      var front := before[..|before| - 1];
      assert (front + [run + [p]])[..|front|] == front;
    }
  }

  /** The picture a river is drawn on: which pixels carry river colour. */
  class Canvas {
    const width: int
    const height: int
    var painted: set<Pixel>

    constructor (width: int, height: int)
      ensures this.width == width && this.height == height && painted == {}
    {
      this.width := width;
      this.height := height;
      painted := {};
    }

    method DrawDot(b: Blot)
      requires b.radius >= 0
      modifies this
      ensures Paints(old(painted), [b], painted, width, height)
    {
      var dy := -b.radius;
      while dy <= b.radius
        invariant -b.radius <= dy <= b.radius + 1
        invariant forall p: Pixel :: p in painted <==>
            p in old(painted) || (InImage(p, width, height) && InDisc(p, b) && p.y - b.centre.y < dy)
      {
        DrawDotRow(b, dy, old(painted));
        dy := dy + 1;
      }
      forall p: Pixel
        ensures Inked(p, [b]) <==> InDisc(p, b)
      {
        assert InDisc(p, b) ==> InDisc(p, [b][0]);
      }
      forall p: Pixel | InDisc(p, b)
        ensures p.y - b.centre.y < dy
      {
        DiscBounds(p, b);
      }
    }

    method DrawDotRow(b: Blot, dy: int, ghost before: set<Pixel>)
      requires b.radius >= 0 && -b.radius <= dy <= b.radius
      requires forall p: Pixel :: p in painted <==>
          p in before || (InImage(p, width, height) && InDisc(p, b) && p.y - b.centre.y < dy)
      modifies this
      ensures forall p: Pixel :: p in painted <==>
          p in before || (InImage(p, width, height) && InDisc(p, b) && p.y - b.centre.y <= dy)
    {
      var dx := -b.radius;
      forall p: Pixel | InDisc(p, b)
        ensures -b.radius <= p.x - b.centre.x <= b.radius
      {
        DiscBounds(p, b);
      }
      while dx <= b.radius
        invariant -b.radius <= dx <= b.radius + 1
        invariant forall p: Pixel :: p in painted <==>
            p in before || (InImage(p, width, height) && InDisc(p, b)
              && (p.y - b.centre.y < dy || (p.y - b.centre.y == dy && p.x - b.centre.x < dx)))
      {
        var spot := Pixel(b.centre.x + dx, b.centre.y + dy);
        if InDisc(spot, b) && InImage(spot, width, height) {
          painted := painted + {spot};
        }
        forall p: Pixel | p.y - b.centre.y == dy && p.x - b.centre.x == dx
          ensures p == spot
        {
        }
        dx := dx + 1;
      }
    }

    method DrawSegment(p: Point, q: Point)
      modifies this
      ensures Paints(old(painted), SegmentBlots(p, q), painted, width, height)
    {
      hide InDisc, InImage, Along, Round, Steps;
      var blots, steps := SegmentBlots(p, q), Steps(p, q);
      var s := 0;
      while s <= steps
        invariant 0 <= s <= steps + 1
        invariant Paints(old(painted), blots[..s], painted, width, height)
      {
        ghost var before := painted;
        var blot := BlotAt(p, q, s as real / steps as real);
        DrawDot(blot);
        PaintsOn(old(painted), blots[..s], before, [blot], painted, width, height);
        assert blots[..s] + [blot] == blots[..s + 1];
        s := s + 1;
      }
      assert blots[..s] == blots;
    }

    /** One run of the river, smoothed and drawn segment by segment. */
    method DrawRun(cells: seq<Point>)
      modifies this
      ensures Paints(old(painted), StrokeBlots(Smoothed(cells)), painted, width, height)
    {
      hide InDisc, InImage, SegmentBlots;
      var run := CutRounds(cells);
      var i := 0;
      while i + 1 < |run|
        invariant 0 <= i && (i < |run| || run == [])
        invariant run != [] ==> Paints(old(painted), StrokeBlots(run[..i + 1]), painted, width, height)
        invariant run == [] ==> painted == old(painted)
      {
        ghost var before := painted;
        DrawSegment(run[i], run[i + 1]);
        PaintsOn(old(painted), StrokeBlots(run[..i + 1]), before, SegmentBlots(run[i], run[i + 1]), painted, width,
                 height);
        assert run[..i + 2][..i + 1] == run[..i + 1];
        i := i + 1;
      }
      assert run != [] ==> run[..i + 1] == run;
    }

    /** A whole river: each run is drawn when the river jumps, the last one at its end. */
    method DrawRiver(cells: seq<Cell>)
      modifies this
      ensures Paints(old(painted), RiverBlots(Runs(PointsOf(cells), width)), painted, width, height)
    {
      hide InDisc, InImage, StrokeBlots, Smoothed, Paints, RiverBlots, Runs, Width, Breaks;
      ghost var points := PointsOf(cells);
      PaintsNothing(painted, width, height);
      var run: seq<Point> := [];
      var i := 0;
      while i < |cells|
        invariant 0 <= i <= |cells|
        invariant Drawing(old(painted), points[..i], run, painted, width, height)
      {
        ghost var before := painted;
        var w := RiverWidth(cells[i].flow);
        var p := Point(cells[i].px as real, cells[i].py as real, w as real);
        assert p == points[i];
        assert points[..i + 1] == points[..i] + [p];
        if run != [] && Breaks(run[|run| - 1], p, width) {
          DrawRun(run);
          FlushedRun(old(painted), points[..i], run, before, painted, width, height);
          RunBegins(points[..i], p, run, width);
          run := [];
        } else {
          RunGrows(points[..i], p, run, width);
        }
        run := run + [p];
        i := i + 1;
      }
      assert points[..i] == points;
      ghost var before := painted;
      DrawRun(run);
      FlushedRun(old(painted), points, run, before, painted, width, height);
    }
  }

  /** At a cell the brush is as wide as the river there: a disc of radius one less than the width. */
  lemma BrushFollowsTheWidth(c: Cell, q: Point)
    ensures BlotAt(PointOf(c), q, 0.0) == Blot(Pixel(c.px, c.py), Width(c.flow) - 1)
    ensures BlotAt(q, PointOf(c), 1.0) == Blot(Pixel(c.px, c.py), Width(c.flow) - 1)
  {
    hide Width;
    DotOfCell(c);
    RoundIsItself(Width(c.flow));
  }

  lemma RoundIsItself(n: int)
    ensures Round(n as real) == n
  {
  }

  /** The brush is never thinner than one pixel. */
  lemma BrushIsAPixelAtLeast(p: Point, q: Point, t: real)
    ensures Along(p.r, q.r, t) < 1.5 ==> BlotAt(p, q, t).radius == 0
    ensures Along(p.r, q.r, t) >= 0.5 ==> BlotAt(p, q, t).radius + 1 == Round(Along(p.r, q.r, t))
  {
  }

  /** Ink falls on every inked pixel of the image, and on no pixel off it. */
  lemma InkStaysOnTheImage(before: set<Pixel>, blots: seq<Blot>, after: set<Pixel>, width: int, height: int, p: Pixel)
    requires Paints(before, blots, after, width, height) && p !in before
    ensures p in after <==> Inked(p, blots) && 0 <= p.x < width && 0 <= p.y < height
  {
    hide InDisc;
  }

  /** A disc reaches as far as its radius straight, and not into the corners of its square. */
  lemma DiscsAreRound(b: Blot)
    requires b.radius > 0
    ensures InDisc(Pixel(b.centre.x + b.radius, b.centre.y), b) && InDisc(Pixel(b.centre.x, b.centre.y - b.radius), b)
    ensures !InDisc(Pixel(b.centre.x + b.radius, b.centre.y + b.radius), b)
    ensures !InDisc(Pixel(b.centre.x + b.radius + 1, b.centre.y), b)
  {
    assert b.radius * b.radius > 0;
    assert (b.radius + 1) * (b.radius + 1) == b.radius * b.radius + 2 * b.radius + 1;
  }

  // ----- what the picture shows

  predicate OnMap(c: Cell, width: int, height: int) { 0 <= c.px < width && 0 <= c.py < height }

  lemma {:induction false} RunsComeFromCells(points: seq<Point>, width: int)
    ensures forall run, p | run in Runs(points, width) && p in run :: p in points
    decreases |points|
  {
    if points != [] {
      var n := |points| - 1;
      RunsComeFromCells(points[..n], width);
      var before, runs := Runs(points[..n], width), Runs(points, width);
      forall run, p | run in runs && p in run
        ensures p in points
      {
        if run in before {
          assert p in points[..n];
        } else if before != [] {
          var last := before[|before| - 1];
          assert last in before;
          assert run == [points[n]] || run == last + [points[n]];
          assert p == points[n] || p in last;
        }
      }
    }
  }

  lemma {:induction false} RiverHasEachStroke(runs: seq<seq<Point>>, run: seq<Point>, p: Pixel)
    requires run in runs && Inked(p, StrokeBlots(Smoothed(run)))
    ensures Inked(p, RiverBlots(runs))
    decreases |runs|
  {
    hide InDisc, Smoothed, StrokeBlots;
    var k := |runs| - 1;
    var front, last := RiverBlots(runs[..k]), StrokeBlots(Smoothed(runs[k]));
    var all := front + last;
    if run == runs[k] {
      var i :| 0 <= i < |last| && InDisc(p, last[i]);
      assert all[|front| + i] == last[i];
    } else {
      RiverHasEachStroke(runs[..k], run, p);
      var i :| 0 <= i < |front| && InDisc(p, front[i]);
      assert all[i] == front[i];
    }
  }

  lemma CentreIsInked(b: Blot)
    requires b.radius >= 0
    ensures InDisc(b.centre, b)
  {
    assert b.radius * b.radius >= 0;
  }

  lemma DotOfCell(c: Cell)
    ensures Dot(PointOf(c)) == Pixel(c.px, c.py)
  {
  }

  /** Everything a run's cells promise about their points. */
  lemma {:induction false} RunFits(cells: seq<Cell>, run: seq<Point>, width: int, height: int)
    requires forall c | c in cells :: OnMap(c, width, height)
    requires run in Runs(PointsOf(cells), width)
    ensures Box(run, LowCorner(), HighCorner(width, height))
    ensures Jumps(run, width as real / 2.0, (height - 1) as real)
  {
    hide Runs, Width;
    var points := PointsOf(cells);
    RunsComeFromCells(points, width);
    RunsNeverJumpFar(points, width);
    forall p | p in run
      ensures exists c :: c in cells && p == PointOf(c)
    {
      var i :| 0 <= i < |points| && points[i] == p;
      assert cells[i] in cells;
    }
    forall i | 0 <= i < |run| - 1
      ensures Near(run[i], run[i + 1], width as real / 2.0, (height - 1) as real)
    {
      assert run[i] in run && run[i + 1] in run;
      assert !Breaks(run[i], run[i + 1], width);
    }
  }

  /**
   * The k-th run of the river, from its first to its last cell, drawn: an unbroken chain of centres from
   * the first cell's pixel to the last one's, every one of them painted, and no smoothed segment longer
   * than half the map. A run of a single cell is the exception: it draws nothing.
   */
  lemma {:induction false} RiverIsUnbroken(cells: seq<Cell>, k: nat, before: set<Pixel>, after: set<Pixel>, width: int,
                                           height: int)
    requires forall c | c in cells :: OnMap(c, width, height)
    requires k < |Runs(PointsOf(cells), width)|
    requires Paints(before, RiverBlots(Runs(PointsOf(cells), width)), after, width, height)
    ensures var runs := Runs(PointsOf(cells), width); var first := RunStart(runs, k); var last := first + |runs[k]| - 1;
      && first <= last < |cells|
      && (first == last ==> StrokeBlots(Smoothed(runs[k])) == [])
      && (first < last ==>
            var s := StrokePixels(Smoothed(runs[k]));
            && s != [] && Unbroken(s)
            && s[0] == Pixel(cells[first].px, cells[first].py) && s[|s| - 1] == Pixel(cells[last].px, cells[last].py)
            && (forall i | 0 <= i < |s| :: InImage(s[i], width, height) && s[i] in after)
            && Jumps(Smoothed(runs[k]), width as real / 2.0, (height - 1) as real))
  {
    hide Runs, RiverBlots, Smoothed, StrokePixels, StrokeBlots, Dot, Unbroken, InDisc, Paints, RunStart, PointOf, Jumps;
    var runs := Runs(PointsOf(cells), width);
    var run, first := runs[k], RunStart(runs, k);
    var last := first + |run| - 1;
    RunIsConsecutive(cells, width, k);
    if first == last {
      LoneCellLeavesNoInk(run[0]);
      assert run == [run[0]];
    } else {
      StrokeIsPainted(cells, run, before, after, width, height);
      assert run[0] == PointOf(cells[first]) && run[|run| - 1] == PointOf(cells[last]);
      DotOfCell(cells[first]);
      DotOfCell(cells[last]);
    }
  }

  lemma {:induction false} StrokeIsPainted(cells: seq<Cell>, run: seq<Point>, before: set<Pixel>, after: set<Pixel>,
                                           width: int, height: int)
    requires forall c | c in cells :: OnMap(c, width, height)
    requires run in Runs(PointsOf(cells), width) && |run| >= 2
    requires Paints(before, RiverBlots(Runs(PointsOf(cells), width)), after, width, height)
    ensures var s := StrokePixels(Smoothed(run));
      && s != [] && s[0] == Dot(run[0]) && s[|s| - 1] == Dot(run[|run| - 1]) && Unbroken(s)
      && (forall i | 0 <= i < |s| :: InImage(s[i], width, height) && s[i] in after)
    ensures Jumps(Smoothed(run), width as real / 2.0, (height - 1) as real)
  {
    hide Runs, RiverBlots, Smoothed, StrokePixels, StrokeBlots, Dot, Unbroken, InDisc;
    var lo, hi := LowCorner(), HighCorner(width, height);
    RunFits(cells, run, width, height);
    SmoothingIsGentle(run, lo, hi, width as real / 2.0, (height - 1) as real);
    var smooth := Smoothed(run);
    var s, blots := StrokePixels(smooth), StrokeBlots(smooth);
    StrokeIsUnbroken(smooth);
    StrokeCentres(smooth);
    StrokeStaysInside(smooth, width, height);
    forall i | 0 <= i < |s|
      ensures InImage(s[i], width, height) && s[i] in after
    {
      assert blots[i] in blots && blots[i].centre == s[i];
      CentreIsInked(blots[i]);
      RiverHasEachStroke(Runs(PointsOf(cells), width), run, s[i]);
    }
  }

  /** A run of one cell leaves no ink. */
  lemma LoneCellLeavesNoInk(p: Point)
    ensures StrokeBlots(Smoothed([p])) == []
  {
  }
}
