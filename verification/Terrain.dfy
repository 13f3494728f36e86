/** The lot grid a city is laid out on: tiles, positions, and the row-major index of a lot. */
module Terrain {

  datatype Tile = Tile(
    water: bool,        // any wet lot: never built on
    impassable: bool,   // a lake or the ocean: no traced road crosses it
    wideRiver: bool,    // only an arterial crosses it
    steep: bool,        // neither built on nor traced across
    coast: bool,
    deposit: bool)
  {
    predicate Buildable() { !water && !steep }
  }

  datatype Pos = Pos(x: int, y: int)

  /** Row-major index of the lot (x, y) of a size x size grid. */
  function Index(size: nat, x: int, y: int): (i: nat)
    requires 0 <= x < size && 0 <= y < size
    ensures i < size * size
  {
    assert y * size <= (size - 1) * size;
    y * size + x
  }

  /** Indices grow row by row. */
  lemma IndexOrders(size: nat, x: int, y: int, x': int, y': int)
    requires 0 <= x < size && 0 <= y < size && 0 <= x' < size && 0 <= y' < size
    requires y < y'
    ensures Index(size, x, y) < Index(size, x', y')
  {
    var d := y' - y - 1;
    assert (y + 1 + d) * size == y * size + size + d * size;
    assert d * size >= 0;
  }

  lemma IndexInjective(size: nat, x: int, y: int, x': int, y': int)
    requires 0 <= x < size && 0 <= y < size && 0 <= x' < size && 0 <= y' < size
    requires Index(size, x, y) == Index(size, x', y')
    ensures x == x' && y == y'
  {
    if y < y' {
      IndexOrders(size, x, y, x', y');
    } else if y' < y {
      IndexOrders(size, x', y', x, y);
    }
  }

  /** A square piece of the map, row after row. */
  datatype Window = Window(size: nat, tiles: seq<Tile>) {
    ghost predicate Valid() { |tiles| == size * size }

    predicate Contains(p: Pos) { 0 <= p.x < size && 0 <= p.y < size }

    function At(p: Pos): Tile
      requires Valid() && Contains(p)
    {
      tiles[Index(size, p.x, p.y)]
    }
  }

  /** Every position of the rows above `rows`, row by row, left to right. */
  function Rows(size: nat, rows: nat): seq<Pos> {
    if rows == 0 then [] else Rows(size, rows - 1) + Row(size, rows - 1)
  }

  function Row(width: nat, y: int): seq<Pos> { seq(width, x => Pos(x, y)) }

  function RowMajor(size: nat): seq<Pos> { Rows(size, size) }

  predicate ReadsBefore(a: Pos, b: Pos) { a.y < b.y || (a.y == b.y && a.x < b.x) }

  ghost predicate InReadingOrder(s: seq<Pos>) {
    forall i, j | 0 <= i < j < |s| :: ReadsBefore(s[i], s[j])
  }

  lemma {:induction false} RowsRead(size: nat, rows: nat)
    ensures forall p :: p in Rows(size, rows) <==> 0 <= p.x < size && 0 <= p.y < rows
    ensures InReadingOrder(Rows(size, rows))
  {
    if rows > 0 {
      RowsRead(size, rows - 1);
      var above, row := Rows(size, rows - 1), Row(size, rows - 1);
      forall p: Pos | 0 <= p.x < size && p.y == rows - 1
        ensures p in above + row
      {
        assert (above + row)[|above| + p.x] == row[p.x] == p;
      }
    }
  }
}
