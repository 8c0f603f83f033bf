// Grid geometry of the falling-block game: positions, 0/1 patterns and the
// bounding box of a shape, all in grid units.

module Shapes {

  /** A grid coordinate: column `x`, row `y` (rows grow downwards). */
  datatype Pos = Pos(x: int, y: int)

  /** A row-major grid of cells; a cell is filled when it is non-zero. */
  type Pattern = seq<seq<int>>

  /** The game reads a cell as a truth value: 0 is empty, anything else filled. */
  predicate Filled(v: int)
  {
    v != 0
  }

  /** At least one row, and every row as long as the first. */
  predicate Rectangular(p: Pattern)
  {
    |p| > 0 && forall y :: 0 <= y < |p| ==> |p[y]| == |p[0]|
  }

  /** An n-by-n pattern (the shape rotation is defined for). */
  predicate Square(p: Pattern)
  {
    forall y :: 0 <= y < |p| ==> |p[y]| == |p|
  }

  /** Every cell is 0 or 1. */
  predicate Binary(p: Pattern)
  {
    forall y, x :: 0 <= y < |p| && 0 <= x < |p[y]| ==> p[y][x] == 0 || p[y][x] == 1
  }

  /** A shape: a position and a pattern. Its edges are derived on every read. */
  datatype Shape = Shape(pos: Pos, pattern: Pattern)
  {
    function Height(): nat
    {
      |pattern|
    }

    /** The width is read from the first row. */
    function Width(): nat
      requires |pattern| > 0
    {
      |pattern[0]|
    }

    function Left(): int
    {
      pos.x
    }

    function Right(): int
      requires |pattern| > 0
    {
      Left() + Width()
    }

    function Top(): int
    {
      pos.y
    }

    function Bottom(): int
    {
      Top() + Height()
    }

    /** Is the cell at absolute column `col`, row `row` filled? Cells outside
        the pattern read as empty. */
    predicate FilledAt(row: int, col: int)
    {
      var y := row - Top();
      var x := col - Left();
      0 <= y < |pattern| && 0 <= x < |pattern[y]| && Filled(pattern[y][x])
    }

    /** The same pattern, moved by `dx` columns and `dy` rows: each edge
        shifts by the move, the size is kept, and every filled cell moves
        with it. */
    function Translated(dx: int, dy: int): (r: Shape)
      ensures r.Left() == Left() + dx && r.Top() == Top() + dy
      ensures r.Bottom() == Bottom() + dy && r.Height() == Height()
      ensures |pattern| > 0 ==> r.Right() == Right() + dx && r.Width() == Width()
      ensures forall row, col :: FilledAt(row, col) <==> r.FilledAt(row + dy, col + dx)
    {
      Shape(Pos(pos.x + dx, pos.y + dy), pattern)
    }
  }

  /** Every filled cell of a rectangular shape lies in the half-open box
      [Left, Right) x [Top, Bottom), and the box is exactly as wide as every
      row. */
  lemma BoundingBox(s: Shape, row: int, col: int)
    requires Rectangular(s.pattern)
    requires s.FilledAt(row, col)
    ensures s.Left() <= col < s.Right()
    ensures s.Top() <= row < s.Bottom()
    ensures forall y :: 0 <= y < |s.pattern| ==> s.Right() - s.Left() == |s.pattern[y]|
  {
  }
}
