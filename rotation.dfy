// The quarter turn of a square pattern used by a piece's rotate operation,
// and what it preserves.

module Rotation {
  import opened Shapes

  /** The pattern turned by 90 degrees: row y of the result is column y of
      `p` read from the bottom up. */
  function Rotated(p: Pattern): (r: Pattern)
    requires Square(p)
    ensures |r| == |p| && Square(r)
  {
    var n := |p|;
    seq(n, y requires 0 <= y < n => seq(n, x requires 0 <= x < n => p[n - x - 1][y]))
  }

  /** Where the cell at column x, row y of an n-by-n pattern lands after a
      quarter turn. */
  function Turn(c: (int, int), n: int): (int, int)
  {
    (n - 1 - c.1, c.0)
  }

  /** The coordinates (column, row) of the filled cells of a pattern. */
  function FilledCells(p: Pattern): set<(int, int)>
  {
    set y, x | 0 <= y < |p| && 0 <= x < |p[y]| && Filled(p[y][x]) :: (x, y)
  }

  /** The number of filled cells of a pattern. */
  function FilledCount(p: Pattern): nat
  {
    |FilledCells(p)|
  }

  /** A rotated 0/1 pattern is still a 0/1 pattern. */
  lemma RotatedBinary(p: Pattern)
    requires Square(p) && Binary(p)
    ensures Binary(Rotated(p))
  {
  }

  /** The filled cells of the rotated pattern are exactly the turned filled
      cells of the original. */
  lemma RotatedCells(p: Pattern)
    requires Square(p)
    ensures FilledCells(Rotated(p)) == set c | c in FilledCells(p) :: Turn(c, |p|)
  {
    var n, r := |p|, Rotated(p);
    forall c | c in FilledCells(r)
      ensures c in set c | c in FilledCells(p) :: Turn(c, n)
    {
      var x, y := c.0, c.1;
      assert Filled(r[y][x]);
      assert (y, n - 1 - x) in FilledCells(p);
      assert Turn((y, n - 1 - x), n) == c;
    }
    forall d | d in FilledCells(p)
      ensures Turn(d, n) in FilledCells(r)
    {
      var x, y := d.0, d.1;
      assert r[x][n - 1 - y] == p[y][x];
    }
  }

  /** A quarter turn moves different cells to different cells, so it keeps
      the size of any set of cells. */
  lemma {:induction false} TurnKeepsSize(s: set<(int, int)>, n: int)
    ensures |set c | c in s :: Turn(c, n)| == |s|
    decreases |s|
  {
    if s != {} {
      var c :| c in s;
      var rest := s - {c};
      TurnKeepsSize(rest, n);
      var image, restImage := set c | c in s :: Turn(c, n), set c | c in rest :: Turn(c, n);
      assert image == restImage + {Turn(c, n)};
      assert Turn(c, n) !in restImage;
    }
  }

  /** Rotation keeps the number of filled cells. */
  lemma RotatedCount(p: Pattern)
    requires Square(p)
    ensures FilledCount(Rotated(p)) == FilledCount(p)
  {
    RotatedCells(p);
    TurnKeepsSize(FilledCells(p), |p|);
  }

  /** Two quarter turns reverse both the rows and the columns. */
  lemma RotatedTwice(p: Pattern)
    requires Square(p)
    ensures var r := Rotated(Rotated(p));
      |r| == |p| && forall y, x :: 0 <= y < |p| && 0 <= x < |p| ==> r[y][x] == p[|p| - 1 - y][|p| - 1 - x]
  {
  }

  /** Four quarter turns give the original pattern back. */
  lemma RotatedFourTimes(p: Pattern)
    requires Square(p)
    ensures Rotated(Rotated(Rotated(Rotated(p)))) == p
  {
    var n, h := |p|, Rotated(Rotated(p));
    RotatedTwice(p);
    RotatedTwice(h);
    var r := Rotated(Rotated(h));
    forall y | 0 <= y < n
      ensures r[y] == p[y]
    {
      assert |r[y]| == |p[y]| == n;
      forall x | 0 <= x < n
        ensures r[y][x] == p[y][x]
      {
        assert r[y][x] == h[n - 1 - y][n - 1 - x];
      }
    }
  }
}
