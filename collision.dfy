// The one-row-lookahead collision test between a moving piece and a
// stationary shape (the floor or a settled piece).

module Collision {
  import opened Shapes

  /** Some filled cell (x, y) of the moving shape `m` has a filled cell of the
      stationary shape `s` directly below it: at absolute column
      m.Left() + x and row m.Top() + y + 1. */
  predicate Hits(m: Shape, s: Shape)
  {
    exists y, x :: 0 <= y < |m.pattern| && 0 <= x < |m.pattern[y]| && Filled(m.pattern[y][x])
      && s.FilledAt(m.Top() + y + 1, m.Left() + x)
  }

  /** The two cheap bounding-box rejections tried before the cell scan:
      the stationary shape starts below the row under the moving one, or the
      two lie side by side without sharing a column. */
  predicate BoxesApart(m: Shape, s: Shape)
    requires |m.pattern| > 0 && |s.pattern| > 0
  {
    s.Top() > m.Bottom() || s.Right() <= m.Left() || s.Left() >= m.Right()
  }

  /** Two shapes overlap: they fill a common absolute cell. */
  predicate Overlap(a: Shape, b: Shape)
  {
    exists y, x :: 0 <= y < |a.pattern| && 0 <= x < |a.pattern[y]| && Filled(a.pattern[y][x])
      && b.FilledAt(a.Top() + y, a.Left() + x)
  }

  /** The rejections are sound: whenever one fires on rectangular patterns,
      the cell scan would not find a hit either. */
  lemma BoxesApartSound(m: Shape, s: Shape)
    requires Rectangular(m.pattern) && Rectangular(s.pattern)
    requires BoxesApart(m, s)
    ensures !Hits(m, s)
  {
  }

  /** The lookahead test says exactly that the moving shape, once moved down
      one row, would overlap the stationary one. */
  lemma HitsIsOverlapAfterFall(m: Shape, s: Shape)
    ensures Hits(m, s) <==> Overlap(m.Translated(0, 1), s)
  {
    var f := m.Translated(0, 1);
    if Hits(m, s) {
      var y, x :| 0 <= y < |m.pattern| && 0 <= x < |m.pattern[y]| && Filled(m.pattern[y][x])
        && s.FilledAt(m.Top() + y + 1, m.Left() + x);
      assert s.FilledAt(f.Top() + y, f.Left() + x);
    }
    if Overlap(f, s) {
      var y, x :| 0 <= y < |f.pattern| && 0 <= x < |f.pattern[y]| && Filled(f.pattern[y][x])
        && s.FilledAt(f.Top() + y, f.Left() + x);
      assert s.FilledAt(m.Top() + y + 1, m.Left() + x);
    }
  }
}
