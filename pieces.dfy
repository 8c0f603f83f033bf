// The falling piece: one of seven canonical square patterns, moved one
// cell at a time, rotated by a quarter turn and tested for collisions.

module Pieces {
  import opened Shapes
  import opened Rotation
  import opened Collision

  /** The seven canonical patterns a new piece is drawn from. */
  const PossibleShapes: seq<Pattern> := [
    [[0, 0, 1, 0],
     [0, 0, 1, 0],
     [0, 0, 1, 0],
     [0, 0, 1, 0]],
    [[1, 0, 0],
     [1, 1, 1],
     [0, 0, 0]],
    [[0, 0, 1],
     [1, 1, 1],
     [0, 0, 0]],
    [[1, 1],
     [1, 1]],
    [[0, 1, 1],
     [1, 1, 0],
     [0, 0, 0]],
    [[0, 1, 0],
     [1, 1, 1],
     [0, 0, 0]],
    [[1, 1, 0],
     [0, 1, 1],
     [0, 0, 0]]
  ]

  /** What every piece's pattern satisfies: a non-empty square 0/1 grid. */
  predicate PiecePattern(p: Pattern)
  {
    |p| > 0 && Square(p) && Binary(p)
  }

  /** Every canonical pattern is a non-empty square 0/1 grid, so rotation is
      defined for every piece that can be spawned. */
  lemma PossibleShapesArePiecePatterns()
    ensures |PossibleShapes| == 7
    ensures forall i :: 0 <= i < |PossibleShapes| ==> PiecePattern(PossibleShapes[i])
  {
    forall i | 0 <= i < |PossibleShapes|
      ensures PiecePattern(PossibleShapes[i])
    {
      var p := PossibleShapes[i];
      assert Square(p);
      forall y, x | 0 <= y < |p| && 0 <= x < |p[y]|
        ensures p[y][x] == 0 || p[y][x] == 1
      {
      }
    }
  }

  /** A piece pattern stays a piece pattern under rotation. */
  lemma RotatedPiecePattern(p: Pattern)
    requires PiecePattern(p)
    ensures PiecePattern(Rotated(p))
  {
    RotatedBinary(p);
  }

  /** Turning the vertical bar twice mirrors its filled column: column 2
      becomes column 1. */
  lemma BarRotatedTwice()
    ensures Rotated(Rotated(PossibleShapes[0])) == seq(4, _ => [0, 1, 0, 0])
  {
    var p := PossibleShapes[0];
    RotatedTwice(p);
    var r := Rotated(Rotated(p));
    forall y | 0 <= y < 4
      ensures r[y] == [0, 1, 0, 0]
    {
      assert r[y][0] == p[3 - y][3];
      assert r[y][1] == p[3 - y][2];
      assert r[y][2] == p[3 - y][1];
      assert r[y][3] == p[3 - y][0];
    }
  }

  /** A falling piece. Its position and its pattern change in place. */
  class Tetromino {
    var pos: Pos
    var shape: Pattern

    ghost predicate Valid()
      reads this
    {
      PiecePattern(shape)
    }

    /** The piece's current geometry, from which every edge is derived. */
    function Geometry(): Shape
      reads this
    {
      Shape(pos, shape)
    }

    /** A new piece at the top-left corner; the random choice of pattern is
        the parameter `shapeIndex`. */
    constructor (shapeIndex: nat)
      requires shapeIndex < |PossibleShapes|
      ensures Valid()
      ensures pos == Pos(0, 0) && shape == PossibleShapes[shapeIndex]
    {
      PossibleShapesArePiecePatterns();
      pos := Pos(0, 0);
      shape := PossibleShapes[shapeIndex];
    }

    /** One column to the right; no bounds are checked. */
    method MoveRight()
      modifies this`pos
      ensures pos == Pos(old(pos.x) + 1, old(pos.y))
      ensures Geometry() == old(Geometry()).Translated(1, 0)
    {
      pos := Pos(pos.x + 1, pos.y);
    }

    /** One column to the left; no bounds are checked. */
    method MoveLeft()
      modifies this`pos
      ensures pos == Pos(old(pos.x) - 1, old(pos.y))
      ensures Geometry() == old(Geometry()).Translated(-1, 0)
    {
      pos := Pos(pos.x - 1, pos.y);
    }

    /** One row down; no bounds are checked. */
    method MoveDown()
      modifies this`pos
      ensures pos == Pos(old(pos.x), old(pos.y) + 1)
      ensures Geometry() == old(Geometry()).Translated(0, 1)
    {
      pos := Pos(pos.x, pos.y + 1);
    }

    /** Builds the quarter-turned pattern cell by cell and replaces the
        piece's pattern with it; the position stays. */
    method Rotate()
      requires Square(shape)
      modifies this`shape
      ensures shape == Rotated(old(shape))
      ensures old(Valid()) ==> Valid()
    {
      var n := |shape|;
      var rotated: Pattern := [];
      var y := 0;
      while y < n
        invariant 0 <= y <= n && |rotated| == y
        invariant forall j :: 0 <= j < y ==> rotated[j] == Rotated(shape)[j]
      {
        var row: seq<int> := [];
        var x := 0;
        while x < n
          invariant 0 <= x <= n && |row| == x
          invariant forall i :: 0 <= i < x ==> row[i] == shape[n - i - 1][y]
        {
          row := row + [shape[n - x - 1][y]];
          x := x + 1;
        }
        rotated := rotated + [row];
        y := y + 1;
      }
      if Valid() {
        RotatedPiecePattern(shape);
      }
      shape := rotated;
    }

    /** The collision test against a stationary shape: the two bounding-box
        rejections, then a scan of this piece's filled cells for a filled
        stationary cell one row below. Neither shape is changed. */
    method IsColliding(other: Shape) returns (r: bool)
      requires |shape| > 0 && |other.pattern| > 0
      ensures r == (!BoxesApart(Geometry(), other) && Hits(Geometry(), other))
      ensures Rectangular(shape) && Rectangular(other.pattern) ==> r == Hits(Geometry(), other)
    {
      var me := Geometry();
      if Rectangular(shape) && Rectangular(other.pattern) && BoxesApart(me, other) {
        BoxesApartSound(me, other);
      }
      if other.Top() > me.Bottom() {
        return false;
      }
      if other.Right() <= me.Left() || other.Left() >= me.Right() {
        return false;
      }
      var y := 0;
      while y < |shape|
        invariant 0 <= y <= |shape|
        invariant forall j, x :: 0 <= j < y && 0 <= x < |shape[j]| && Filled(shape[j][x]) ==>
                                   !other.FilledAt(me.Top() + j + 1, me.Left() + x)
      {
        var x := 0;
        while x < |shape[y]|
          invariant 0 <= x <= |shape[y]|
          invariant forall i :: 0 <= i < x && Filled(shape[y][i]) ==>
                                 !other.FilledAt(me.Top() + y + 1, me.Left() + i)
        {
          if !Filled(shape[y][x]) {
            x := x + 1;
            continue;
          }
          var yToCheck := (me.Top() + y) - other.Top() + 1;
          var xToCheck := (me.Left() + x) - other.Left();
          if 0 <= yToCheck < |other.pattern| && 0 <= xToCheck < |other.pattern[yToCheck]|
            && Filled(other.pattern[yToCheck][xToCheck])
          {
            return true;
          }
          x := x + 1;
        }
        y := y + 1;
      }
      return false;
    }
  }
}
