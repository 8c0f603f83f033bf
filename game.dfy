// The game state and its per-frame step: gravity on a timer, the landing
// test against the floor and the settled pieces, and the arrow-key input.
// The wall clock and the random piece choice are parameters.

module Game {
  import opened Shapes
  import opened Rotation
  import opened Collision
  import opened Pieces

  /** The playing field is 10 columns by 18 rows. */
  const GridWidth := 10
  const GridHeight := 18

  /** Time that must accumulate before gravity moves the piece one row. */
  const GameSpeed := 500

  /** A filled row as wide as the field, just below its last row. */
  const Floor: Shape := Shape(Pos(0, GridHeight), [[1, 1, 1, 1, 1, 1, 1, 1, 1, 1]])

  /** What stopped the active piece in a frame, if anything. */
  datatype Obstacle = NoHit | FloorHit | SettledHit(index: nat)

  /** The piece is about to land: it hits the floor or some settled piece. */
  predicate Lands(piece: Shape, settled: seq<Shape>)
  {
    Hits(piece, Floor) || exists i :: 0 <= i < |settled| && Hits(piece, settled[i])
  }

  /** A snapshot of the game: the settled pieces in order, the active piece,
      the accumulated time and the clock reading of the previous frame. */
  datatype GameState = GameState(settled: seq<Shape>, active: Shape, time: int, prev: int)

  /** Every piece, settled or active, has a non-empty square 0/1 pattern. */
  predicate StateValid(s: GameState)
  {
    PiecePattern(s.active.pattern) && forall i :: 0 <= i < |s.settled| ==> PiecePattern(s.settled[i].pattern)
  }

  /** A freshly spawned piece with canonical pattern `spawn`. */
  function Spawned(spawn: nat): Shape
    requires spawn < |PossibleShapes|
  {
    Shape(Pos(0, 0), PossibleShapes[spawn])
  }

  /** The active piece after the gravity part of a frame at clock `now`. */
  function Fallen(s: GameState, now: int): Shape
  {
    if s.time + (now - s.prev) >= GameSpeed then s.active.Translated(0, 1) else s.active
  }

  /** One frame at clock reading `now`, with `spawn` the pattern a new piece
      would get. The landing test is `Hits` alone, without the bounding-box
      rejections: the two agree on the rectangular patterns every reachable
      state has (see `StateValid`, `BoxesApartSound`), which is all `Tick`
      is proved against. */
  function Step(s: GameState, now: int, spawn: nat): GameState
    requires spawn < |PossibleShapes|
  {
    var t := s.time + (now - s.prev);
    var time := if t >= GameSpeed then 0 else t;
    var piece := Fallen(s, now);
    if Lands(piece, s.settled) then GameState(s.settled + [piece], Spawned(spawn), time, now)
    else GameState(s.settled, piece, time, now)
  }

  /** The timer: once the accumulated time reaches the gravity interval it is
      reset to zero (not reduced by the interval) and the piece falls exactly
      one row; before that the time only accumulates and the piece stays. */
  lemma StepTimer(s: GameState, now: int, spawn: nat)
    requires spawn < |PossibleShapes|
    ensures var t, r := s.time + (now - s.prev), Step(s, now, spawn);
      r.prev == now &&
      (t >= GameSpeed ==> r.time == 0 && Fallen(s, now).pos == Pos(s.active.pos.x, s.active.pos.y + 1)) &&
      (t < GameSpeed ==> r.time == t && Fallen(s, now) == s.active)
    ensures Fallen(s, now).pattern == s.active.pattern
  {
  }

  /** The settled list only grows, by at most the one piece that landed; the
      pieces already settled are kept as they were, and after a landing the
      new active piece is a spawned one at the origin. */
  lemma StepAppendOnly(s: GameState, now: int, spawn: nat)
    requires spawn < |PossibleShapes|
    ensures var r := Step(s, now, spawn);
      |s.settled| <= |r.settled| <= |s.settled| + 1 &&
      r.settled[..|s.settled|] == s.settled &&
      (|r.settled| == |s.settled| + 1 <==> Lands(Fallen(s, now), s.settled)) &&
      (|r.settled| == |s.settled| + 1 ==>
         r.settled[|s.settled|] == Fallen(s, now) && r.active == Spawned(spawn) && r.active.pos == Pos(0, 0)) &&
      (|r.settled| == |s.settled| ==> r.active == Fallen(s, now))
  {
  }

  /** A frame keeps every piece a non-empty square 0/1 grid. */
  lemma StepValid(s: GameState, now: int, spawn: nat)
    requires spawn < |PossibleShapes|
    requires StateValid(s)
    ensures StateValid(Step(s, now, spawn))
  {
    PossibleShapesArePiecePatterns();
  }

  /** Three frames 200 time units apart, starting from a fresh game with the
      vertical bar: the piece falls exactly once, on the third frame, and the
      timer is back at zero. */
  lemma ThreeFramesFallOnce()
    ensures var s0 := GameState([], Spawned(0), 0, 0);
      var s3 := Step(Step(Step(s0, 200, 0), 400, 0), 600, 0);
      s3 == GameState([], Shape(Pos(0, 1), PossibleShapes[0]), 0, 600)
  {
    PossibleShapesArePiecePatterns();
    var s0 := GameState([], Spawned(0), 0, 0);
    BoxesApartSound(s0.active, Floor);
    var s1 := Step(s0, 200, 0);
    assert s1 == GameState([], s0.active, 200, 200);
    var s2 := Step(s1, 400, 0);
    assert s2 == GameState([], s0.active, 400, 400);
    var moved := s0.active.Translated(0, 1);
    BoxesApartSound(moved, Floor);
    assert !Lands(moved, []);
  }

  /** A piece whose bounding box ends right above the floor lands, as soon
      as its lowest row has a filled cell over the field. */
  lemma ContactWithFloorHits(m: Shape, x: int)
    requires |m.pattern| > 0 && m.Bottom() == Floor.Top()
    requires 0 <= x < |m.pattern[|m.pattern| - 1]| && Filled(m.pattern[|m.pattern| - 1][x])
    requires 0 <= m.Left() + x < GridWidth
    ensures Hits(m, Floor)
  {
    var y := |m.pattern| - 1;
    assert Floor.FilledAt(m.Top() + y + 1, m.Left() + x);
  }

  /** The square piece at column 4, row 16 lands on the floor: its lower row
      reads the floor's only row. */
  lemma SquareAboveFloorHits()
    ensures Hits(Shape(Pos(4, 16), PossibleShapes[3]), Floor)
  {
    var m := Shape(Pos(4, 16), PossibleShapes[3]);
    assert Filled(m.pattern[1][0]) && Floor.FilledAt(m.Top() + 1 + 1, m.Left() + 0);
  }

  /** One row higher, the same piece does not collide. */
  lemma SquareOneRowHigherMisses()
    ensures !Hits(Shape(Pos(4, 15), PossibleShapes[3]), Floor)
  {
    BoxesApartSound(Shape(Pos(4, 15), PossibleShapes[3]), Floor);
  }

  /** What an arrow key does to a piece: 39 right, 37 left, 38 rotate,
      40 down; any other key does nothing. */
  function KeyMove(code: int, piece: Shape): Shape
    requires Square(piece.pattern)
  {
    if code == 39 then piece.Translated(1, 0)
    else if code == 37 then piece.Translated(-1, 0)
    else if code == 38 then Shape(piece.pos, Rotated(piece.pattern))
    else if code == 40 then piece.Translated(0, 1)
    else piece
  }

  /** Every key keeps a piece pattern a piece pattern, and pressing the
      rotate key four times gives the piece back. */
  lemma RotateKeyFourTimes(piece: Shape)
    requires PiecePattern(piece.pattern)
    ensures forall code :: PiecePattern(KeyMove(code, piece).pattern)
    ensures KeyMove(38, KeyMove(38, KeyMove(38, KeyMove(38, piece)))) == piece
  {
    RotatedPiecePattern(piece.pattern);
    RotatedPiecePattern(Rotated(piece.pattern));
    RotatedPiecePattern(Rotated(Rotated(piece.pattern)));
    RotatedFourTimes(piece.pattern);
  }

  /** The game: the settled pieces, the active piece, the timer and the
      previous clock reading. */
  class Game {
    var settled: seq<Tetromino>
    var active: Tetromino
    var time: int
    var prev: int

    /** The active piece is never one of the settled ones, and every piece
        is a non-empty square 0/1 grid. */
    ghost predicate Valid()
      reads this, active, settled
    {
      active !in settled && active.Valid() && forall i :: 0 <= i < |settled| ==> settled[i].Valid()
    }

    ghost function SettledShapes(): seq<Shape>
      reads this, settled
    {
      var pieces := settled;
      seq(|pieces|, i reads pieces requires 0 <= i < |pieces| => pieces[i].Geometry())
    }

    ghost function State(): GameState
      reads this, active, settled
    {
      GameState(SettledShapes(), active.Geometry(), time, prev)
    }

    /** A new game at clock reading `start`, whose first piece has pattern
        `spawn`. */
    constructor (start: int, spawn: nat)
      requires spawn < |PossibleShapes|
      ensures Valid() && fresh(active)
      ensures settled == []
      ensures State() == GameState([], Spawned(spawn), 0, start)
    {
      settled := [];
      active := new Tetromino(spawn);
      time := 0;
      prev := start;
    }

    /** Tests the active piece against the floor first, then against each
        settled piece in order, and stops at the first hit. Changes nothing. */
    method FindObstacle() returns (o: Obstacle)
      requires Valid()
      ensures o.FloorHit? <==> Hits(active.Geometry(), Floor)
      ensures o.SettledHit? ==>
        o.index < |settled| && Hits(active.Geometry(), settled[o.index].Geometry()) &&
        forall j :: 0 <= j < o.index ==> !Hits(active.Geometry(), settled[j].Geometry())
      ensures o.NoHit? <==> !Lands(active.Geometry(), SettledShapes())
    {
      var hit := active.IsColliding(Floor);
      if hit {
        return FloorHit;
      }
      var i := 0;
      while i < |settled|
        invariant 0 <= i <= |settled|
        invariant forall j :: 0 <= j < i ==> !Hits(active.Geometry(), settled[j].Geometry())
      {
        hit := active.IsColliding(settled[i].Geometry());
        if hit {
          assert SettledShapes()[i] == settled[i].Geometry();
          return SettledHit(i);
        }
        i := i + 1;
      }
      return NoHit;
    }

    /** One frame at clock reading `now`: accumulate the elapsed time, let
        gravity act when the interval is reached, and on a landing append
        the active piece to the settled list and spawn a new one with
        pattern `spawn`. */
    method Tick(now: int, spawn: nat)
      requires Valid() && spawn < |PossibleShapes|
      modifies this, active
      ensures Valid()
      ensures State() == Step(old(State()), now, spawn)
      ensures |settled| <= |old(settled)| + 1 && settled[..|old(settled)|] == old(settled)
      ensures |settled| == |old(settled)| + 1 ==> settled[|old(settled)|] == old(active) && fresh(active)
      ensures |settled| == |old(settled)| ==> active == old(active)
    {
      ghost var before := State();
      var delta := now - prev;
      prev := now;
      time := time + delta;
      if time >= GameSpeed {
        time := 0;
        active.MoveDown();
      }
      assert SettledShapes() == before.settled by {
        assert forall i :: 0 <= i < |settled| ==> settled[i] != active;
      }
      ghost var piece := active.Geometry();
      assert piece == Fallen(before, now);
      var o := FindObstacle();
      assert o.NoHit? <==> !Lands(active.Geometry(), SettledShapes());
      assert SettledShapes() == before.settled;
      assert active.Geometry() == piece;
      assert o != NoHit <==> Lands(piece, before.settled);
      if o != NoHit {
        settled := settled + [active];
        active := new Tetromino(spawn);
        assert SettledShapes() == before.settled + [piece];
      }
    }

    /** The keyboard handler: an arrow key moves or rotates the active piece
        at once, with no bounds or collision check; other keys do nothing. */
    method HandleKey(code: int)
      requires Valid()
      modifies active
      ensures Valid()
      ensures State() == old(State()).(active := KeyMove(code, old(active.Geometry())))
    {
      if code == 39 {
        active.MoveRight();
      } else if code == 37 {
        active.MoveLeft();
      } else if code == 38 {
        active.Rotate();
      } else if code == 40 {
        active.MoveDown();
      }
    }
  }
}
