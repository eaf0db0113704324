/** The collision detector of src/modules/collisionDetector.go: what lies
    one step ahead of a mover, and which of the four directions it may
    take. The mover is given by its position and facing direction. */
module Collision {
  import opened Constants
  import opened Geometry
  import opened Occupants
  import opened Wrappers
  import opened MathUtil
  import opened TileStack
  import opened Grid
  import SM = StructuresMaze

  /** A stack blocks a mover when its top element is unmovable. */
  predicate Blocks(s: seq<GameObject>)
  {
    Top(s).Some? && Top(s).value.IsUnmovable()
  }

  /** Every one of the four steps from `from` lands on a tile of the maze. */
  ghost predicate Surrounded(maze: SM.Maze, from: Pos)
    reads maze
  {
    && maze.cols > 0 && maze.rows > 0
    && forall d :: d in PossibleDirections ==>
         maze.Lands(from, d) && InGrid(maze.tiles, Destination(from, d, maze.cols, maze.rows))
  }

  /** A rectangular maze surrounds every tile. */
  lemma RectangularSurrounds(maze: SM.Maze, from: Pos)
    requires maze.Rectangular()
    ensures Surrounded(maze, from)
  {
    forall d | d in PossibleDirections
      ensures maze.Lands(from, d) && InGrid(maze.tiles, Destination(from, d, maze.cols, maze.rows))
    {
      maze.RectangularLands(from, d);
    }
  }

  /** A direction among `dirs` is viable when it is not the reversal of
      `facing` (if reversals are blocked) and the tile it leads to is not
      blocked; it maps to that tile. */
  function ViableAmong(t: Tiles, cols: int, rows: int, from: Pos, facing: Direction,
                       blockReverse: bool, dirs: seq<Direction>): map<Direction, Pos>
    requires cols > 0 && rows > 0
    requires forall d :: d in dirs ==> InGrid(t, Destination(from, d, cols, rows))
  {
    map d | d in dirs && !(blockReverse && d.IsOpposite(facing))
              && !Blocks(At(t, Destination(from, d, cols, rows)))
          :: Destination(from, d, cols, rows)
  }

  /** The viable moves from `from` over the four possible directions. */
  function Viable(t: Tiles, cols: int, rows: int, from: Pos, facing: Direction,
                  blockReverse: bool): map<Direction, Pos>
    requires cols > 0 && rows > 0
    requires forall d :: d in PossibleDirections ==> InGrid(t, Destination(from, d, cols, rows))
  {
    ViableAmong(t, cols, rows, from, facing, blockReverse, PossibleDirections)
  }

  /** ViableTiles: tries the four directions in order and keeps the
      viable ones. The source always skips the reversal; ghosts ask for it
      with a flag, which is blockReverse here. */
  method ViableTiles(maze: SM.Maze, from: Pos, facing: Direction, blockReverse: bool)
      returns (viable: map<Direction, Pos>)
    requires maze.Valid() && Surrounded(maze, from)
    ensures viable == Viable(maze.tiles, maze.cols, maze.rows, from, facing, blockReverse)
  {
    var wh := maze.Dimensions();
    var cols, rows := wh.0, wh.1;
    ghost var t := maze.tiles;
    viable := map[];
    for k := 0 to |PossibleDirections|
      invariant forall d :: d in PossibleDirections[..k] ==> d in PossibleDirections
      invariant viable == ViableAmong(t, cols, rows, from, facing, blockReverse, PossibleDirections[..k])
    {
      var direction := PossibleDirections[k];
      assert PossibleDirections[..k + 1] == PossibleDirections[..k] + [direction];
      ViableAmongStep(t, cols, rows, from, facing, blockReverse, PossibleDirections[..k], direction);
      if !(blockReverse && direction.IsOpposite(facing)) {
        var toX := Mod(from.x + direction.X, cols);
        var toY := Mod(from.y + direction.Y, rows);
        assert Pos(toX, toY) == Destination(from, direction, cols, rows);
        var elementsAtDestination := maze.ElementsAt(toX, toY);
        if elementsAtDestination.Some? {
          var target := elementsAtDestination.value.ElementOnTop();
          assert target == Top(At(t, Pos(toX, toY)));
          if !(target.Some? && target.value.IsUnmovable()) {
            viable := viable[direction := Pos(toX, toY)];
          }
        }
      }
    }
    assert PossibleDirections[..|PossibleDirections|] == PossibleDirections;
  }

  /** Trying one more direction adds it, with its destination, exactly
      when it is viable. */
  lemma ViableAmongStep(t: Tiles, cols: int, rows: int, from: Pos, facing: Direction,
                        blockReverse: bool, dirs: seq<Direction>, d: Direction)
    requires cols > 0 && rows > 0
    requires forall e :: e in dirs + [d] ==> InGrid(t, Destination(from, e, cols, rows))
    ensures forall e :: e in dirs ==> InGrid(t, Destination(from, e, cols, rows))
    ensures ViableAmong(t, cols, rows, from, facing, blockReverse, dirs + [d]) ==
      if !(blockReverse && d.IsOpposite(facing)) && !Blocks(At(t, Destination(from, d, cols, rows)))
      then ViableAmong(t, cols, rows, from, facing, blockReverse, dirs)[d := Destination(from, d, cols, rows)]
      else ViableAmong(t, cols, rows, from, facing, blockReverse, dirs)
  {
    assert forall e :: e in dirs ==> e in dirs + [d];
  }

  /** The element on top of the stack one step ahead of `from`, as a value. */
  function Ahead(t: Tiles, cols: int, rows: int, from: Pos, facing: Direction): Option<GameObject>
    requires cols > 0 && rows > 0 && InGrid(t, Destination(from, facing, cols, rows))
  {
    Top(At(t, Destination(from, facing, cols, rows)))
  }

  /** DetectCollision: the element on top of the tile one step ahead, None
      when that tile is empty. */
  function DetectCollision(maze: SM.Maze, from: Pos, facing: Direction): (r: Option<GameObject>)
    reads maze, maze.Repr
    requires maze.Valid() && maze.Lands(from, facing)
  {
    var wh := maze.Dimensions();
    var toX := Mod(from.x + facing.X, wh.0);
    var toY := Mod(from.y + facing.Y, wh.1);
    var group := maze.ElementsAt(toX, toY);
    if group.None? then None else group.value.ElementOnTop()
  }

  /** What DetectCollision reports is the top of the stack one step
      ahead, None exactly when that stack is empty. */
  lemma DetectCollisionIsTopAhead(maze: SM.Maze, from: Pos, facing: Direction)
    requires maze.Valid() && maze.Lands(from, facing)
    ensures var ahead := Destination(from, facing, maze.cols, maze.rows);
      && InGrid(maze.tiles, ahead)
      && DetectCollision(maze, from, facing) == Ahead(maze.tiles, maze.cols, maze.rows, from, facing)
  {
  }

  /** The viable moves are exactly the allowed directions whose tile does
      not block, each mapped to its wrapped destination. */
  lemma ViableExactly(t: Tiles, cols: int, rows: int, from: Pos, facing: Direction,
                      blockReverse: bool, d: Direction)
    requires cols > 0 && rows > 0
    requires forall d :: d in PossibleDirections ==> InGrid(t, Destination(from, d, cols, rows))
    ensures var v := Viable(t, cols, rows, from, facing, blockReverse);
      && (d in v <==> d in PossibleDirections && !(blockReverse && d.IsOpposite(facing))
                      && !Blocks(At(t, Destination(from, d, cols, rows))))
      && (d in v ==> v[d] == Destination(from, d, cols, rows))
  {
  }

  /** A direction is viable exactly when what DetectCollision reports for
      it does not block, unless it is a blocked reversal. */
  lemma ViableIffNoCollision(maze: SM.Maze, from: Pos, facing: Direction, blockReverse: bool, d: Direction)
    requires maze.Valid() && Surrounded(maze, from)
    requires d in PossibleDirections && !(blockReverse && d.IsOpposite(facing))
    ensures maze.Lands(from, d)
    ensures var c := DetectCollision(maze, from, d);
      d in Viable(maze.tiles, maze.cols, maze.rows, from, facing, blockReverse)
      <==> !(c.Some? && c.value.IsUnmovable())
  {
  }

  /** With reversals blocked a mover facing one of the four directions
      never turns back, so at most three moves remain. */
  lemma {:induction false} NoReversal(t: Tiles, cols: int, rows: int, from: Pos, facing: Direction)
    requires cols > 0 && rows > 0
    requires forall d :: d in PossibleDirections ==> InGrid(t, Destination(from, d, cols, rows))
    requires facing in PossibleDirections
    ensures var v := Viable(t, cols, rows, from, facing, true);
      Direction(-facing.X, -facing.Y) !in v && |v.Keys| <= 3
  {
    var v := Viable(t, cols, rows, from, facing, true);
    var back := Direction(-facing.X, -facing.Y);
    assert back.IsOpposite(facing);
    var others: set<Direction>;
    if facing == DirUp {
      others := {DirUp, DirLeft, DirRight};
    } else if facing == DirDown {
      others := {DirDown, DirLeft, DirRight};
    } else if facing == DirLeft {
      others := {DirUp, DirDown, DirLeft};
    } else {
      others := {DirUp, DirDown, DirRight};
    }
    assert |others| == 3;
    assert v.Keys <= others;
    SubsetCard(v.Keys, others);
  }

  lemma SubsetCard<T>(a: set<T>, b: set<T>)
    requires a <= b
    ensures |a| <= |b|
  {
    if a != {} {
      var x :| x in a;
      SubsetCard(a - {x}, b - {x});
    }
  }

  /** A mover standing still has no reversal to skip, and with facing
      DirStatic DetectCollision looks at the mover's own tile. */
  lemma StandingStill(maze: SM.Maze, from: Pos)
    requires maze.Valid() && Surrounded(maze, from)
    requires InGrid(maze.tiles, from) && maze.FullRow(from.y)
    ensures Viable(maze.tiles, maze.cols, maze.rows, from, DirStatic, true)
         == Viable(maze.tiles, maze.cols, maze.rows, from, DirStatic, false)
    ensures maze.Lands(from, DirStatic)
    ensures DetectCollision(maze, from, DirStatic) == Top(At(maze.tiles, from))
  {
    forall d | d in PossibleDirections
      ensures !d.IsOpposite(DirStatic)
    {
      StaticOpposition(d);
    }
    DestinationInside(from, DirStatic, maze.cols, maze.rows);
  }
}
