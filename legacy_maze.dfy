/** The first maze of the repository (maze.go at its root): one occupant
    per cell, nil for an empty one, and only Pac-Man can be moved. */
module LegacyMaze {
  import opened Wrappers
  import opened MathUtil

  /** The player of the first version; it carries its own coordinates. */
  class Player {
    var x: int
    var y: int

    constructor (x: int, y: int)
      ensures this.x == x && this.y == y
    {
      this.x, this.y := x, y;
    }
  }

  /** A cell holds nothing, the player, or some other object (a wall or a
      piece of food), told apart by an identifier. */
  datatype Cell = Empty | PlayerCell(player: Player) | OtherCell(id: nat)

  type Cells = seq<seq<Cell>>

  /** The cells after the player at `from` steps to `to`: `from` is
      emptied first, then the player is written on `to`, overwriting
      whatever was there (the source cell again when they coincide). */
  function Stepped(m: Cells, fx: int, fy: int, tx: int, ty: int): (r: Cells)
    requires 0 <= fy < |m| && 0 <= fx < |m[fy]| && 0 <= ty < |m| && 0 <= tx < |m[ty]|
    ensures |r| == |m| && forall i :: 0 <= i < |m| ==> |r[i]| == |m[i]|
    ensures r[ty][tx] == m[fy][fx]
    ensures (fx, fy) != (tx, ty) ==> r[fy][fx] == Empty
    ensures forall i, j :: 0 <= i < |m| && 0 <= j < |m[i]| && (j, i) != (fx, fy) && (j, i) != (tx, ty) ==>
      r[i][j] == m[i][j]
  {
    var m1 := m[fy := m[fy][fx := Empty]];
    m1[ty := m1[ty][tx := m[fy][fx]]]
  }

  class Maze {
    var rows: int
    var cols: int
    var maze: Cells

    /** Rows are full (cols cells) or empty: AddRow accepts any width while
        no full row exists yet. */
    ghost predicate Valid()
      reads this
    {
      rows == |maze| && cols >= 0 && forall i :: 0 <= i < rows ==> |maze[i]| == 0 || |maze[i]| == cols
    }

    /** InitMaze: no rows and no columns. */
    constructor ()
      ensures Valid() && rows == 0 && cols == 0 && maze == []
    {
      rows, cols, maze := 0, 0, [];
    }

    /** Moves the occupant of (fromX, fromY) by (dx, dy) with wrap-around
        when it is the player, who then records its new coordinates; any
        other occupant, and an empty cell, stays. */
    method MoveElement(fromX: int, fromY: int, dx: int, dy: int)
      requires Valid()
      requires 0 <= fromY < rows && 0 <= fromX < |maze[fromY]|
      requires maze[fromY][fromX].PlayerCell? ==> |maze[Mod(fromY + dy, rows)]| == cols
      modifies this, if maze[fromY][fromX].PlayerCell? then {maze[fromY][fromX].player} else {}
      ensures Valid() && rows == old(rows) && cols == old(cols)
      ensures !old(maze[fromY][fromX]).PlayerCell? ==> maze == old(maze)
      ensures old(maze[fromY][fromX]).PlayerCell? ==>
        var p := old(maze[fromY][fromX]).player;
        var tx, ty := Mod(fromX + dx, cols), Mod(fromY + dy, rows);
        maze == Stepped(old(maze), fromX, fromY, tx, ty) && p.x == tx && p.y == ty
    {
      match maze[fromY][fromX]
      case PlayerCell(obj) =>
        maze := maze[fromY := maze[fromY][fromX := Empty]];
        var toX := Mod(fromX + dx, cols);
        var toY := Mod(fromY + dy, rows);
        maze := maze[toY := maze[toY][toX := PlayerCell(obj)]];
        obj.x := toX;
        obj.y := toY;
      case _ =>
        // the source only prints that the occupant is not the player
    }

    /** Puts elem on cell (column j, row i), replacing what was there; an
        error and no change when i or j is past the last row or column.
        Only the upper bounds are checked: a negative index is an index
        panic in the source, hence the precondition. */
    method AddElement(i: int, j: int, elem: Cell) returns (err: Option<string>)
      requires Valid()
      requires i < rows && j < cols ==> 0 <= i && 0 <= j && |maze[i]| == cols
      modifies this
      ensures Valid() && rows == old(rows) && cols == old(cols)
      ensures err.Some? <==> i >= rows || j >= cols
      ensures err.Some? ==> maze == old(maze)
      ensures err.None? ==> maze == old(maze)[i := old(maze)[i][j := elem]]
    {
      if i >= rows || j >= cols {
        return Some("Invalid position to add element to maze");
      }
      maze := maze[i := maze[i][j := elem]];
      return None;
    }

    /** Appends a row of n empty cells; an error and no change when a full
        row of a different width already exists. */
    method AddRow(n: int) returns (err: Option<string>)
      requires Valid()
      requires n >= 0
      modifies this
      ensures Valid()
      ensures err.Some? <==> old(cols) > 0 && old(cols) != n
      ensures err.Some? ==> rows == old(rows) && cols == old(cols) && maze == old(maze)
      ensures err.None? ==> rows == old(rows) + 1 && cols == n && maze == old(maze) + [seq(n, _ => Empty)]
    {
      if cols > 0 && cols != n {
        return Some("Number of columns cannot be different for each row");
      }
      maze := maze + [seq(n, _ => Empty)];
      rows := rows + 1;
      cols := n;
      return None;
    }
  }
}
