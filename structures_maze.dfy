/** The maze of src/structures/maze.go: a grid of occupant stacks that
    movers step across with wrap-around at the edges. */
module StructuresMaze {
  import opened Constants
  import opened Geometry
  import opened Occupants
  import opened Wrappers
  import opened MathUtil
  import opened TileStack
  import opened Grid
  import G = StructuresGroup

  class Maze {
    var rows: int
    var cols: int
    var logicMap: seq<seq<G.GameObjectGroup>>
    /** The contents of every group, as values. */
    ghost var tiles: Tiles
    ghost var Repr: set<G.GameObjectGroup>

    /** Rows are either full (cols groups) or empty: AddRow accepts any
        width while no full row exists yet. Each tile has its own group. */
    ghost predicate Valid()
      reads this, Repr
    {
      && rows == |logicMap| == |tiles|
      && cols >= 0
      && (forall i :: 0 <= i < rows ==>
            |logicMap[i]| == |tiles[i]| && (|tiles[i]| == 0 || |tiles[i]| == cols))
      && (forall i, j :: 0 <= i < rows && 0 <= j < |logicMap[i]| ==> logicMap[i][j] in Repr)
      && (forall i, j :: 0 <= i < rows && 0 <= j < |logicMap[i]| ==>
            logicMap[i][j].elements == tiles[i][j])
      && (forall i, j, i', j' ::
            (0 <= i < rows && 0 <= j < |logicMap[i]| && 0 <= i' < rows && 0 <= j' < |logicMap[i']|
             && (i != i' || j != j')) ==> logicMap[i][j] != logicMap[i'][j'])
    }

    /** Row y exists and holds cols tiles. */
    ghost predicate FullRow(y: int)
      reads this
    {
      0 <= y < |tiles| && |tiles[y]| == cols
    }

    /** A step from p in direction d lands on a tile that exists. */
    ghost predicate Lands(p: Pos, d: Direction)
      reads this
    {
      cols > 0 && rows > 0 && FullRow(Destination(p, d, cols, rows).y)
    }

    /** p is a tile of the maze and a step from it lands on one. */
    ghost predicate CanStep(p: Pos, d: Direction)
      reads this
    {
      InGrid(tiles, p) && Lands(p, d)
    }

    /** Every row is full and the maze is not empty: the shape of every
        level whose layout has no blank leading line. */
    ghost predicate Rectangular()
      reads this
    {
      cols > 0 && rows > 0 && |tiles| == rows && RowsOfWidth(tiles, cols)
    }

    /** In a rectangular maze every step, from anywhere, lands on a tile. */
    lemma RectangularLands(p: Pos, d: Direction)
      requires Rectangular()
      ensures Lands(p, d) && InGrid(tiles, Destination(p, d, cols, rows))
    {
    }

    /** InitMaze: no rows and no columns. */
    constructor ()
      ensures Valid() && fresh(Repr)
      ensures rows == 0 && cols == 0 && tiles == []
    {
      rows, cols := 0, 0;
      logicMap := [];
      tiles := [];
      Repr := {};
    }

    /** Width and height: the height is the number of rows and every
        non-empty row is as wide as the width. */
    function Dimensions(): (wh: (int, int))
      reads this, Repr
      requires Valid()
      ensures wh == (cols, rows)
      ensures wh.1 == |tiles| && wh.0 >= 0
      ensures forall i :: 0 <= i < |tiles| && tiles[i] != [] ==> |tiles[i]| == wh.0
    {
      (cols, rows)
    }

    /** The group of a tile, None (nil) outside the maze. */
    function ElementsAt(x: int, y: int): (r: Option<G.GameObjectGroup>)
      reads this, Repr
      requires Valid()
      requires 0 <= x < cols && 0 <= y < rows ==> FullRow(y)
      ensures r.None? <==> !(0 <= x < cols && 0 <= y < rows)
      ensures r.Some? ==> r.value in Repr && r.value.elements == tiles[y][x]
    {
      if x < 0 || x >= cols || y < 0 || y >= rows then None
      else Some(logicMap[y][x])
    }

    /** Pushes elem onto tile (column j, row i); an error and no change
        when the tile lies outside the maze. */
    method AddElement(i: int, j: int, elem: GameObject) returns (err: Option<string>)
      requires Valid()
      requires 0 <= i < rows && 0 <= j < cols ==> FullRow(i)
      modifies this, Repr
      ensures Valid() && Repr == old(Repr)
      ensures rows == old(rows) && cols == old(cols)
      ensures err.Some? <==> !(0 <= i < old(rows) && 0 <= j < old(cols))
      ensures err.Some? ==> tiles == old(tiles)
      ensures err.None? ==>
        tiles == SetAt(old(tiles), Pos(j, i), At(old(tiles), Pos(j, i)) + [elem])
    {
      if i < 0 || i >= rows || j < 0 || j >= cols {
        return Some("Invalid position to add element to maze");
      }
      var groupObject := logicMap[i][j];
      groupObject.AddElement(elem);
      tiles := SetAt(tiles, Pos(j, i), tiles[i][j] + [elem]);
      return None;
    }

    /** Appends a row of n empty tiles; an error and no change when a full
        row of a different width already exists. */
    method AddRow(n: int) returns (err: Option<string>)
      requires Valid()
      requires n >= 0
      modifies this
      ensures Valid() && old(Repr) <= Repr && fresh(Repr - old(Repr))
      ensures err.Some? <==> old(cols) > 0 && old(cols) != n
      ensures err.Some? ==> rows == old(rows) && cols == old(cols) && tiles == old(tiles)
      ensures err.None? ==>
        rows == old(rows) + 1 && cols == n && tiles == old(tiles) + [EmptyRow(n)]
    {
      if cols > 0 && cols != n {
        return Some("Number of columns cannot be different for each row");
      }
      var row := NewGroups(n);
      logicMap := logicMap + [row];
      tiles := tiles + [EmptyRow(n)];
      Repr := Repr + set k | 0 <= k < n :: row[k];
      rows := rows + 1;
      cols := n;
      return None;
    }

    /** n distinct, newly created, empty groups: the loop of AddRow. */
    static method NewGroups(n: int) returns (row: seq<G.GameObjectGroup>)
      requires n >= 0
      ensures |row| == n
      ensures forall k :: 0 <= k < n ==> fresh(row[k]) && row[k].elements == []
      ensures forall k, k' :: 0 <= k < k' < n ==> row[k] != row[k']
    {
      row := [];
      var j := 0;
      while j < n
        invariant 0 <= j <= n && |row| == j
        invariant forall k :: 0 <= k < j ==> fresh(row[k]) && row[k].elements == []
        invariant forall k, k' :: 0 <= k < k' < j ==> row[k] != row[k']
      {
        var g := new G.GameObjectGroup();
        row := row + [g];
        j := j + 1;
      }
    }

    /** Removes elem from the group of tile p. */
    method RemoveFrom(p: Pos, elem: GameObject) returns (ok: bool)
      requires Valid() && InGrid(tiles, p)
      modifies this, Repr
      ensures Valid() && Repr == old(Repr) && logicMap == old(logicMap)
      ensures rows == old(rows) && cols == old(cols)
      ensures old(Rectangular()) ==> Rectangular()
      ensures ok <==> elem in At(old(tiles), p)
      ensures tiles == SetAt(old(tiles), p, RemoveFirst(At(old(tiles), p), elem))
    {
      var g := logicMap[p.y][p.x];
      ok := g.RemoveElement(elem);
      tiles := SetAt(tiles, p, g.elements);
      if old(Rectangular()) {
        SameShapeKeepsWidth(tiles, old(tiles), cols);
      }
    }

    /** Pushes elem onto the group of tile p, first popping its top when
        del holds. */
    method PushOnto(p: Pos, elem: GameObject, del: bool)
      requires Valid() && InGrid(tiles, p)
      modifies this, Repr
      ensures Valid() && Repr == old(Repr) && logicMap == old(logicMap)
      ensures rows == old(rows) && cols == old(cols)
      ensures old(Rectangular()) ==> Rectangular()
      ensures tiles == SetAt(old(tiles), p,
        (if del then Pop(At(old(tiles), p)) else At(old(tiles), p)) + [elem])
    {
      var g := logicMap[p.y][p.x];
      if del {
        // the top is removed the way RemoveTopElement of src/models/gameObjectGroup.go does
        g.elements := Pop(g.elements);
      }
      g.AddElement(elem);
      tiles := SetAt(tiles, p, g.elements);
      if old(Rectangular()) {
        SameShapeKeepsWidth(tiles, old(tiles), cols);
      }
    }

    /** Moves elem, standing at pos, one step in direction: nothing happens
        when elem is not on its tile; otherwise the grid becomes Moved and
        pos takes the wrapped destination. The destination is looked up only
        once elem has been found on its tile. */
    method MoveElement(elem: GameObject, pos: Position, direction: Direction, delDestElement: bool)
      requires Valid() && InGrid(tiles, pos.Value())
      requires elem in At(tiles, pos.Value()) ==> Lands(pos.Value(), direction)
      modifies this, Repr, pos
      ensures Valid() && Repr == old(Repr)
      ensures rows == old(rows) && cols == old(cols)
      ensures old(Rectangular()) ==> Rectangular()
      ensures var from := old(pos.Value());
        if elem in At(old(tiles), from) then
          var to := Destination(from, direction, cols, rows);
          && InGrid(old(tiles), to)
          && tiles == Moved(old(tiles), elem, from, to, delDestElement)
          && pos.Value() == to
        else
          tiles == old(tiles) && pos.Value() == from
      ensures var from := old(pos.Value());
        old(Lands(from, direction)) ==>
          var to := Destination(from, direction, cols, rows);
          && tiles == Moved(old(tiles), elem, from, to, delDestElement)
          && pos.Value() == (if elem in At(old(tiles), from) then to else from)
    {
      var from := pos.Value();
      var valid := RemoveFrom(from, elem);
      if !valid {
        // the source only logs that the element could not be found
        SetAtSame(old(tiles), from);
        if old(Lands(from, direction)) {
          MovedAbsent(old(tiles), elem, from, Destination(from, direction, cols, rows), delDestElement);
        }
        return;
      }
      var to := Destination(from, direction, cols, rows);
      PushOnto(to, elem, delDestElement);
      pos.SetX(to.x);
      pos.SetY(to.y);
    }
  }
}