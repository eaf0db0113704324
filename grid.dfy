/** The abstract contents of a maze: a row-major grid of occupant stacks,
    and the effect of moving one occupant a step with wrap-around. Both
    maze classes (src/structures/maze.go and src/models/maze.go) are
    specified against these functions. */
module Grid {
  import opened Constants
  import opened Geometry
  import opened Occupants
  import opened Wrappers
  import opened MathUtil
  import opened TileStack

  /** tiles[y][x] is the stack on column x of row y, bottom first. */
  type Tiles = seq<seq<seq<GameObject>>>

  predicate InGrid(t: Tiles, p: Pos)
  {
    0 <= p.y < |t| && 0 <= p.x < |t[p.y]|
  }

  function At(t: Tiles, p: Pos): seq<GameObject>
    requires InGrid(t, p)
  {
    t[p.y][p.x]
  }

  predicate SameShape(a: Tiles, b: Tiles)
  {
    |a| == |b| && forall i :: 0 <= i < |a| ==> |a[i]| == |b[i]|
  }

  /** Every row of t holds exactly cols tiles. */
  predicate RowsOfWidth(t: Tiles, cols: int)
  {
    forall i :: 0 <= i < |t| ==> |t[i]| == cols
  }

  lemma SameShapeKeepsWidth(a: Tiles, b: Tiles, cols: int)
    requires SameShape(a, b) && RowsOfWidth(b, cols)
    ensures RowsOfWidth(a, cols)
  {
  }

  /** A row of n empty tiles. */
  function EmptyRow(n: nat): (r: seq<seq<GameObject>>)
    ensures |r| == n && forall j :: 0 <= j < n ==> r[j] == []
  {
    seq(n, _ => [])
  }

  /** t with the stack of tile p replaced by s. */
  function SetAt(t: Tiles, p: Pos, s: seq<GameObject>): (r: Tiles)
    requires InGrid(t, p)
    ensures SameShape(r, t)
    ensures At(r, p) == s
    ensures forall q :: InGrid(t, q) && q != p ==> At(r, q) == At(t, q)
  {
    t[p.y := t[p.y][p.x := s]]
  }

  /** Rewriting a tile with its own stack changes nothing. */
  lemma SetAtSame(t: Tiles, p: Pos)
    requires InGrid(t, p)
    ensures SetAt(t, p, At(t, p)) == t
  {
    assert t[p.y][p.x := At(t, p)] == t[p.y];
  }

  /** The tile one step from p in direction d, wrapping around the edges
      (the Python-style Mod of src/utils/math.go). */
  function Destination(p: Pos, d: Direction, cols: int, rows: int): (q: Pos)
    requires cols > 0 && rows > 0
    ensures 0 <= q.x < cols && 0 <= q.y < rows
    ensures (p.x + d.X - q.x) % cols == 0 && (p.y + d.Y - q.y) % rows == 0
  {
    Pos(Mod(p.x + d.X, cols), Mod(p.y + d.Y, rows))
  }

  /** Inside the grid a step is a plain step. */
  lemma DestinationInside(p: Pos, d: Direction, cols: int, rows: int)
    requires cols > 0 && rows > 0
    requires 0 <= p.x + d.X < cols && 0 <= p.y + d.Y < rows
    ensures Destination(p, d, cols, rows) == Pos(p.x + d.X, p.y + d.Y)
  {
    ModOfResidue(p.x + d.X, cols);
    ModOfResidue(p.y + d.Y, rows);
  }

  /** Stepping right off the last column lands on column 0 of the same row,
      and stepping left off column 0 lands on the last column. */
  lemma {:induction false} DestinationWraps(y: int, cols: int, rows: int)
    requires cols > 0 && 0 <= y < rows
    ensures Destination(Pos(cols - 1, y), DirRight, cols, rows) == Pos(0, y)
    ensures Destination(Pos(0, y), DirLeft, cols, rows) == Pos(cols - 1, y)
  {
    ModOfResidue(y, rows);
    ModIsEuclidean(cols, cols);
    MultipleMod(-1, cols);
    RemainderUnique(-1, cols, Mod(-1, cols), cols - 1);
  }

  /** The tiles after `elem`, standing on `from`, is moved onto `to`: when it
      is not in the stack of `from`, nothing changes; otherwise it is removed
      from `from` first, then (when `del`) the top of `to` is popped, and it
      is pushed onto `to`. `from` and `to` may be the same tile. */
  function Moved(t: Tiles, elem: GameObject, from: Pos, to: Pos, del: bool): (r: Tiles)
    requires InGrid(t, from) && InGrid(t, to)
    ensures SameShape(r, t)
  {
    if elem !in At(t, from) then t
    else
      var t1 := SetAt(t, from, RemoveFirst(At(t, from), elem));
      var dest := if del then Pop(At(t1, to)) else At(t1, to);
      SetAt(t1, to, dest + [elem])
  }

  /** A move of an element that is not on its tile changes nothing. */
  lemma MovedAbsent(t: Tiles, elem: GameObject, from: Pos, to: Pos, del: bool)
    requires InGrid(t, from) && InGrid(t, to)
    requires elem !in At(t, from)
    ensures Moved(t, elem, from, to, del) == t
  {
  }

  /** After a move the element is on top of its destination, and every tile
      other than the two involved is untouched. */
  lemma MovedTopAndFrame(t: Tiles, elem: GameObject, from: Pos, to: Pos, del: bool)
    requires InGrid(t, from) && InGrid(t, to)
    requires elem in At(t, from)
    ensures Top(At(Moved(t, elem, from, to, del), to)) == Some(elem)
    ensures forall q :: InGrid(t, q) && q != from && q != to ==>
      At(Moved(t, elem, from, to, del), q) == At(t, q)
  {
    var t1 := SetAt(t, from, RemoveFirst(At(t, from), elem));
    assert InGrid(t1, to);
  }

  /** Between two distinct tiles: the source loses the element, the
      destination loses its top when `del` holds, and gains the element. */
  lemma MovedBetween(t: Tiles, elem: GameObject, from: Pos, to: Pos, del: bool)
    requires InGrid(t, from) && InGrid(t, to) && from != to
    requires elem in At(t, from)
    ensures At(Moved(t, elem, from, to, del), from) == RemoveFirst(At(t, from), elem)
    ensures At(Moved(t, elem, from, to, del), to) ==
      (if del then Pop(At(t, to)) else At(t, to)) + [elem]
  {
    var t1 := SetAt(t, from, RemoveFirst(At(t, from), elem));
    assert InGrid(t1, to) && At(t1, to) == At(t, to);
  }

  /** Without deletion a move between two tiles neither creates nor
      destroys an occupant: the two stacks hold the same multiset. */
  lemma {:induction false} MovedConserves(t: Tiles, elem: GameObject, from: Pos, to: Pos)
    requires InGrid(t, from) && InGrid(t, to) && from != to
    requires elem in At(t, from)
    ensures var r := Moved(t, elem, from, to, false);
      multiset(At(r, from)) + multiset(At(r, to)) ==
      multiset(At(t, from)) + multiset(At(t, to))
  {
    MovedBetween(t, elem, from, to, false);
    RemoveFirstDeletesOne(At(t, from), elem);
  }
}
