/** What parseLevel of src/screens/level.go builds from a level file, as
    values: the character table, the board after every character, and
    the properties of the finished board. Module Screens runs the same
    steps on a real maze and is proved to agree with these functions. */
module LevelLayout {
  import opened Constants
  import opened Geometry
  import opened Occupants
  import opened Wrappers
  import opened TileStack
  import opened Grid

  /** What a character of the level file places on its tile. */
  datatype Symbol =
    | WallSymbol(base: Option<GhostType>)    // '#', or a ghost's base
    | BarsSymbol                             // '|'
    | PlayerSymbol                           // 'S'
    | SpawnSymbol                            // 'G'
    | PelletSymbol(isPowerful: bool)         // '.' and '@'
    | NoSymbol                               // anything else

  /** The ghostBases table of parseLevel. */
  const GhostBases: map<char, GhostType> := map['B' := Blinky, 'P' := Pinky, 'I' := Inky, 'C' := Clyde]

  /** The allGhosts list of the 'G' case. */
  const AllGhosts: seq<GhostType> := [Blinky, Pinky, Inky, Clyde]

  /** The switch of parseLevel over one character. */
  function SymbolOf(c: char): (r: Symbol)
  {
    match c
    case '#' => WallSymbol(None)
    case 'B' => WallSymbol(Some(Blinky))
    case 'P' => WallSymbol(Some(Pinky))
    case 'I' => WallSymbol(Some(Inky))
    case 'C' => WallSymbol(Some(Clyde))
    case '|' => BarsSymbol
    case 'S' => PlayerSymbol
    case 'G' => SpawnSymbol
    case '.' => PelletSymbol(false)
    case '@' => PelletSymbol(true)
    case _ => NoSymbol
  }

  /** The character table: '#' and the four base letters make walls, '|'
      bars, 'S' the player, 'G' the ghosts' spawn, '.' and '@' the plain
      and the power pellet, and every other character nothing. */
  lemma SymbolTable(c: char)
    ensures SymbolOf(c).WallSymbol? <==> c in "#BPIC"
    ensures SymbolOf(c).WallSymbol? && SymbolOf(c).base.Some? <==> c in GhostBases
    ensures c in GhostBases ==> SymbolOf(c).base == Some(GhostBases[c])
    ensures SymbolOf(c) == BarsSymbol <==> c == '|'
    ensures SymbolOf(c) == PlayerSymbol <==> c == 'S'
    ensures SymbolOf(c) == SpawnSymbol <==> c == 'G'
    ensures SymbolOf(c).PelletSymbol? <==> c == '.' || c == '@'
    ensures SymbolOf(c).PelletSymbol? ==> (SymbolOf(c).isPowerful <==> c == '@')
    ensures SymbolOf(c) == NoSymbol <==> c !in "#BPIC|SG.@"
  {
  }

  /** Each base letter records the base of the ghost painted in the colour
      it stands for. */
  lemma BaseColours()
    ensures SymbolOf('B').base.value.Colour() == "red"
    ensures SymbolOf('P').base.value.Colour() == "pink"
    ensures SymbolOf('I').base.value.Colour() == "cyan"
    ensures SymbolOf('C').base.value.Colour() == "orange"
  {
  }

  /** An enemy of the level: its kind, its idle time and its handle on
      the board. */
  datatype Spawned = Spawned(kind: GhostType, idleTime: real, handle: GameObject)

  /** The level as far as it has been parsed: the maze (its tiles and
      counters), the game context's ghost bases, ghost home and main
      player (by its handle), the enemies in creation order, and
      the next id the model gives to an occupant it creates. */
  datatype Board = Board(tiles: Tiles, rows: int, cols: int, bases: map<GhostType, Pos>,
                         home: Option<Pos>, player: Option<GameObject>, enemies: seq<Spawned>, nextId: nat)

  /** The enemies created by one 'G': ghost i gets the kind i mod 4 of
      AllGhosts, an idle time of i spawn intervals, and the i-th fresh id. */
  function Spawns(firstId: nat, n: int): (r: seq<Spawned>)
    ensures |r| == if n > 0 then n else 0
  {
    if n > 0 then seq(n, i requires 0 <= i < n => Spawned(AllGhosts[i % 4], (i * TimeBetweenSpawns) as real, GhostObject(firstId + i)))
    else []
  }

  /** The handles of a list of enemies. */
  function Handles(es: seq<Spawned>): (r: seq<GameObject>)
    ensures |r| == |es|
    ensures forall k :: 0 <= k < |es| ==> r[k] == es[k].handle
  {
    if es == [] then [] else Handles(es[..|es| - 1]) + [es[|es| - 1].handle]
  }

  /** AddRow on values: rejected, with nothing changed, when a full row of
      another width exists; otherwise one more row of n empty tiles. */
  function AddedRow(b: Board, n: nat): Board
  {
    if b.cols > 0 && b.cols != n then b
    else b.(tiles := b.tiles + [EmptyRow(n)], rows := b.rows + 1, cols := n)
  }

  /** AddElement(row, col, e) on values: rejected, with nothing changed,
      outside the maze; otherwise e goes on top of that one tile. */
  function Pushed(b: Board, row: int, col: int, e: GameObject): Board
  {
    if 0 <= row < b.rows && 0 <= col < b.cols && InGrid(b.tiles, Pos(col, row)) then
      b.(tiles := SetAt(b.tiles, Pos(col, row), At(b.tiles, Pos(col, row)) + [e]))
    else b
  }

  /** The reverse loop of the 'G' case: hs[|hs| - 1] is pushed first and
      hs[i] last. */
  function PushedFrom(b: Board, row: int, col: int, hs: seq<GameObject>, i: nat): Board
    requires i <= |hs|
    decreases |hs| - i
  {
    if i == |hs| then b else Pushed(PushedFrom(b, row, col, hs, i + 1), row, col, hs[i])
  }

  /** The 'G' case: n new enemies, the tile as their home, and every enemy
      so far pushed onto it, the last one first. */
  function SpawnStep(b: Board, row: int, col: int, n: int): Board
  {
    var b2 := Hatched(b, row, col, n);
    PushedFrom(b2, row, col, Handles(b2.enemies), 0)
  }

  /** The board once the n ghosts of a 'G' exist and (col, row) is their
      home, before any of them is placed. */
  function Hatched(b: Board, row: int, col: int, n: int): Board
  {
    var more := Spawns(b.nextId, n);
    b.(enemies := b.enemies + more, nextId := b.nextId + |more|, home := Some(Pos(col, row)))
  }

  /** One character of row `row`, column `col`, with n enemies per 'G'. */
  function CellStep(b: Board, row: int, col: int, c: char, n: int): Board
  {
    var id := b.nextId;
    var b1 := b.(nextId := id + 1);
    match SymbolOf(c)
    case WallSymbol(base) =>
      var b2 := if base.Some? then b1.(bases := b1.bases[base.value := Pos(col, row)]) else b1;
      Pushed(b2, row, col, WallObject(id, InitWall(col, row)))
    case BarsSymbol => Pushed(b1, row, col, BarsObject(id, InitBars(col, row)))
    case PlayerSymbol => Pushed(b1.(player := Some(PacmanObject(id))), row, col, PacmanObject(id))
    case SpawnSymbol => SpawnStep(b, row, col, n)
    case PelletSymbol(isPowerful) => Pushed(b1, row, col, PelletObject(id, InitPellet(col, row, isPowerful)))
    case NoSymbol => b
  }

  /** The first k characters of a line. */
  function Cells(b: Board, row: int, line: string, k: nat, n: int): Board
    requires k <= |line|
  {
    if k == 0 then b else CellStep(Cells(b, row, line, k - 1, n), row, k - 1, line[k - 1], n)
  }

  /** The first k lines: each adds its row, then places its characters. */
  function Rows(b: Board, lines: seq<string>, k: nat, n: int): Board
    requires k <= |lines|
  {
    if k == 0 then b
    else
      var line := lines[k - 1];
      Cells(AddedRow(Rows(b, lines, k - 1, n), |line|), k - 1, line, |line|, n)
  }

  /** The level parseLevel builds from `lines`, starting from the level's
      context b with a fresh, empty maze. */
  function Parsed(b: Board, lines: seq<string>, n: int): Board
  {
    Rows(b.(tiles := [], rows := 0, cols := 0), lines, |lines|, n)
  }

  /** Row `row` is the one being parsed: the maze has at most that row,
      and if it has it, the row is full. */
  predicate Fits(tiles: Tiles, rows: int, cols: int, row: int)
  {
    && 0 <= row && rows <= row + 1
    && (rows == row + 1 ==> row < |tiles| && |tiles[row]| == cols)
  }

  /** No rows and no columns, or every row exists and holds `cols` tiles:
      the shape of a maze whose rows all had the same width. */
  predicate Shaped(b: Board)
  {
    b.rows == |b.tiles| && b.cols >= 0 && RowsOfWidth(b.tiles, b.cols)
  }

  /** What parsing a cell never changes: the number of rows and columns,
      and the width of every row. */
  lemma {:induction false} CellStepKeepsShape(b: Board, row: int, col: int, c: char, n: int)
    ensures var r := CellStep(b, row, col, c, n);
      r.rows == b.rows && r.cols == b.cols && SameShape(r.tiles, b.tiles)
  {
    match SymbolOf(c)
    case SpawnSymbol =>
      var b2 := Hatched(b, row, col, n);
      PushedFromKeepsShape(b2, row, col, Handles(b2.enemies), 0);
    case _ =>
  }

  lemma {:induction false} PushedFromKeepsShape(b: Board, row: int, col: int, hs: seq<GameObject>, i: nat)
    requires i <= |hs|
    ensures var r := PushedFrom(b, row, col, hs, i);
      r == b.(tiles := r.tiles) && SameShape(r.tiles, b.tiles)
    decreases |hs| - i
  {
    if i < |hs| {
      PushedFromKeepsShape(b, row, col, hs, i + 1);
    }
  }

  lemma {:induction false} CellsKeepShape(b: Board, row: int, line: string, k: nat, n: int)
    requires k <= |line|
    ensures var r := Cells(b, row, line, k, n);
      r.rows == b.rows && r.cols == b.cols && SameShape(r.tiles, b.tiles)
  {
    if k > 0 {
      var prev := Cells(b, row, line, k - 1, n);
      CellsKeepShape(b, row, line, k - 1, n);
      CellStepKeepsShape(prev, row, k - 1, line[k - 1], n);
      assert Cells(b, row, line, k, n) == CellStep(prev, row, k - 1, line[k - 1], n);
    }
  }

  /** When every line has the same positive width w, the maze gets one row
      of w tiles per line. */
  lemma {:induction false} EvenLinesMakeFullMaze(b: Board, lines: seq<string>, k: nat, n: int, w: nat)
    requires k <= |lines| && w > 0
    requires forall i :: 0 <= i < |lines| ==> |lines[i]| == w
    ensures var r := Rows(b.(tiles := [], rows := 0, cols := 0), lines, k, n);
      Shaped(r) && r.rows == k && (k > 0 ==> r.cols == w)
  {
    if k > 0 {
      var b0 := b.(tiles := [], rows := 0, cols := 0);
      EvenLinesMakeFullMaze(b, lines, k - 1, n, w);
      var prev := Rows(b0, lines, k - 1, n);
      var added := AddedRow(prev, w);
      CellsKeepShape(added, k - 1, lines[k - 1], w, n);
      var r := Rows(b0, lines, k, n);
      assert RowsOfWidth(added.tiles, w) by {
        forall i | 0 <= i < |added.tiles| ensures |added.tiles[i]| == w {
          if i < |prev.tiles| { assert added.tiles[i] == prev.tiles[i]; }
        }
      }
      SameShapeKeepsWidth(r.tiles, added.tiles, w);
    }
  }

  /** A line whose width differs from the width already established adds
      no row: AddRow's error is dropped and its characters land nowhere. */
  lemma {:induction false} RaggedLineDropped(b: Board, lines: seq<string>, k: nat, n: int)
    requires 0 < k <= |lines|
    requires var prev := Rows(b, lines, k - 1, n);
      prev.cols > 0 && prev.cols != |lines[k - 1]| && prev.rows <= k - 1
    ensures var prev := Rows(b, lines, k - 1, n);
      var r := Rows(b, lines, k, n);
      r.rows == prev.rows && r.cols == prev.cols && r.tiles == prev.tiles
  {
    var prev := Rows(b, lines, k - 1, n);
    var line := lines[k - 1];
    CellsKeepShape(prev, k - 1, line, |line|, n);
    CellsUnplaced(prev, k - 1, line, |line|, n);
  }

  /** Characters of a row the maze does not have change no tile. */
  lemma {:induction false} CellsUnplaced(b: Board, row: int, line: string, k: nat, n: int)
    requires k <= |line| && b.rows <= row
    ensures Cells(b, row, line, k, n).tiles == b.tiles
  {
    if k > 0 {
      var prev := Cells(b, row, line, k - 1, n);
      CellsUnplaced(b, row, line, k - 1, n);
      CellsKeepShape(b, row, line, k - 1, n);
      CellStepUnplaced(prev, row, k - 1, line[k - 1], n);
      assert Cells(b, row, line, k, n) == CellStep(prev, row, k - 1, line[k - 1], n);
    }
  }

  lemma {:induction false} CellStepUnplaced(b: Board, row: int, col: int, c: char, n: int)
    requires b.rows <= row
    ensures var r := CellStep(b, row, col, c, n);
      r.rows == b.rows && r.tiles == b.tiles
  {
    match SymbolOf(c)
    case SpawnSymbol =>
      var b2 := Hatched(b, row, col, n);
      PushedFromUnplaced(b2, row, col, Handles(b2.enemies), 0);
    case _ =>
  }

  lemma {:induction false} PushedFromUnplaced(b: Board, row: int, col: int, hs: seq<GameObject>, i: nat)
    requires i <= |hs| && b.rows <= row
    ensures var r := PushedFrom(b, row, col, hs, i);
      r.rows == b.rows && r.tiles == b.tiles
    decreases |hs| - i
  {
    if i < |hs| {
      PushedFromUnplaced(b, row, col, hs, i + 1);
    }
  }

  /** On a tile of the maze, the reverse loop stacks hs[|hs| - 1] first,
      so that hs[i] ends on top; the other tiles are untouched. */
  lemma {:induction false} PushedFromStacks(b: Board, row: int, col: int, hs: seq<GameObject>, i: nat)
    requires i <= |hs|
    requires 0 <= row < b.rows && 0 <= col < b.cols && InGrid(b.tiles, Pos(col, row))
    ensures var r := PushedFrom(b, row, col, hs, i);
      && InGrid(r.tiles, Pos(col, row))
      && At(r.tiles, Pos(col, row)) == At(b.tiles, Pos(col, row)) + Reversed(hs[i..])
      && forall q :: InGrid(b.tiles, q) && q != Pos(col, row) ==> InGrid(r.tiles, q) && At(r.tiles, q) == At(b.tiles, q)
    decreases |hs| - i
  {
    var p := Pos(col, row);
    if i < |hs| {
      PushedFromStacks(b, row, col, hs, i + 1);
      PushedFromKeepsShape(b, row, col, hs, i + 1);
      var mid := PushedFrom(b, row, col, hs, i + 1);
      assert hs[i..] == [hs[i]] + hs[i + 1..];
      assert Reversed(hs[i..]) == Reversed(hs[i + 1..]) + [hs[i]];
      var r := PushedFrom(b, row, col, hs, i);
      assert r.tiles == SetAt(mid.tiles, p, At(mid.tiles, p) + [hs[i]]);
    } else {
      assert hs[i..] == [];
    }
  }

  /** The elements of s from last to first. */
  function Reversed(s: seq<GameObject>): (r: seq<GameObject>)
    ensures |r| == |s|
  {
    if s == [] then [] else Reversed(s[1..]) + [s[0]]
  }

  /** A 'G' on a tile of the maze puts every enemy created so far on the
      tile, the first one on top: the earliest ghost (red on a first 'G')
      is painted over the others. */
  lemma SpawnPutsFirstOnTop(b: Board, row: int, col: int, n: int)
    requires n > 0
    requires 0 <= row < b.rows && 0 <= col < b.cols && InGrid(b.tiles, Pos(col, row))
    ensures var r := CellStep(b, row, col, 'G', n);
      && |r.enemies| == |b.enemies| + n && r.home == Some(Pos(col, row))
      && InGrid(r.tiles, Pos(col, row))
      && At(r.tiles, Pos(col, row)) == At(b.tiles, Pos(col, row)) + Reversed(Handles(r.enemies))
      && Top(At(r.tiles, Pos(col, row))) == Some(r.enemies[0].handle)
  {
    var b2 := Hatched(b, row, col, n);
    var hs := Handles(b2.enemies);
    assert SymbolOf('G') == SpawnSymbol;
    assert CellStep(b, row, col, 'G', n) == PushedFrom(b2, row, col, hs, 0);
    PushedFromKeepsShape(b2, row, col, hs, 0);
    PushedFromStacks(b2, row, col, hs, 0);
    assert hs[0..] == hs;
    ReversedLast(hs);
  }

  lemma {:induction false} ReversedLast(s: seq<GameObject>)
    requires s != []
    ensures Reversed(s)[|s| - 1] == s[0]
  {
  }

  /** The ghosts of one 'G' cycle through Blinky, Pinky, Inky and Clyde,
      each idling one spawn interval longer than the one before. */
  lemma SpawnsCycle(firstId: nat, n: int)
    ensures var r := Spawns(firstId, n);
      && (n > 0 ==> r[0].kind == Blinky && r[0].idleTime == 0.0)
      && (n > 1 ==> r[1].kind == Pinky) && (n > 2 ==> r[2].kind == Inky) && (n > 3 ==> r[3].kind == Clyde)
      && (forall i :: 0 <= i < |r| - 4 ==> r[i + 4].kind == r[i].kind)
      && (forall i :: 0 <= i < |r| - 1 ==> r[i + 1].idleTime == r[i].idleTime + TimeBetweenSpawns as real)
      && (forall i :: 0 <= i < |r| ==> r[i].handle == GhostObject(firstId + i))
  {
    var r := Spawns(firstId, n);
    forall i | 0 <= i < |r| - 4 ensures r[i + 4].kind == r[i].kind {
      assert (i + 4) % 4 == i % 4;
    }
  }
}
