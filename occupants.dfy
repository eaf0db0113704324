/** What can stand on a tile: the capability flags of src/models/wall.go,
    src/models/bars.go and src/models/pellet.go, and a closed variant over
    every kind of occupant. */
module Occupants {
  import opened Constants
  import opened Geometry

  /** A wall: never moves, blocks every mover. */
  datatype Wall = Wall(position: Pos)
  {
    function GetDirection(): Direction { DirStatic }
    predicate IsMatrixEditable() { false }
    predicate IsUnmovable() { true }
    function GetLayerIndex(): int { WallLayerIdx }
  }

  /** Bars: the gate of the ghost house. */
  datatype Bars = Bars(position: Pos)
  {
    function GetDirection(): Direction { DirStatic }
    predicate IsMatrixEditable() { false }
    predicate CanGhostsGoThrough() { true }
    function GetLayerIndex(): int { BarsLayerIdx }
  }

  /** A pellet, ordinary or powerful. */
  datatype Pellet = Pellet(position: Pos, isPowerful: bool)
  {
    function GetDirection(): Direction { DirStatic }
    predicate IsMatrixEditable() { false }
    predicate IsUnmovable() { false }
    function GetLayerIndex(): int { PelletLayerIdx }
  }

  function InitWall(x: int, y: int): (w: Wall)
    ensures w.position.x == x && w.position.y == y
  {
    Wall(Pos(x, y))
  }

  function InitBars(x: int, y: int): (b: Bars)
    ensures b.position.x == x && b.position.y == y
  {
    Bars(Pos(x, y))
  }

  function InitPellet(x: int, y: int, isPowerful: bool): (p: Pellet)
    ensures p.position.x == x && p.position.y == y && p.isPowerful == isPowerful
  {
    Pellet(Pos(x, y), isPowerful)
  }

  /** A handle to an occupant of a tile. Two handles are the same occupant
      exactly when they are equal; walls, bars and pellets carry their
      immutable data, while the player and the ghosts are objects of their
      own (see module Models) represented here by their id. */
  datatype GameObject =
    | WallObject(id: nat, wall: Wall)
    | BarsObject(id: nat, bars: Bars)
    | PelletObject(id: nat, pellet: Pellet)
    | PacmanObject(id: nat)
    | GhostObject(id: nat)
  {
    /** Only walls and pellets declare IsUnmovable; every other occupant is
        taken to be movable. */
    predicate IsUnmovable()
    {
      match this
      case WallObject(_, w) => w.IsUnmovable()
      case PelletObject(_, p) => p.IsUnmovable()
      case _ => false
    }
  }

  lemma WallCapabilities(w: Wall, x: int, y: int)
    ensures w.IsUnmovable() && !w.IsMatrixEditable()
    ensures w.GetLayerIndex() == WallLayerIdx && w.GetDirection() == DirStatic
    ensures InitWall(x, y).position == Pos(x, y)
  {
  }

  lemma BarsCapabilities(b: Bars, x: int, y: int)
    ensures b.CanGhostsGoThrough() && !b.IsMatrixEditable()
    ensures b.GetLayerIndex() == BarsLayerIdx && b.GetDirection() == DirStatic
    ensures InitBars(x, y).position == Pos(x, y)
  {
  }

  lemma PelletCapabilities(p: Pellet, x: int, y: int, isPowerful: bool)
    ensures !p.IsUnmovable() && !p.IsMatrixEditable()
    ensures p.GetLayerIndex() == PelletLayerIdx && p.GetDirection() == DirStatic
    ensures InitPellet(x, y, isPowerful) == Pellet(Pos(x, y), isPowerful)
  {
  }

  /** Of all occupants only a wall stops a mover. */
  lemma OnlyWallsAreUnmovable(o: GameObject)
    ensures o.IsUnmovable() <==> o.WallObject?
  {
  }
}
