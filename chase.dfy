/** The target tiles of the four chase behaviours of
    src/models/chaseBehavior.go. Each behaviour then turns its ghost
    towards the target (Models.Ghost.SwitchDirection*). */
module ChaseTargets {
  import opened Constants
  import opened Geometry
  import opened MathUtil
  import opened Wrappers
  import opened Grid

  /** Pinky aims three tiles ahead of the player, wrapping around the
      edges. */
  function PinkyTarget(player: Pos, facing: Direction, cols: int, rows: int): (t: Pos)
    requires cols > 0 && rows > 0
    ensures 0 <= t.x < cols && 0 <= t.y < rows
  {
    Pos(Mod(player.x + facing.X * 3, cols), Mod(player.y + facing.Y * 3, rows))
  }

  /** Inky aims three tiles behind the player, wrapping around the edges. */
  function InkyTarget(player: Pos, facing: Direction, cols: int, rows: int): (t: Pos)
    requires cols > 0 && rows > 0
    ensures 0 <= t.x < cols && 0 <= t.y < rows
  {
    Pos(Mod(player.x + facing.X * -3, cols), Mod(player.y + facing.Y * -3, rows))
  }

  /** Clyde wanders (no target) while closer than 3 tiles to the player,
      whatever its doc comment says about 5, and chases the player
      otherwise. Distances are squared, so the bound is 9. */
  function ClydeTarget(from: Pos, player: Pos): (t: Option<Pos>)
    ensures t.None? <==> DistanceTo(from, player) < 9
    ensures t.Some? ==> t.value == player
  {
    if DistanceTo(from, player) < 9 then None else Some(player)
  }

  /** A player standing still is its own Pinky and Inky target. */
  lemma StaticTargets(player: Pos, cols: int, rows: int)
    requires 0 <= player.x < cols && 0 <= player.y < rows
    ensures PinkyTarget(player, DirStatic, cols, rows) == player
    ensures InkyTarget(player, DirStatic, cols, rows) == player
  {
    ModOfResidue(player.x, cols);
    ModOfResidue(player.y, rows);
  }

  /** Inky's target is Pinky's for the reversed facing. */
  lemma InkyMirrorsPinky(player: Pos, facing: Direction, cols: int, rows: int)
    requires cols > 0 && rows > 0
    ensures InkyTarget(player, facing, cols, rows)
         == PinkyTarget(player, Direction(-facing.X, -facing.Y), cols, rows)
  {
  }

  /** Pinky's target is the tile three wrapped steps ahead of the player. */
  lemma {:induction false} PinkyThreeStepsAhead(player: Pos, facing: Direction, cols: int, rows: int)
    requires cols > 0 && rows > 0
    ensures var q1 := Destination(player, facing, cols, rows);
      var q2 := Destination(q1, facing, cols, rows);
      PinkyTarget(player, facing, cols, rows) == Destination(q2, facing, cols, rows)
  {
    var q1 := Destination(player, facing, cols, rows);
    var q2 := Destination(q1, facing, cols, rows);
    var q3 := Destination(q2, facing, cols, rows);
    var t := PinkyTarget(player, facing, cols, rows);
    ThreeSteps(player.x, facing.X, q1.x, q2.x, q3.x, cols);
    RemainderUnique(player.x + facing.X * 3, cols, q3.x, t.x);
    ThreeSteps(player.y, facing.Y, q1.y, q2.y, q3.y, rows);
    RemainderUnique(player.y + facing.Y * 3, rows, q3.y, t.y);
  }

  /** Three steps of size d modulo m add up to one step of size 3d. */
  lemma ThreeSteps(a: int, d: int, b1: int, b2: int, b3: int, m: int)
    requires m > 0
    requires (a + d - b1) % m == 0 && (b1 + d - b2) % m == 0 && (b2 + d - b3) % m == 0
    ensures (a + d * 3 - b3) % m == 0
  {
    SumOfMultiples(a + d - b1, b1 + d - b2, m);
    SumOfMultiples(a + d - b1 + (b1 + d - b2), b2 + d - b3, m);
    assert a + d * 3 - b3 == a + d - b1 + (b1 + d - b2) + (b2 + d - b3);
  }

  lemma SumOfMultiples(a: int, b: int, m: int)
    requires m != 0 && a % m == 0 && b % m == 0
    ensures (a + b) % m == 0
  {
    DivMod(a, m);
    DivMod(b, m);
    assert a + b == (a / m + b / m) * m;
    MultipleMod(a / m + b / m, m);
  }
}
