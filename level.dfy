/** The level screen of src/screens/level.go: NewLevel's enemy-count
    checks, parseLevel run on a real maze, and the handlers of Run's event
    loop. The game context's maze, ghost bases, ghost home and main player
    are fields of the level here; `log` stands for the sound player and
    the background sound. */
module Screens {
  import opened Constants
  import opened Geometry
  import opened Occupants
  import opened Wrappers
  import opened MathUtil
  import opened Grid
  import opened Events
  import opened LevelLayout
  import opened Models
  import GS = GhostStates
  import SM = StructuresMaze

  /** The sirenSounds list of Run, one siren per chase phase. */
  const Sirens: seq<SoundEffect> := [GhostSirenPhase1, GhostSirenPhase2, GhostSirenPhase3, GhostSirenPhase4]

  /** NewLevel's checks on the number of enemies, made before anything is
      parsed. MaxGhostsAllowed is 8. */
  function EnemyCountError(numEnemies: int): (r: Option<string>)
    ensures r.None? <==> 0 < numEnemies <= MaxGhostsAllowed
    ensures numEnemies <= 0 ==> r == Some("At least one enemy must be spawned")
    ensures numEnemies > MaxGhostsAllowed ==> r == Some("Cannot instantiate more than 8 enemies")
  {
    if numEnemies <= 0 then Some("At least one enemy must be spawned")
    else if numEnemies > MaxGhostsAllowed then Some("Cannot instantiate more than 8 enemies")
    else None
  }

  /** The enemies as values. */
  function Roster(gs: seq<Ghost>): (r: seq<Spawned>)
    ensures |r| == |gs|
    ensures forall k :: 0 <= k < |gs| ==> r[k] == Spawned(gs[k].kind, gs[k].idleStateTime, gs[k].handle)
  {
    if gs == [] then [] else Roster(gs[..|gs| - 1]) + [Spawned(gs[|gs| - 1].kind, gs[|gs| - 1].idleStateTime, gs[|gs| - 1].handle)]
  }

  /** No ghost appears twice in gs. */
  predicate DistinctGhosts(gs: seq<Ghost>)
  {
    forall i, j :: 0 <= i < j < |gs| ==> gs[i] != gs[j]
  }

  /** The audio calls of PowerPelletEaten reaching every ghost of gs in
      turn. */
  ghost function FrightLog(gs: seq<Ghost>): seq<Event>
    reads set k | 0 <= k < |gs| :: gs[k]
    requires forall k :: 0 <= k < |gs| ==> gs[k].state.Some?
  {
    if gs == [] then [] else FrightLog(gs[..|gs| - 1]) + GS.ChangeLog(gs[|gs| - 1].state.value, PowerPelletEaten)
  }

  class Level {
    var phase: int
    var maze: SM.Maze
    var player: Option<Pacman>
    var enemies: seq<Ghost>
    var ghostBases: map<GhostType, Pos>
    var ghostHome: Option<Pos>
    /** The id the model gives to the next occupant it creates. */
    var nextId: nat
    const log: EventLog

    /** The level as a value. */
    ghost function Snapshot(): Board
      reads this, maze
    {
      Board(maze.tiles, maze.rows, maze.cols, ghostBases, ghostHome,
            if player.Some? then Some(player.value.handle) else None, Roster(enemies), nextId)
    }

    /** The maze is well formed and row `row` is the one being filled. */
    ghost predicate Ready(row: int)
      reads this, maze, maze.Repr
    {
      maze.Valid() && Fits(maze.tiles, maze.rows, maze.cols, row)
    }

    /** The Level literal of NewLevel: phase 0, no enemies, no ghost bases,
        and (until parseLevel makes one) an empty maze. */
    constructor (log: EventLog)
      ensures phase == 0 && enemies == [] && player.None? && ghostBases == map[] && ghostHome.None?
      ensures nextId == 0 && this.log == log && maze.Valid()
    {
      phase := 0;
      maze := new SM.Maze();
      player := None;
      enemies := [];
      ghostBases := map[];
      ghostHome := None;
      nextId := 0;
      this.log := log;
    }

    /** NewLevel: the enemy-count checks, then a level parsed from `lines`
        (the lines of the level file). */
    static method NewLevel(lines: seq<string>, numEnemies: int, log: EventLog) returns (l: Level?, err: Option<string>)
      ensures err == EnemyCountError(numEnemies)
      ensures err.Some? ==> l == null
      ensures err.None? ==>
        && l != null && fresh(l) && fresh(l.maze) && l.maze.Valid() && l.phase == 0 && l.log == log
        && l.Snapshot() == Parsed(Board([], 0, 0, map[], None, None, [], 0), lines, numEnemies)
    {
      err := EnemyCountError(numEnemies);
      if err.Some? {
        return null, err;
      }
      l := new Level(log);
      l.ParseLevel(lines, numEnemies);
    }

    /** parseLevel, for a file that opens: a new maze, then for every line
        a row as wide as the line (dropped when AddRow refuses it) and the
        occupant of every character. */
    method ParseLevel(lines: seq<string>, numEnemies: int)
      modifies this
      ensures fresh(maze) && maze.Valid() && phase == old(phase)
      ensures Snapshot() == Parsed(old(Snapshot()), lines, numEnemies)
    {
      ghost var start := Snapshot().(tiles := [], rows := 0, cols := 0);
      maze := new SM.Maze();
      ParseRows(lines, numEnemies, start);
    }

    /** The loop of parseLevel over the lines of the file, on a maze with
        no rows yet. */
    method ParseRows(lines: seq<string>, n: int, ghost start: Board)
      requires maze.Valid() && maze.rows == 0 && Snapshot() == start
      modifies this, maze, maze.Repr
      ensures maze == old(maze) && maze.Valid() && phase == old(phase)
      ensures fresh(maze.Repr - old(maze.Repr))
      ensures Snapshot() == Rows(start, lines, |lines|, n)
    {
      var row := 0;
      while row < |lines|
        invariant 0 <= row <= |lines|
        invariant maze == old(maze) && fresh(maze.Repr - old(maze.Repr)) && maze.Valid() && maze.rows <= row
        invariant phase == old(phase)
        invariant Snapshot() == Rows(start, lines, row, n)
      {
        ParseRow(lines, row, n, start);
        row := row + 1;
      }
    }

    /** Line `row` of the file: its row, then its characters, after the
        lines before it. */
    method ParseRow(lines: seq<string>, row: nat, n: int, ghost start: Board)
      requires row < |lines| && maze.Valid() && maze.rows <= row
      requires Snapshot() == Rows(start, lines, row, n)
      modifies this, maze, maze.Repr
      ensures maze == old(maze) && maze.Valid() && maze.rows <= row + 1 && phase == old(phase)
      ensures fresh(maze.Repr - old(maze.Repr))
      ensures Snapshot() == Rows(start, lines, row + 1, n)
    {
      var line := lines[row];
      ghost var before := Snapshot();
      var _ := maze.AddRow(|line|);
      assert Snapshot() == AddedRow(before, |line|);
      ParseLine(row, line, n);
    }

    /** The characters of one line, placed left to right onto row `row`. */
    method ParseLine(row: int, line: string, n: int)
      requires Ready(row)
      modifies this, maze, maze.Repr
      ensures maze == old(maze) && maze.Repr == old(maze.Repr) && Ready(row) && phase == old(phase)
      ensures Snapshot() == Cells(old(Snapshot()), row, line, |line|, n)
    {
      ghost var before := Snapshot();
      var col := 0;
      while col < |line|
        invariant 0 <= col <= |line|
        invariant maze == old(maze) && maze.Repr == old(maze.Repr) && Ready(row) && phase == old(phase)
        invariant Snapshot() == Cells(before, row, line, col, n)
      {
        PlaceNext(row, line, col, n, before);
        col := col + 1;
      }
    }

    /** The character at `col`, placed after those before it. */
    method PlaceNext(row: int, line: string, col: nat, n: int, ghost before: Board)
      requires col < |line| && Ready(row)
      requires Snapshot() == Cells(before, row, line, col, n)
      modifies this, maze, maze.Repr
      ensures maze == old(maze) && maze.Repr == old(maze.Repr) && Ready(row) && phase == old(phase)
      ensures Snapshot() == Cells(before, row, line, col + 1, n)
    {
      PlaceCell(row, col, line[col], n);
      assert Cells(before, row, line, col + 1, n) == CellStep(Cells(before, row, line, col, n), row, col, line[col], n);
    }

    /** The switch of parseLevel for the character c at (col, row). */
    method PlaceCell(row: int, col: int, c: char, n: int)
      requires Ready(row)
      modifies this, maze, maze.Repr
      ensures maze == old(maze) && maze.Valid() && maze.Repr == old(maze.Repr) && Fits(maze.tiles, maze.rows, maze.cols, row)
      ensures phase == old(phase)
      ensures Snapshot() == CellStep(old(Snapshot()), row, col, c, n)
    {
      match SymbolOf(c)
      case WallSymbol(base) =>
        PlaceWall(row, col, base);
      case BarsSymbol =>
        PlaceFixed(row, col, BarsObject(nextId, InitBars(col, row)));
      case PlayerSymbol =>
        PlacePlayer(row, col);
      case SpawnSymbol =>
        Spawn(row, col, n);
      case PelletSymbol(isPowerful) =>
        PlaceFixed(row, col, PelletObject(nextId, InitPellet(col, row, isPowerful)));
      case NoSymbol =>
    }

    /** A wall at (col, row), and the ghost base it records, if any. */
    method PlaceWall(row: int, col: int, base: Option<GhostType>)
      requires Ready(row)
      modifies this, maze, maze.Repr
      ensures maze == old(maze) && maze.Valid() && maze.Repr == old(maze.Repr) && Fits(maze.tiles, maze.rows, maze.cols, row)
      ensures phase == old(phase)
      ensures var b := old(Snapshot());
        var b2 := if base.Some? then b.(bases := b.bases[base.value := Pos(col, row)]) else b;
        Snapshot() == Pushed(b2.(nextId := b.nextId + 1), row, col, WallObject(b.nextId, InitWall(col, row)))
      ensures enemies == old(enemies)
    {
      if base.Some? {
        ghostBases := ghostBases[base.value := Pos(col, row)];
      }
      PlaceFixed(row, col, WallObject(nextId, InitWall(col, row)));
    }

    /** The player, created at (col, row), becomes the main player. */
    method PlacePlayer(row: int, col: int)
      requires Ready(row)
      modifies this, maze, maze.Repr
      ensures maze == old(maze) && maze.Valid() && maze.Repr == old(maze.Repr) && Fits(maze.tiles, maze.rows, maze.cols, row)
      ensures phase == old(phase)
      ensures var b := old(Snapshot());
        Snapshot() == Pushed(b.(player := Some(PacmanObject(b.nextId)), nextId := b.nextId + 1), row, col,
                             PacmanObject(b.nextId))
      ensures fresh(player.value) && player.value.position.Value() == Pos(col, row)
      ensures enemies == old(enemies)
    {
      var p := new Pacman(col, row, nextId);
      player := Some(p);
      PlaceFixed(row, col, p.handle);
    }

    /** A new occupant e, named by the next id, pushed onto (col, row). */
    method PlaceFixed(row: int, col: int, e: GameObject)
      requires Ready(row)
      modifies this, maze, maze.Repr
      ensures maze == old(maze) && maze.Valid() && maze.Repr == old(maze.Repr) && Fits(maze.tiles, maze.rows, maze.cols, row)
      ensures phase == old(phase)
      ensures Snapshot() == Pushed(old(Snapshot()).(nextId := old(nextId) + 1), row, col, e)
      ensures enemies == old(enemies) && player == old(player)
    {
      nextId := nextId + 1;
      Put(row, col, e);
    }

    /** Maze.AddElement(row, col, e), its error dropped. */
    method Put(row: int, col: int, e: GameObject)
      requires Ready(row)
      modifies maze, maze.Repr
      ensures maze.Valid() && maze.Repr == old(maze.Repr) && Fits(maze.tiles, maze.rows, maze.cols, row)
      ensures Snapshot() == Pushed(old(Snapshot()), row, col, e)
    {
      var _ := maze.AddElement(row, col, e);
    }

    /** The 'G' case: n new ghosts join the enemies, the tile becomes the
        ghosts' home, and every enemy so far is pushed onto it, the last
        one first. */
    method Spawn(row: int, col: int, n: int)
      requires Ready(row)
      modifies this, maze, maze.Repr
      ensures maze == old(maze) && maze.Valid() && maze.Repr == old(maze.Repr) && Fits(maze.tiles, maze.rows, maze.cols, row)
      ensures phase == old(phase)
      ensures Snapshot() == SpawnStep(old(Snapshot()), row, col, n)
      ensures |enemies| >= |old(enemies)| && enemies[..|old(enemies)|] == old(enemies)
      ensures forall k :: |old(enemies)| <= k < |enemies| ==> fresh(enemies[k])
      ensures forall k :: |old(enemies)| <= k < |enemies| ==> enemies[k].position.Value() == Pos(col, row)
    {
      Hatch(row, col, n);
      ghost var hatched := enemies;
      PushEnemies(row, col);
      assert enemies == hatched;
    }

    /** The creation loop of the 'G' case, InitGhost for i = 0 .. n - 1,
        and the new ghost home. */
    method Hatch(row: int, col: int, n: int)
      modifies this`enemies, this`nextId, this`ghostHome
      ensures Snapshot() == Hatched(old(Snapshot()), row, col, n)
      ensures |enemies| >= |old(enemies)| && enemies[..|old(enemies)|] == old(enemies)
      ensures forall k :: |old(enemies)| <= k < |enemies| ==> fresh(enemies[k])
      ensures forall k :: |old(enemies)| <= k < |enemies| ==> enemies[k].position.Value() == Pos(col, row)
    {
      CreateGhosts(row, col, n);
      ghostHome := Some(Pos(col, row));
    }

    /** The creation loop alone. */
    method CreateGhosts(row: int, col: int, n: int)
      modifies this`enemies, this`nextId
      ensures Roster(enemies) == old(Roster(enemies)) + Spawns(old(nextId), n)
      ensures nextId == old(nextId) + |Spawns(old(nextId), n)|
      ensures |enemies| >= |old(enemies)| && enemies[..|old(enemies)|] == old(enemies)
      ensures forall k :: |old(enemies)| <= k < |enemies| ==> fresh(enemies[k]) && enemies[k].state.None?
      ensures forall k :: |old(enemies)| <= k < |enemies| ==> enemies[k].position.Value() == Pos(col, row)
    {
      ghost var more := Spawns(nextId, n);
      ghost var e0 := enemies;
      var i := 0;
      while i < n
        invariant 0 <= i <= |more| && nextId == old(nextId) + i
        invariant |enemies| == |e0| + i && enemies[..|e0|] == e0
        invariant forall k :: |e0| <= k < |enemies| ==>
          Spawned(enemies[k].kind, enemies[k].idleStateTime, enemies[k].handle) == more[k - |e0|]
        invariant forall k :: |e0| <= k < |enemies| ==>
          fresh(enemies[k]) && enemies[k].state.None? && enemies[k].position.Value() == Pos(col, row)
      {
        ghost var prev := enemies;
        var g := NewGhost(row, col, i);
        assert enemies[..|e0|] == prev[..|e0|];
        i := i + 1;
      }
      assert Roster(enemies) == Roster(e0) + more by {
        assert forall k :: 0 <= k < |e0| ==> enemies[k] == e0[k];
      }
    }

    /** Iteration i of the creation loop: InitGhost at (col, row), idle
        for i spawn intervals, of the i-th kind modulo 4, named by the next
        id. */
    method NewGhost(row: int, col: int, i: int) returns (g: Ghost)
      modifies this`enemies, this`nextId
      ensures fresh(g) && g.state.None? && g.position.Value() == Pos(col, row)
      ensures g.kind == AllGhosts[i % 4] && g.idleStateTime == (i * TimeBetweenSpawns) as real
      ensures g.handle == GhostObject(old(nextId))
      ensures enemies == old(enemies) + [g] && nextId == old(nextId) + 1
    {
      g := new Ghost(col, row, (i * TimeBetweenSpawns) as real, AllGhosts[i % 4], nextId);
      enemies := enemies + [g];
      nextId := nextId + 1;
    }

    /** The reverse loop of the 'G' case: every enemy onto (col, row), the
        last one first. */
    method PushEnemies(row: int, col: int)
      requires Ready(row)
      modifies maze, maze.Repr
      ensures maze.Valid() && maze.Repr == old(maze.Repr) && Fits(maze.tiles, maze.rows, maze.cols, row)
      ensures Snapshot() == PushedFrom(old(Snapshot()), row, col, Handles(old(Snapshot()).enemies), 0)
    {
      ghost var b := Snapshot();
      ghost var hs := Handles(b.enemies);
      var k := |enemies|;
      while k > 0
        invariant 0 <= k <= |enemies| == |hs|
        invariant maze.Valid() && maze.Repr == old(maze.Repr) && Fits(maze.tiles, maze.rows, maze.cols, row)
        invariant Snapshot() == PushedFrom(b, row, col, hs, k)
      {
        k := k - 1;
        Put(row, col, enemies[k].handle);
      }
    }

    /** The start of Run: the siren of the current phase plays on loop. */
    method StartSiren()
      requires 0 <= phase < |Sirens|
      modifies log
      ensures log.events == old(log.events) + [LoopStarted(Sirens[phase])]
    {
      log.Send(LoopStarted(Sirens[phase]));
    }

    /** A PhaseChange message: only a later phase is adopted, with its
        siren (the phase modulo 4, as Go's remainder) in the background. */
    method OnPhaseChange(newPhase: int)
      requires newPhase > phase ==> GoRem(newPhase, |Sirens|) >= 0
      modifies this`phase, log
      ensures phase == (if newPhase > old(phase) then newPhase else old(phase))
      ensures phase >= old(phase)
      ensures log.events == old(log.events)
        + (if newPhase > old(phase) then [BackgroundReplaced(Sirens[GoRem(newPhase, |Sirens|)], false)] else [])
    {
      if newPhase > phase {
        log.Send(BackgroundReplaced(Sirens[GoRem(newPhase, |Sirens|)], false));
        phase := newPhase;
      }
    }

    /** An EatPellet message: a power pellet switches the background to
        the power-pellet sound and sends PowerPelletEaten to every enemy,
        in order; an ordinary one changes nothing. */
    method OnEatPellet(isPowerful: bool, now: real)
      requires forall k :: 0 <= k < |enemies| ==> enemies[k].state.Some?
      requires DistinctGhosts(enemies)
      modifies log, (set k | 0 <= k < |enemies| :: enemies[k])`state, (set k | 0 <= k < |enemies| :: enemies[k])`speed
      ensures forall k :: 0 <= k < |enemies| ==>
        && enemies[k].state == (if isPowerful then Some(GS.NextState(old(enemies[k].state).value, PowerPelletEaten,
                                                                      old(enemies[k].direction), now))
                                else old(enemies[k].state))
        && enemies[k].speed == (if isPowerful then GS.NextSpeed(old(enemies[k].state).value, PowerPelletEaten,
                                                                 old(enemies[k].speed))
                                else old(enemies[k].speed))
      ensures log.events == old(log.events)
        + (if isPowerful then [BackgroundReplaced(PowerPellet, true)] + old(FrightLog(enemies)) else [])
    {
      if isPowerful {
        log.Send(BackgroundReplaced(PowerPellet, true));
        Frighten(enemies, now, log);
      }
    }

    /** The loop of the EatPellet case: PowerPelletEaten to every ghost of
        gs, in order. */
    static method Frighten(gs: seq<Ghost>, now: real, log: EventLog)
      requires forall k :: 0 <= k < |gs| ==> gs[k].state.Some?
      requires DistinctGhosts(gs)
      modifies log, (set k | 0 <= k < |gs| :: gs[k])`state, (set k | 0 <= k < |gs| :: gs[k])`speed
      ensures forall k :: 0 <= k < |gs| ==>
        && gs[k].state == Some(GS.NextState(old(gs[k].state).value, PowerPelletEaten, old(gs[k].direction), now))
        && gs[k].speed == GS.NextSpeed(old(gs[k].state).value, PowerPelletEaten, old(gs[k].speed))
      ensures log.events == old(log.events) + old(FrightLog(gs))
    {
      var i := 0;
      while i < |gs|
        invariant 0 <= i <= |gs|
        invariant forall k :: 0 <= k < |gs| ==> gs[k].state.Some?
        invariant forall k :: 0 <= k < i ==>
          && gs[k].state == Some(GS.NextState(old(gs[k].state).value, PowerPelletEaten, old(gs[k].direction), now))
          && gs[k].speed == GS.NextSpeed(old(gs[k].state).value, PowerPelletEaten, old(gs[k].speed))
        invariant forall k :: i <= k < |gs| ==> gs[k].state == old(gs[k].state) && gs[k].speed == old(gs[k].speed)
        invariant log.events == old(log.events) + old(FrightLog(gs[..i]))
      {
        assert gs[..i + 1][..i] == gs[..i];
        gs[i].ChangeState(PowerPelletEaten, now, log);
        i := i + 1;
      }
      assert gs[..i] == gs;
    }

    /** A PowerPelletWoreOff message: the siren of the current phase comes
        back. */
    method OnPowerPelletWoreOff()
      requires GoRem(phase, |Sirens|) >= 0
      modifies log
      ensures log.events == old(log.events) + [BackgroundReplaced(Sirens[GoRem(phase, |Sirens|)], true)]
    {
      log.Send(BackgroundReplaced(Sirens[GoRem(phase, |Sirens|)], true));
    }
  }
}
