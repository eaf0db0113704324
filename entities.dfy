/** The movers of src/models: the ghosts (ghost.go, the Run of every state
    in ghostStates.go, the chase behaviours of chaseBehavior.go) and the
    player (pacman.go, the Walking tick of pacmanStates.go). One tick of a
    mover's loop is one call of its Run method; the game context is passed
    in piece by piece: the maze, the player, the event log standing for
    the sound player and the message channels, the ghosts' base, and the
    time `now` at which the tick runs. */
module Models {
  import opened Constants
  import opened Geometry
  import opened Occupants
  import opened Wrappers
  import opened MathUtil
  import opened TileStack
  import opened Grid
  import opened Events
  import opened Collision
  import opened ChaseTargets
  import opened GhostMoves
  import GS = GhostStates
  import PS = PacmanStates
  import SM = StructuresMaze

  class Ghost {
    var isAlive: bool
    /** None until Run enters Idle. */
    var state: Option<GS.GhostStateValue>
    const kind: GhostType
    const layerIndex: int
    var phase: int
    const position: Position
    var speed: int
    const idleStateTime: real
    var direction: Direction
    /** How many times advanceSprites has run; every sprite sequence of the
        ghost advances together. */
    var spriteTicks: nat
    /** The ghost as an occupant of the maze. */
    const handle: GameObject

    /** InitGhost, with `id` naming the new ghost on the board. */
    constructor (x: int, y: int, idleStateTime: real, ghostType: GhostType, id: nat)
      ensures isAlive && state.None? && kind == ghostType && layerIndex == GhostLayerIdx
      ensures phase == 0 && speed == DefaultGhostFPS && spriteTicks == 0
      ensures fresh(position) && position.Value() == Pos(x, y)
      ensures this.idleStateTime == idleStateTime && handle == GhostObject(id)
      ensures direction in PossibleDirections
    {
      isAlive := true;
      state := None;
      kind := ghostType;
      layerIndex := GhostLayerIdx;
      phase := 0;
      position := new Position(x, y);
      this.idleStateTime := idleStateTime;
      speed := DefaultGhostFPS;
      spriteTicks := 0;
      handle := GhostObject(id);
      var d := PickRandomDirection();
      direction := d;
    }

    /** pickRandomDirection: one of the four moves, chosen at random. */
    static method PickRandomDirection() returns (d: Direction)
      ensures d in PossibleDirections
    {
      assert DirUp in PossibleDirections;
      d :| d in PossibleDirections;
    }

    /** The maze is fit for a tick of this ghost. */
    ghost predicate OnBoard(maze: SM.Maze)
      reads position, maze, maze.Repr
    {
      maze.Valid() && maze.Rectangular() && InGrid(maze.tiles, position.Value())
    }

    /** The ghost's pose on the maze. */
    ghost function PoseOn(maze: SM.Maze): Pose
      reads this`direction, this`spriteTicks, maze, position
    {
      Pose(maze.tiles, position.Value(), direction, spriteTicks)
    }

    /** The first line of Run: the ghost enters Idle. */
    method Start(now: real)
      modifies this`state
      ensures state == Some(GS.Idle(now))
    {
      state := Some(GS.Idle(now));
    }

    /** turnTowards: asks the collision detector for the viable moves and
        sets the facing to TurnChoice's pick among them. */
    method TurnTowards(maze: SM.Maze, target: Option<Pos>, runAway: bool, blockReverse: bool)
      requires OnBoard(maze)
      modifies this`direction
      ensures OnBoard(maze) && PoseOn(maze) == old(PoseOn(maze)).(facing := direction)
      ensures TurnChoice(Viable(maze.tiles, maze.cols, maze.rows, position.Value(), old(direction), blockReverse),
                         old(direction), target, runAway, direction)
    {
      RectangularSurrounds(maze, position.Value());
      var viableTiles := ViableTiles(maze, position.Value(), direction, blockReverse);
      var selected := Select(viableTiles, direction, target, runAway);
      direction := selected;
    }

    /** BlinkyChaseBehavior.SwitchDirection: head for the player's tile. */
    method SwitchDirectionBlinky(maze: SM.Maze, player: Pacman)
      requires OnBoard(maze)
      modifies this`direction
      ensures OnBoard(maze) && PoseOn(maze) == old(PoseOn(maze)).(facing := direction)
      ensures TurnChoice(Viable(maze.tiles, maze.cols, maze.rows, position.Value(), old(direction), true),
                         old(direction), Some(player.position.Value()), false, direction)
    {
      TurnTowards(maze, Some(player.position.Value()), false, true);
    }

    /** PinkyChaseBehavior.SwitchDirection: head three tiles ahead of the
        player. */
    method SwitchDirectionPinky(maze: SM.Maze, player: Pacman)
      requires OnBoard(maze)
      modifies this`direction
      ensures OnBoard(maze) && PoseOn(maze) == old(PoseOn(maze)).(facing := direction)
      ensures var aim := PinkyTarget(player.position.Value(), player.direction, maze.cols, maze.rows);
        TurnChoice(Viable(maze.tiles, maze.cols, maze.rows, position.Value(), old(direction), true),
                   old(direction), Some(aim), false, direction)
    {
      var wh := maze.Dimensions();
      var target := PinkyTarget(player.position.Value(), player.direction, wh.0, wh.1);
      TurnTowards(maze, Some(target), false, true);
    }

    /** InkyChaseBehavior.SwitchDirection: head three tiles behind the
        player. */
    method SwitchDirectionInky(maze: SM.Maze, player: Pacman)
      requires OnBoard(maze)
      modifies this`direction
      ensures OnBoard(maze) && PoseOn(maze) == old(PoseOn(maze)).(facing := direction)
      ensures var aim := InkyTarget(player.position.Value(), player.direction, maze.cols, maze.rows);
        TurnChoice(Viable(maze.tiles, maze.cols, maze.rows, position.Value(), old(direction), true),
                   old(direction), Some(aim), false, direction)
    {
      var wh := maze.Dimensions();
      var target := InkyTarget(player.position.Value(), player.direction, wh.0, wh.1);
      TurnTowards(maze, Some(target), false, true);
    }

    /** ClydeChaseBehavior.SwitchDirection: wander while near the player,
        head for it otherwise. */
    method SwitchDirectionClyde(maze: SM.Maze, player: Pacman)
      requires OnBoard(maze)
      modifies this`direction
      ensures OnBoard(maze) && PoseOn(maze) == old(PoseOn(maze)).(facing := direction)
      ensures var aim := ClydeTarget(position.Value(), player.position.Value());
        TurnChoice(Viable(maze.tiles, maze.cols, maze.rows, position.Value(), old(direction), true),
                   old(direction), aim, false, direction)
    {
      var pacmanPosition := player.position.Value();
      var distance := DistanceTo(position.Value(), pacmanPosition);
      if distance < 9 {
        TurnTowards(maze, None, false, true);
      } else {
        TurnTowards(maze, Some(pacmanPosition), false, true);
      }
    }

    /** The selection loop of turnTowards over the viable moves, visited in
        the (unspecified) order of Go's map iteration. Where the source
        returns early without writing the facing, `selected` is the current
        facing. */
    static method Select(viableTiles: map<Direction, Pos>, current: Direction, target: Option<Pos>, runAway: bool)
        returns (selected: Direction)
      ensures TurnChoice(viableTiles, current, target, runAway, selected)
    {
      var options := |viableTiles|;
      if options == 0 {
        return current;
      }
      selected := DirStatic;
      var bestDistance := if runAway then FarthestStart else NearestStart;
      var directions: seq<Direction> := [];
      var remaining := viableTiles.Keys;
      ghost var visited: set<Direction> := {};
      while remaining != {}
        invariant remaining <= viableTiles.Keys && visited == viableTiles.Keys - remaining
        invariant options == 1 && current in viableTiles ==> current in remaining
        invariant target.None? ==> forall d :: d in visited ==> d in directions
        invariant target.None? ==> forall i :: 0 <= i < |directions| ==> directions[i] in viableTiles
        invariant target.Some? ==> Best(viableTiles, visited, target.value, runAway, selected, bestDistance)
        decreases remaining
      {
        var d :| d in remaining;
        if options == 1 && d == current {
          return current;
        }
        if target.None? {
          directions := directions + [d];
        } else {
          var currentDistance := DistanceTo(viableTiles[d], target.value);
          BestStep(viableTiles, visited, target.value, runAway, selected, bestDistance, d);
          var meetsDistanceCriteria := if runAway then currentDistance > bestDistance
                                       else currentDistance < bestDistance;
          if meetsDistanceCriteria {
            bestDistance := currentDistance;
            selected := d;
          }
        }
        assert viableTiles.Keys - (remaining - {d}) == visited + {d};
        remaining := remaining - {d};
        visited := visited + {d};
      }
      if target.None? {
        var some :| some in viableTiles;
        assert some in directions;
        var i :| 0 <= i < |directions| && directions[i] == some;
        selected := directions[i];
      } else {
        assert visited == viableTiles.Keys;
        BestDone(viableTiles, target.value, runAway, selected, bestDistance, current);
      }
    }

    /** ChangeState: the state becomes ApplyTransition's result (never nil),
        the tick rate the one the entered state sets, and the audio calls of
        leaving and entering are made. */
    method ChangeState(event: StateEvent, now: real, log: EventLog)
      requires state.Some?
      modifies this`state, this`speed, log
      ensures state == Some(GS.NextState(old(state).value, event, direction, now))
      ensures speed == GS.NextSpeed(old(state).value, event, old(speed))
      ensures log.events == old(log.events) + GS.ChangeLog(old(state).value, event)
    {
      var s := state.value;
      var table := GS.Transitions(s.Kind());
      if event in table {
        if s.Eaten? {
          log.Send(LoopStopped);
        }
        speed := GS.EntrySpeed(table[event], speed);
        if table[event] == EatenState {
          log.Send(LoopStarted(Retreating));
        }
      }
      var newState := GS.ApplyTransition(s, event, direction, now);
      if newState.Some? {
        state := newState;
      }
    }

    /** AttemptEatPacman, delegated to the state: true only when a
        scattering or chasing ghost meets the player. A frightened ghost
        that meets the player is eaten by it instead (the player met is
        `player`, the only Pac-Man of the board). */
    method AttemptEatPacman(obj: GameObject, player: Pacman, now: real, log: EventLog) returns (caught: bool)
      requires state.Some?
      modifies player`score, this`state, this`speed, log
      ensures caught == GS.AttemptEatPacman(old(state).value, obj)
      ensures GS.EatenOnContact(old(state).value, obj) ==>
        && player.score == old(player.score) + 200
        && state == Some(GS.NextState(old(state).value, GhostEaten, direction, now))
        && speed == GS.NextSpeed(old(state).value, GhostEaten, old(speed))
        && log.events == old(log.events) + [PlayedOnce(EatGhostEffect)] + GS.ChangeLog(old(state).value, GhostEaten)
      ensures !GS.EatenOnContact(old(state).value, obj) ==>
        player.score == old(player.score) && state == old(state) && speed == old(speed)
        && log.events == old(log.events)
    {
      caught := GS.AttemptEatPacman(state.value, obj);
      if GS.EatenOnContact(state.value, obj) {
        player.EatGhost(this, now, log);
      }
    }

    /** The collision switch every Run shares: DetectCollision, then a
        random facing for a wall, AttemptEatPacman and a move for the
        player, a move for anything else. `eaten` tells whether the ghost
        was eaten on the way, which replaces its state. */
    method MeetAhead(maze: SM.Maze, player: Pacman, log: EventLog, now: real) returns (eaten: bool)
      requires OnBoard(maze) && state.Some?
      modifies this`direction, this`spriteTicks, this`state, this`speed, maze, maze.Repr, position
      modifies player`score, log
      ensures maze.Valid()
      ensures maze.Rectangular()
      ensures InGrid(maze.tiles, position.Value())
      ensures maze.Repr == old(maze.Repr)
      ensures maze.rows == old(maze.rows) && maze.cols == old(maze.cols)
      ensures MovedAhead(handle, old(PoseOn(maze)), old(maze.cols), old(maze.rows), old(direction), PoseOn(maze))
      ensures eaten == Contact(old(maze.tiles), old(maze.cols), old(maze.rows), old(position.Value()),
                               old(direction), old(state).value)
      ensures eaten ==>
        && player.score == old(player.score) + 200
        && state == Some(GS.NextState(old(state).value, GhostEaten, old(direction), now))
        && speed == GS.NextSpeed(old(state).value, GhostEaten, old(speed))
        && log.events == old(log.events) + [PlayedOnce(EatGhostEffect)] + GS.ChangeLog(old(state).value, GhostEaten)
      ensures !eaten ==>
        player.score == old(player.score) && state == old(state) && speed == old(speed)
        && log.events == old(log.events)
    {
      var p := position.Value();
      maze.RectangularLands(p, direction);
      DetectCollisionIsTopAhead(maze, p, direction);
      var target := DetectCollision(maze, p, direction);
      eaten := false;
      if IsWall(target) {
        direction := PickRandomDirection();
      } else if target.Some? && target.value.PacmanObject? {
        eaten := MeetPlayer(maze, target.value, player, log, now);
      } else {
        StepOn(maze);
      }
    }

    /** The player case of the collision switch: AttemptEatPacman, then the
        move onto the player's tile. */
    method MeetPlayer(maze: SM.Maze, obj: GameObject, player: Pacman, log: EventLog, now: real) returns (eaten: bool)
      requires OnBoard(maze) && state.Some?
      modifies this`spriteTicks, this`state, this`speed, maze, maze.Repr, position
      modifies player`score, log
      ensures OnBoard(maze) && maze.Repr == old(maze.Repr)
      ensures maze.rows == old(maze.rows) && maze.cols == old(maze.cols)
      ensures Advanced(handle, old(PoseOn(maze)), maze.cols, maze.rows, PoseOn(maze))
      ensures eaten == GS.EatenOnContact(old(state).value, obj)
      ensures eaten ==>
        && player.score == old(player.score) + 200
        && state == Some(GS.NextState(old(state).value, GhostEaten, direction, now))
        && speed == GS.NextSpeed(old(state).value, GhostEaten, old(speed))
        && log.events == old(log.events) + [PlayedOnce(EatGhostEffect)] + GS.ChangeLog(old(state).value, GhostEaten)
      ensures !eaten ==>
        player.score == old(player.score) && state == old(state) && speed == old(speed)
        && log.events == old(log.events)
    {
      eaten := GS.EatenOnContact(state.value, obj);
      var _ := AttemptEatPacman(obj, player, now, log);
      StepOn(maze);
    }

    /** MoveElement(ghost, false) followed by advanceSprites. */
    method StepOn(maze: SM.Maze)
      requires OnBoard(maze)
      modifies this`spriteTicks, maze, maze.Repr, position
      ensures OnBoard(maze) && maze.Repr == old(maze.Repr)
      ensures maze.rows == old(maze.rows) && maze.cols == old(maze.cols)
      ensures Advanced(handle, old(PoseOn(maze)), maze.cols, maze.rows, PoseOn(maze))
    {
      maze.RectangularLands(position.Value(), direction);
      maze.MoveElement(handle, position, direction, false);
      maze.RectangularLands(position.Value(), DirStatic);
      spriteTicks := spriteTicks + 1;
    }

    /** The part the Run of Scatter, Chase, Fleeing and Flickering share:
        unless the facing changed on the previous tick (`skip`), turn
        towards the target; then, only if the facing is still `prev`,
        meet the tile ahead. `changed` is the new recentlyChangedDirection
        and `eaten` tells whether the player ate the ghost on the way. */
    method Roam(maze: SM.Maze, player: Pacman, log: EventLog, now: real, skip: bool, prev: Direction,
                target: Option<Pos>, runAway: bool, blockReverse: bool)
        returns (changed: bool, eaten: bool, ghost turned: Direction)
      requires OnBoard(maze) && state.Some?
      modifies this`direction, this`spriteTicks, this`state, this`speed, maze, maze.Repr, position
      modifies player`score, log
      ensures OnBoard(maze) && maze.Repr == old(maze.Repr)
      ensures maze.rows == old(maze.rows) && maze.cols == old(maze.cols)
      ensures Roamed(handle, old(PoseOn(maze)), old(maze.cols), old(maze.rows), skip, prev, target, runAway,
                     blockReverse, turned, PoseOn(maze))
      ensures changed == (turned != prev)
      ensures eaten == (!changed && Contact(old(maze.tiles), old(maze.cols), old(maze.rows), old(position.Value()),
                                            turned, old(state).value))
      ensures eaten ==>
        && player.score == old(player.score) + 200
        && state == Some(GS.NextState(old(state).value, GhostEaten, turned, now))
        && speed == GS.NextSpeed(old(state).value, GhostEaten, old(speed))
        && log.events == old(log.events) + [PlayedOnce(EatGhostEffect)] + GS.ChangeLog(old(state).value, GhostEaten)
      ensures !eaten ==>
        player.score == old(player.score) && state == old(state) && speed == old(speed)
        && log.events == old(log.events)
    {
      if !skip {
        TurnTowards(maze, target, runAway, blockReverse);
      }
      turned := direction;
      changed := direction != prev;
      eaten := false;
      if !changed {
        eaten := MeetAhead(maze, player, log, now);
      }
    }

    /** The end of every Run: write the state's updated fields back, unless
        the ghost was eaten on the way (its state was replaced then), and
        fire the state's timer event if its time has come. */
    method Settle(maze: SM.Maze, written: GS.GhostStateValue, eaten: bool, fired: bool, event: StateEvent,
                  now: real, log: EventLog)
      requires OnBoard(maze) && state.Some?
      modifies this`state, this`speed, log
      ensures OnBoard(maze) && PoseOn(maze) == old(PoseOn(maze))
      ensures var mid := if eaten then old(state).value else written;
        && state == Some(if fired then GS.NextState(mid, event, direction, now) else mid)
        && speed == (if fired then GS.NextSpeed(mid, event, old(speed)) else old(speed))
        && log.events == old(log.events) + (if fired then GS.ChangeLog(mid, event) else [])
    {
      if !eaten {
        state := Some(written);
      }
      if fired {
        ChangeState(event, now, log);
      }
    }

    /** Idle's Run: the sprites advance, and once the ghost has idled
        longer than its idle time it starts scattering. */
    method RunIdle(log: EventLog, now: real)
      requires state.Some? && state.value.Idle?
      modifies this`spriteTicks, this`state, this`speed, log
      ensures spriteTicks == old(spriteTicks) + 1
      ensures var s := old(state).value;
        var fired := now - s.createdAt > idleStateTime;
        && state == Some(if fired then GS.NextState(s, Scatter, direction, now) else s)
        && speed == (if fired then GS.NextSpeed(s, Scatter, old(speed)) else old(speed))
        && log.events == old(log.events) + (if fired then GS.ChangeLog(s, Scatter) else [])
    {
      spriteTicks := spriteTicks + 1;
      if now - state.value.createdAt > idleStateTime {
        ChangeState(Scatter, now, log);
      }
    }

    /** Scatter's Run: wander with no target, record the facing, and start
        chasing once the scatter has lasted longer than its duration. */
    method RunScatter(maze: SM.Maze, player: Pacman, log: EventLog, now: real) returns (ghost turned: Direction)
      requires OnBoard(maze) && state.Some? && state.value.Scattering?
      modifies this`direction, this`spriteTicks, this`state, this`speed, maze, maze.Repr, position
      modifies player`score, log
      ensures OnBoard(maze) && maze.Repr == old(maze.Repr) && player.score == old(player.score)
      ensures var s := old(state).value;
        Roamed(handle, old(PoseOn(maze)), old(maze.cols), old(maze.rows), s.recentlyChangedDirection,
               s.prevDirection, None, false, true, turned, PoseOn(maze))
      ensures var s := old(state).value;
        var written := GS.Scattering(s.createdAt, direction, turned != s.prevDirection);
        var fired := now - s.createdAt > ScatterModeDuration as real;
        && state == Some(if fired then GS.NextState(written, ChasePacman, direction, now) else written)
        && speed == (if fired then GS.NextSpeed(written, ChasePacman, old(speed)) else old(speed))
        && log.events == old(log.events) + (if fired then GS.ChangeLog(written, ChasePacman) else [])
    {
      var s := state.value;
      var changed, eaten;
      changed, eaten, turned := Roam(maze, player, log, now, s.recentlyChangedDirection, s.prevDirection,
                                 None, false, true);
      Settle(maze, GS.Scattering(s.createdAt, direction, changed), false,
             now - s.createdAt > ScatterModeDuration as real, ChasePacman, now, log);
    }

    /** Chase's Run: close in on the player, record the facing, and once
        the chase has lasted longer than its duration, below the infinite
        phase, step the phase up, announce it and go back to scattering. */
    method RunChase(maze: SM.Maze, player: Pacman, log: EventLog, now: real) returns (ghost turned: Direction)
      requires OnBoard(maze) && state.Some? && state.value.Chasing?
      modifies this`direction, this`spriteTicks, this`state, this`speed, this`phase, maze, maze.Repr, position
      modifies player`score, log
      ensures OnBoard(maze) && maze.Repr == old(maze.Repr) && player.score == old(player.score)
      ensures var s := old(state).value;
        Roamed(handle, old(PoseOn(maze)), old(maze.cols), old(maze.rows), s.recentlyChangedDirection,
               s.prevDirection, Some(old(player.position.Value())), false, true, turned, PoseOn(maze))
      ensures var s := old(state).value;
        var written := GS.Chasing(s.createdAt, direction, turned != s.prevDirection);
        var fired := old(phase) < InfiniteChasePhase && now - s.createdAt > ChaseModeDuration as real;
        && phase == PhaseAfter(old(phase), now - s.createdAt)
        && state == Some(if fired then GS.NextState(written, Scatter, direction, now) else written)
        && speed == (if fired then GS.NextSpeed(written, Scatter, old(speed)) else old(speed))
        && log.events == old(log.events)
             + (if fired then [PhaseChangeSent(phase)] + GS.ChangeLog(written, Scatter) else [])
    {
      var s := state.value;
      var changed, eaten;
      changed, eaten, turned := Roam(maze, player, log, now, s.recentlyChangedDirection, s.prevDirection,
                                 Some(player.position.Value()), false, true);
      EndChase(maze, GS.Chasing(s.createdAt, direction, changed), now - s.createdAt, now, log);
    }

    /** The end of Chase's Run: write the chase's fields back and, once the
        chase has lasted longer than its duration below the infinite phase,
        step the phase up, announce it and scatter again. */
    method EndChase(maze: SM.Maze, written: GS.GhostStateValue, timer: real, now: real, log: EventLog)
      requires OnBoard(maze) && state.Some?
      modifies this`state, this`speed, this`phase, log
      ensures OnBoard(maze) && PoseOn(maze) == old(PoseOn(maze))
      ensures var fired := old(phase) < InfiniteChasePhase && timer > ChaseModeDuration as real;
        && phase == PhaseAfter(old(phase), timer)
        && state == Some(if fired then GS.NextState(written, Scatter, direction, now) else written)
        && speed == (if fired then GS.NextSpeed(written, Scatter, old(speed)) else old(speed))
        && log.events == old(log.events)
             + (if fired then [PhaseChangeSent(phase)] + GS.ChangeLog(written, Scatter) else [])
    {
      state := Some(written);
      if phase < InfiniteChasePhase && timer > ChaseModeDuration as real {
        phase := phase + 1;
        log.Send(PhaseChangeSent(phase));
        ChangeState(Scatter, now, log);
      }
    }

    /** Fleeing's Run: run away from the player (reversals allowed on the
        first turn only), record the facing unless the player ate the
        ghost, and start flickering once the fright is about to end. The
        timer fires on whatever state the ghost is in by then: an eaten
        ghost ignores it. */
    method RunFleeing(maze: SM.Maze, player: Pacman, log: EventLog, now: real) returns (ghost turned: Direction)
      requires OnBoard(maze) && state.Some? && state.value.Fleeing?
      modifies this`direction, this`spriteTicks, this`state, this`speed, maze, maze.Repr, position
      modifies player`score, log
      ensures OnBoard(maze) && maze.Repr == old(maze.Repr)
      ensures var s := old(state).value;
        Roamed(handle, old(PoseOn(maze)), old(maze.cols), old(maze.rows), s.recentlyChangedDirection,
               s.prevDirection, Some(old(player.position.Value())), true, s.blockReverse, turned, PoseOn(maze))
      ensures var s, t, p := old(state).value, old(maze.tiles), old(position.Value());
        var caught := turned == s.prevDirection && Contact(t, old(maze.cols), old(maze.rows), p, turned, s);
        var written := GS.Fleeing(s.createdAt, direction, s.blockReverse || !s.recentlyChangedDirection,
                                  turned != s.prevDirection);
        var mid := if caught then GS.NextState(s, GhostEaten, turned, now) else written;
        var midSpeed := if caught then GS.NextSpeed(s, GhostEaten, old(speed)) else old(speed);
        var midLog := if caught then old(log.events) + [PlayedOnce(EatGhostEffect)] + GS.ChangeLog(s, GhostEaten)
                      else old(log.events);
        var fired := now - s.createdAt > (PowerPelletDuration - FlickeringStateDuration) as real;
        && player.score == old(player.score) + (if caught then 200 else 0)
        && state == Some(if fired then GS.NextState(mid, StartFlickering, direction, now) else mid)
        && speed == (if fired then GS.NextSpeed(mid, StartFlickering, midSpeed) else midSpeed)
        && log.events == midLog + (if fired then GS.ChangeLog(mid, StartFlickering) else [])
    {
      var s := state.value;
      var changed, eaten;
      changed, eaten, turned := Roam(maze, player, log, now, s.recentlyChangedDirection, s.prevDirection,
                                     Some(player.position.Value()), true, s.blockReverse);
      Settle(maze, GS.Fleeing(s.createdAt, direction, s.blockReverse || !s.recentlyChangedDirection, changed), eaten,
             now - s.createdAt > (PowerPelletDuration - FlickeringStateDuration) as real, StartFlickering, now, log);
    }

    /** Flickering's Run: run away from the player without reversing,
        record the facing unless the player ate the ghost, and wear the
        fright off once flickering has lasted its duration. */
    method RunFlickering(maze: SM.Maze, player: Pacman, log: EventLog, now: real) returns (ghost turned: Direction)
      requires OnBoard(maze) && state.Some? && state.value.Flickering?
      modifies this`direction, this`spriteTicks, this`state, this`speed, maze, maze.Repr, position
      modifies player`score, log
      ensures OnBoard(maze) && maze.Repr == old(maze.Repr)
      ensures var s := old(state).value;
        Roamed(handle, old(PoseOn(maze)), old(maze.cols), old(maze.rows), s.recentlyChangedDirection,
               s.prevDirection, Some(old(player.position.Value())), true, true, turned, PoseOn(maze))
      ensures var s, t, p := old(state).value, old(maze.tiles), old(position.Value());
        var caught := turned == s.prevDirection && Contact(t, old(maze.cols), old(maze.rows), p, turned, s);
        var written := GS.Flickering(s.createdAt, direction, turned != s.prevDirection);
        var mid := if caught then GS.NextState(s, GhostEaten, turned, now) else written;
        var midSpeed := if caught then GS.NextSpeed(s, GhostEaten, old(speed)) else old(speed);
        var midLog := if caught then old(log.events) + [PlayedOnce(EatGhostEffect)] + GS.ChangeLog(s, GhostEaten)
                      else old(log.events);
        var fired := now - s.createdAt > FlickeringStateDuration as real;
        && player.score == old(player.score) + (if caught then 200 else 0)
        && state == Some(if fired then GS.NextState(mid, PowerPelletWearOff, direction, now) else mid)
        && speed == (if fired then GS.NextSpeed(mid, PowerPelletWearOff, midSpeed) else midSpeed)
        && log.events == midLog + (if fired then GS.ChangeLog(mid, PowerPelletWearOff) else [])
    {
      var s := state.value;
      var changed, eaten;
      changed, eaten, turned := Roam(maze, player, log, now, s.recentlyChangedDirection, s.prevDirection,
                                     Some(player.position.Value()), true, true);
      Settle(maze, GS.Flickering(s.createdAt, direction, changed), eaten,
             now - s.createdAt > FlickeringStateDuration as real, PowerPelletWearOff, now, log);
    }

    /** Eaten's Run: head for the ghosts' base on every tick, always meet
        the tile ahead, and scatter again once back on the base (a squared distance below one
        is the base itself). */
    method RunEaten(maze: SM.Maze, player: Pacman, log: EventLog, now: real, base: Pos)
        returns (ghost turned: Direction)
      requires OnBoard(maze) && state.Some? && state.value.Eaten?
      modifies this`direction, this`spriteTicks, this`state, this`speed, maze, maze.Repr, position
      modifies player`score, log
      ensures OnBoard(maze) && maze.Repr == old(maze.Repr) && player.score == old(player.score)
      ensures Homed(handle, old(PoseOn(maze)), old(maze.cols), old(maze.rows), base, turned, PoseOn(maze))
      ensures var written := GS.Eaten(direction);
        var fired := position.Value() == base;
        && state == Some(if fired then GS.NextState(written, ReachBase, direction, now) else written)
        && speed == (if fired then GS.NextSpeed(written, ReachBase, old(speed)) else old(speed))
        && log.events == old(log.events) + (if fired then GS.ChangeLog(written, ReachBase) else [])
    {
      turned := Retreat(maze, player, log, now, base);
      Settle(maze, GS.Eaten(direction), false, DistanceTo(position.Value(), base) < 1, ReachBase, now, log);
    }

    /** The moving part of Eaten's Run; an eaten ghost cannot be eaten
        again, so only the facing, the position, the grid and the sprites
        change. */
    method Retreat(maze: SM.Maze, player: Pacman, log: EventLog, now: real, base: Pos)
        returns (ghost turned: Direction)
      requires OnBoard(maze) && state.Some? && state.value.Eaten?
      modifies this`direction, this`spriteTicks, this`state, this`speed, maze, maze.Repr, position
      modifies player`score, log
      ensures OnBoard(maze) && maze.Repr == old(maze.Repr) && player.score == old(player.score)
      ensures state == old(state) && speed == old(speed) && log.events == old(log.events)
      ensures Homed(handle, old(PoseOn(maze)), old(maze.cols), old(maze.rows), base, turned, PoseOn(maze))
    {
      ghost var a := PoseOn(maze);
      TurnTowards(maze, Some(base), false, true);
      turned := direction;
      ghost var mid := PoseOn(maze);
      assert Turned(a.tiles, maze.cols, maze.rows, a.at, a.facing, false, Some(base), false, true, turned);
      var eaten := MeetAhead(maze, player, log, now);
      assert !eaten;
      assert MovedAhead(handle, mid, maze.cols, maze.rows, turned, PoseOn(maze));
      assert mid == a.(facing := turned);
    }
  }

  class Pacman {
    var score: nat
    var keepRunning: bool
    /** None until Run enters Walking. */
    var state: Option<PS.PacmanStateValue>
    const position: Position
    var speed: int
    var keyDirection: Direction
    var direction: Direction
    /** keyListener's lastPressed, in milliseconds. */
    var lastPressed: int
    /** How many times the sprites have advanced. */
    var spriteTicks: nat
    /** The player as an occupant of the maze. */
    const handle: GameObject

    /** InitPacman, with `id` naming the player on the board. */
    constructor (x: int, y: int, id: nat)
      ensures score == 0 && keepRunning && state.None? && speed == DefaultPacmanFPS
      ensures direction == DirLeft && keyDirection == DirLeft && spriteTicks == 0
      ensures fresh(position) && position.Value() == Pos(x, y) && handle == PacmanObject(id)
    {
      score := 0;
      keepRunning := true;
      state := None;
      position := new Position(x, y);
      speed := DefaultPacmanFPS;
      direction := DirLeft;
      keyDirection := DirLeft;
      lastPressed := 0;
      spriteTicks := 0;
      handle := PacmanObject(id);
    }

    /** The maze is fit for a tick of the player. */
    ghost predicate OnBoard(maze: SM.Maze)
      reads position, maze, maze.Repr
    {
      maze.Valid() && maze.Rectangular() && InGrid(maze.tiles, position.Value())
    }

    /** The start of Run: the player enters Walking, remembering its
        facing, and the key listener starts its clock at `now` (in
        milliseconds). */
    method Start(now: int)
      modifies this`state, this`lastPressed
      ensures state == Some(PS.Walking(direction)) && lastPressed == now
    {
      state := Some(PS.Walking(direction));
      lastPressed := now;
    }

    /** One poll of keyListener at time `now` (milliseconds), given which
        arrow keys are held: a held key is adopted at once and restarts the
        clock; with none held, the key direction is dropped once more than
        150 ms have passed since the last press. */
    method PollKeys(up: bool, down: bool, right: bool, left: bool, now: int)
      modifies this`keyDirection, this`lastPressed
      ensures var sel := PS.KeySelection(up, down, right, left);
        && (sel.Some? ==> keyDirection == sel.value && lastPressed == now)
        && (sel.None? ==>
              && lastPressed == old(lastPressed)
              && keyDirection == (if now - old(lastPressed) > 150 then DirStatic else old(keyDirection)))
    {
      var pressed := PS.KeySelection(up, down, right, left);
      if pressed.Some? {
        keyDirection := pressed.value;
        lastPressed := now;
      }
      if now - lastPressed > 150 {
        keyDirection := DirStatic;
      }
    }

    /** ChangeState: Walking lists no event, so the state stays. */
    method ChangeState(event: StateEvent)
      requires state.Some?
      modifies this`state
      ensures state == old(state)
    {
      var newState := PS.ApplyTransition(state.value, event, direction);
      if newState.Some? {
        state := newState;
      }
    }

    /** EatPellet: the munch sound, the pellet taken off its tile, its
        isPowerful flag sent on the EatPellet channel, and 50 points (with
        PowerPelletEaten for the player's state) for a power pellet, 10
        otherwise. The pellet's tile is the one it was created on. */
    method EatPellet(pelletObj: GameObject, maze: SM.Maze, log: EventLog)
      requires pelletObj.PelletObject?
      requires maze.Valid() && InGrid(maze.tiles, pelletObj.pellet.position)
      requires pelletObj.pellet.isPowerful ==> state.Some?
      modifies this`score, this`state, maze, maze.Repr, log
      ensures maze.Valid() && maze.Repr == old(maze.Repr)
      ensures maze.rows == old(maze.rows) && maze.cols == old(maze.cols)
      ensures var at := pelletObj.pellet.position;
        maze.tiles == SetAt(old(maze.tiles), at, RemoveFirst(At(old(maze.tiles), at), pelletObj))
      ensures log.events == old(log.events) + [PlayedOnce(MunchEffect), EatPelletSent(pelletObj.pellet.isPowerful)]
      ensures score == old(score) + (if pelletObj.pellet.isPowerful then 50 else 10)
      ensures state == old(state)
    {
      log.Send(PlayedOnce(MunchEffect));
      var _ := maze.RemoveFrom(pelletObj.pellet.position, pelletObj);
      log.Send(EatPelletSent(pelletObj.pellet.isPowerful));
      if pelletObj.pellet.isPowerful {
        ChangeState(PowerPelletEaten);
        score := score + 50;
      } else {
        score := score + 10;
      }
    }

    /** EatGhost: 200 points, the eat-ghost sound, and GhostEaten sent to
        the ghost. */
    method EatGhost(g: Ghost, now: real, log: EventLog)
      requires g.state.Some?
      modifies this`score, g`state, g`speed, log
      ensures score == old(score) + 200
      ensures g.state == Some(GS.NextState(old(g.state).value, GhostEaten, g.direction, now))
      ensures g.speed == GS.NextSpeed(old(g.state).value, GhostEaten, old(g.speed))
      ensures log.events == old(log.events) + [PlayedOnce(EatGhostEffect)] + GS.ChangeLog(old(g.state).value, GhostEaten)
    {
      score := score + 200;
      log.Send(PlayedOnce(EatGhostEffect));
      g.ChangeState(GhostEaten, now, log);
    }
  
    /** What handleCollisions did, for a player that stood at p on grid t
        and settled on facing d: a wall ahead leaves everything as it was;
        a pellet ahead is eaten by the move (the top of the tile ahead is
        dropped), with the munch sound and an EatPellet signal; anything
        else is a plain move. Every move advances the sprites. */
    twostate predicate Handled(maze: SM.Maze, log: EventLog, t: Tiles, cols: int, rows: int, p: Pos, d: Direction)
      reads this, maze, position, log
    {
      && cols > 0 && rows > 0 && InGrid(t, p) && InGrid(t, Destination(p, d, cols, rows))
      && var to := Destination(p, d, cols, rows);
         match PS.ReactionTo(Ahead(t, cols, rows, p, d))
         case Blocked =>
           maze.tiles == t && position.Value() == p && spriteTicks == old(spriteTicks)
           && log.events == old(log.events)
         case Munch =>
           maze.tiles == Moved(t, handle, p, to, true) && position.Value() == MovedTo(t, handle, p, to)
           && spriteTicks == old(spriteTicks) + 1
           && log.events == old(log.events) + [PlayedOnce(MunchEffect), EatPelletSignal]
         case Step =>
           maze.tiles == Moved(t, handle, p, to, false) && position.Value() == MovedTo(t, handle, p, to)
           && spriteTicks == old(spriteTicks) + 1 && log.events == old(log.events)
    }

    /** handleCollisions for a Walking state whose prevDirection is prev:
        a wall ahead after a turn takes the previous facing back and
        handles the collision once more. */
    method HandleCollisions(maze: SM.Maze, log: EventLog, prev: Direction)
      requires OnBoard(maze)
      modifies this`direction, this`spriteTicks, maze, maze.Repr, position, log
      ensures OnBoard(maze) && maze.Repr == old(maze.Repr)
      ensures maze.rows == old(maze.rows) && maze.cols == old(maze.cols)
      ensures var p, t := old(position.Value()), old(maze.tiles);
        var d := Settled(t, old(maze.cols), old(maze.rows), p, old(direction), prev);
        direction == d && Handled(maze, log, t, old(maze.cols), old(maze.rows), p, d)
      decreases if direction != prev then 1 else 0
    {
      var p := position.Value();
      maze.RectangularLands(p, direction);
      maze.RectangularLands(p, prev);
      DetectCollisionIsTopAhead(maze, p, direction);
      var target := DetectCollision(maze, p, direction);
      if target.Some? && target.value.WallObject? {
        if direction != prev {
          direction := prev;
          HandleCollisions(maze, log, prev);
        }
      } else {
        MeetOpen(maze, log);
      }
    }

    /** The cases of handleCollisions with no wall ahead: a pellet is
        eaten by the move, anything else is a plain move. */
    method MeetOpen(maze: SM.Maze, log: EventLog)
      requires OnBoard(maze)
      requires maze.Lands(position.Value(), direction)
      requires PS.ReactionTo(DetectCollision(maze, position.Value(), direction)) != PS.Blocked
      modifies this`spriteTicks, maze, maze.Repr, position, log
      ensures OnBoard(maze) && maze.Repr == old(maze.Repr)
      ensures maze.rows == old(maze.rows) && maze.cols == old(maze.cols)
      ensures Handled(maze, log, old(maze.tiles), old(maze.cols), old(maze.rows), old(position.Value()), direction)
    {
      var p := position.Value();
      DetectCollisionIsTopAhead(maze, p, direction);
      var target := DetectCollision(maze, p, direction);
      if target.Some? && target.value.PelletObject? {
        Munch(maze, log);
      } else {
        StepOn(maze, false);
      }
    }

    /** The pellet case of handleCollisions: the munch sound, a move that
        drops the top of the tile ahead, a sprite advance and the
        EatPellet signal. */
    method Munch(maze: SM.Maze, log: EventLog)
      requires OnBoard(maze)
      modifies this`spriteTicks, maze, maze.Repr, position, log
      ensures OnBoard(maze) && maze.Repr == old(maze.Repr)
      ensures maze.rows == old(maze.rows) && maze.cols == old(maze.cols)
      ensures var p := old(position.Value());
        var to := Destination(p, direction, maze.cols, maze.rows);
        && InGrid(old(maze.tiles), to)
        && maze.tiles == Moved(old(maze.tiles), handle, p, to, true)
        && position.Value() == MovedTo(old(maze.tiles), handle, p, to)
        && spriteTicks == old(spriteTicks) + 1
      ensures log.events == old(log.events) + [PlayedOnce(MunchEffect), EatPelletSignal]
    {
      log.Send(PlayedOnce(MunchEffect));
      StepOn(maze, true);
      log.Send(EatPelletSignal);
    }

    /** MoveElement(pacman, del) followed by a sprite advance. */
    method StepOn(maze: SM.Maze, del: bool)
      requires OnBoard(maze)
      modifies this`spriteTicks, maze, maze.Repr, position
      ensures OnBoard(maze) && maze.Repr == old(maze.Repr)
      ensures maze.rows == old(maze.rows) && maze.cols == old(maze.cols)
      ensures var p := old(position.Value());
        var to := Destination(p, direction, maze.cols, maze.rows);
        && InGrid(old(maze.tiles), to)
        && maze.tiles == Moved(old(maze.tiles), handle, p, to, del)
        && position.Value() == MovedTo(old(maze.tiles), handle, p, to)
        && spriteTicks == old(spriteTicks) + 1
    {
      maze.RectangularLands(position.Value(), direction);
      maze.MoveElement(handle, position, direction, del);
      maze.RectangularLands(position.Value(), DirStatic);
      spriteTicks := spriteTicks + 1;
    }

    /** Walking.Run: adopt the held key's direction, handle the collision
        ahead, and remember the facing actually used. */
    method RunWalking(maze: SM.Maze, log: EventLog)
      requires OnBoard(maze) && state.Some?
      modifies this`direction, this`spriteTicks, this`state, maze, maze.Repr, position, log
      ensures OnBoard(maze) && maze.Repr == old(maze.Repr)
      ensures maze.rows == old(maze.rows) && maze.cols == old(maze.cols)
      ensures var p, t := old(position.Value()), old(maze.tiles);
        var facing := PS.Adopted(old(keyDirection), old(direction));
        var d := Settled(t, old(maze.cols), old(maze.rows), p, facing, old(state).value.prevDirection);
        && direction == d && Handled(maze, log, t, old(maze.cols), old(maze.rows), p, d)
        && state == Some(PS.Walking(d))
    {
      if keyDirection != DirStatic {
        direction := keyDirection;
      }
      HandleCollisions(maze, log, state.value.prevDirection);
      state := Some(PS.Walking(direction));
    }
  }

  /** The facing handleCollisions settles on: the previous one when a wall
      is ahead after a turn, the current one otherwise. */
  function Settled(t: Tiles, cols: int, rows: int, p: Pos, facing: Direction, prev: Direction): (d: Direction)
    requires cols > 0 && rows > 0 && InGrid(t, Destination(p, facing, cols, rows))
    ensures d == facing || d == prev
    ensures d != facing <==> PS.ReactionTo(Ahead(t, cols, rows, p, facing)) == PS.Blocked && facing != prev
  {
    if PS.ReactionTo(Ahead(t, cols, rows, p, facing)) == PS.Blocked && facing != prev then prev else facing
  }
}
