/** The ghost state machine of src/models/ghostStates.go as values: the
    per-state transition tables, the states created on entry
    (getGhostStateInstance and the Init* constructors), the tick rate each
    one sets, and the audio calls made on the way. The ticks themselves
    (the Run methods) belong to the ghost, in module Models. */
module GhostStates {
  import opened Constants
  import opened Wrappers
  import opened Occupants
  import opened Events

  /** A state and its own fields. createdAt is the time (in seconds) at
      which the state was entered; Eaten keeps no clock. */
  datatype GhostStateValue =
    | Idle(createdAt: real)
    | Scattering(createdAt: real, prevDirection: Direction, recentlyChangedDirection: bool)
    | Chasing(createdAt: real, prevDirection: Direction, recentlyChangedDirection: bool)
    | Fleeing(createdAt: real, prevDirection: Direction, blockReverse: bool, recentlyChangedDirection: bool)
    | Flickering(createdAt: real, prevDirection: Direction, recentlyChangedDirection: bool)
    | Eaten(prevDirection: Direction)
  {
    /** The constants.GhostState tag of the state. */
    function Kind(): GhostState
    {
      match this
      case Idle(_) => IdleState
      case Scattering(_, _, _) => ScatterState
      case Chasing(_, _, _) => ChaseState
      case Fleeing(_, _, _, _) => FleeingState
      case Flickering(_, _, _) => FlickeringState
      case Eaten(_) => EatenState
    }
  }

  /** The transition table each Init* constructor fills in. The source
      keys the eaten transitions by constants.EatGhost, which
      src/constants/index.go does not declare; they are read here as
      GhostEaten, the event Pacman's EatGhost sends. No state exists for
      EndState, so it has no table. */
  function Transitions(k: GhostState): map<StateEvent, GhostState>
  {
    match k
    case IdleState => map[Scatter := ScatterState]
    case ScatterState => map[ChasePacman := ChaseState, PowerPelletEaten := FleeingState]
    case ChaseState => map[Scatter := ScatterState, PowerPelletEaten := FleeingState]
    case FleeingState =>
      map[StartFlickering := FlickeringState, GhostEaten := EatenState, PowerPelletEaten := FleeingState]
    case FlickeringState =>
      map[PowerPelletWearOff := ScatterState, GhostEaten := EatenState, PowerPelletEaten := FleeingState]
    case EatenState => map[ReachBase := ScatterState]
    case EndState => map[]
  }

  /** getGhostStateInstance: a freshly entered state of kind k for a ghost
      facing `direction` at time `now`; nil (None) for EndState. */
  function Instance(k: GhostState, direction: Direction, now: real): Option<GhostStateValue>
  {
    match k
    case IdleState => Some(Idle(now))
    case ScatterState => Some(Scattering(now, direction, false))
    case ChaseState => Some(Chasing(now, direction, false))
    case FleeingState => Some(Fleeing(now, direction, false, false))
    case FlickeringState => Some(Flickering(now, direction, false))
    case EatenState => Some(Eaten(direction))
    case EndState => None
  }

  /** v has just been entered at `now` by a ghost facing `direction`: its
      clock starts now, it remembers that facing, and it has not turned. */
  predicate Entered(v: GhostStateValue, direction: Direction, now: real)
  {
    match v
    case Idle(t) => t == now
    case Scattering(t, p, r) => t == now && p == direction && !r
    case Chasing(t, p, r) => t == now && p == direction && !r
    case Fleeing(t, p, b, r) => t == now && p == direction && !b && !r
    case Flickering(t, p, r) => t == now && p == direction && !r
    case Eaten(p) => p == direction
  }

  /** ApplyTransition: an event missing from the table returns the state
      itself; a listed one returns a freshly entered state of the listed
      kind. No table lists EndState, so the result is never nil. */
  function ApplyTransition(s: GhostStateValue, e: StateEvent, direction: Direction, now: real)
    : (r: Option<GhostStateValue>)
    ensures r.Some?
    ensures e !in Transitions(s.Kind()) ==> r.value == s
    ensures e in Transitions(s.Kind()) ==>
      r.value.Kind() == Transitions(s.Kind())[e] && Entered(r.value, direction, now)
  {
    var table := Transitions(s.Kind());
    if e !in table then Some(s) else Instance(table[e], direction, now)
  }

  /** The tick rate after entering a state of kind k: the Init*
      constructors of Scatter and Chase set 6, of Fleeing and Flickering 4,
      of Eaten 12; InitIdle leaves it alone. */
  function EntrySpeed(k: GhostState, speed: int): (r: int)
  {
    match k
    case ScatterState => DefaultGhostFPS
    case ChaseState => DefaultGhostFPS
    case FleeingState => FleeingGhostFPS
    case FlickeringState => FleeingGhostFPS
    case EatenState => EatenGhostFPS
    case _ => speed
  }

  /** The ghost's state after ChangeState(e). */
  function NextState(s: GhostStateValue, e: StateEvent, direction: Direction, now: real): GhostStateValue
  {
    ApplyTransition(s, e, direction, now).value
  }

  /** The ghost's tick rate after ChangeState(e). */
  function NextSpeed(s: GhostStateValue, e: StateEvent, speed: int): int
  {
    var table := Transitions(s.Kind());
    if e in table then EntrySpeed(table[e], speed) else speed
  }

  /** The audio calls of ChangeState(e): leaving Eaten stops its retreat
      loop, and entering Eaten starts one. */
  function ChangeLog(s: GhostStateValue, e: StateEvent): seq<Event>
  {
    var table := Transitions(s.Kind());
    (if s.Eaten? && e in table then [LoopStopped] else [])
    + (if e in table && table[e] == EatenState then [LoopStarted(Retreating)] else [])
  }

  /** AttemptEatPacman: only a scattering or chasing ghost catches the
      player; every other state, and every other occupant, is false. */
  function AttemptEatPacman(s: GhostStateValue, obj: GameObject): (caught: bool)
    ensures caught <==> (s.Scattering? || s.Chasing?) && obj.PacmanObject?
  {
    match s
    case Scattering(_, _, _) => obj.PacmanObject?
    case Chasing(_, _, _) => obj.PacmanObject?
    case _ => false
  }

  /** A frightened ghost that meets the player is eaten by it instead
      (Fleeing and Flickering call EatGhost on the player). */
  predicate EatenOnContact(s: GhostStateValue, obj: GameObject)
  {
    (s.Fleeing? || s.Flickering?) && obj.PacmanObject?
  }

  /** ChangeState never reaches an end state, whatever the event. */
  lemma {:induction false} NeverEnds(s: GhostStateValue, e: StateEvent, direction: Direction, now: real)
    ensures NextState(s, e, direction, now).Kind() != EndState
  {
    var table := Transitions(s.Kind());
    if e in table {
      assert table[e] != EndState;
    }
  }

  /** Only a frightened ghost can be eaten: GhostEaten sends Fleeing and
      Flickering to Eaten and leaves every other state as it is. */
  lemma OnlyFrightenedGetEaten(s: GhostStateValue, direction: Direction, now: real)
    ensures var n := NextState(s, GhostEaten, direction, now);
      && ((s.Fleeing? || s.Flickering?) ==> n == Eaten(direction))
      && (!(s.Fleeing? || s.Flickering?) ==> n == s)
  {
  }

  /** A power pellet frightens every ghost on the board, restarting the
      fright clock of one already frightened; idle and eaten ghosts ignore
      it. */
  lemma PowerPelletFrightens(s: GhostStateValue, direction: Direction, now: real)
    ensures var n := NextState(s, PowerPelletEaten, direction, now);
      && (!(s.Idle? || s.Eaten?) ==> n == Fleeing(now, direction, false, false))
      && ((s.Idle? || s.Eaten?) ==> n == s)
  {
  }

  /** Wearing off returns a flickering ghost to Scatter (not to Chase), and
      starting to flicker applies to fleeing ghosts only. */
  lemma FrightEnds(s: GhostStateValue, direction: Direction, now: real)
    ensures s.Flickering? ==> NextState(s, PowerPelletWearOff, direction, now) == Scattering(now, direction, false)
    ensures !s.Flickering? ==> NextState(s, PowerPelletWearOff, direction, now) == s
    ensures s.Fleeing? ==> NextState(s, StartFlickering, direction, now) == Flickering(now, direction, false)
    ensures !s.Fleeing? ==> NextState(s, StartFlickering, direction, now) == s
  {
  }

  /** An eaten ghost leaves only when it reaches the base, and then
      scatters; an idle ghost leaves only on Scatter. */
  lemma WaitingStates(s: GhostStateValue, e: StateEvent, direction: Direction, now: real)
    ensures s.Eaten? ==>
      (NextState(s, e, direction, now) != s <==> e == ReachBase)
      && (e == ReachBase ==> NextState(s, e, direction, now) == Scattering(now, direction, false))
    ensures s.Idle? ==>
      (NextState(s, e, direction, now) != s <==> e == Scatter)
      && (e == Scatter ==> NextState(s, e, direction, now) == Scattering(now, direction, false))
  {
  }

  /** Chase is entered only from Scatter, on ChasePacman. */
  lemma ChaseOnlyFromScatter(s: GhostStateValue, e: StateEvent, direction: Direction, now: real)
    requires !s.Chasing?
    ensures NextState(s, e, direction, now).Chasing? <==> s.Scattering? && e == ChasePacman
  {
  }

  /** The tick rate follows the state entered and is untouched when no
      transition fires. */
  lemma SpeedFollowsState(s: GhostStateValue, e: StateEvent, direction: Direction, now: real, speed: int)
    ensures var n := NextState(s, e, direction, now);
      && (e !in Transitions(s.Kind()) ==> NextSpeed(s, e, speed) == speed)
      && (e in Transitions(s.Kind()) ==>
            && ((n.Scattering? || n.Chasing?) ==> NextSpeed(s, e, speed) == DefaultGhostFPS)
            && ((n.Fleeing? || n.Flickering?) ==> NextSpeed(s, e, speed) == FleeingGhostFPS)
            && (n.Eaten? ==> NextSpeed(s, e, speed) == EatenGhostFPS))
  {
  }

  /** The retreat audio plays exactly while the ghost is eaten: it starts
      on entering Eaten, stops on leaving it, and nothing else touches it.
      A power pellet never plays anything. */
  lemma RetreatAudio(s: GhostStateValue, e: StateEvent, direction: Direction, now: real)
    ensures var n := NextState(s, e, direction, now);
      && (!s.Eaten? && n.Eaten? <==> ChangeLog(s, e) == [LoopStarted(Retreating)])
      && (s.Eaten? && !n.Eaten? <==> ChangeLog(s, e) == [LoopStopped])
      && ((s.Eaten? == n.Eaten?) ==> ChangeLog(s, e) == [])
    ensures ChangeLog(s, PowerPelletEaten) == []
  {
    var table := Transitions(s.Kind());
    var n := NextState(s, e, direction, now);
    assert s.Eaten? <==> s.Kind() == EatenState;
    assert n.Eaten? <==> n.Kind() == EatenState;
    if e in table {
      assert n.Kind() == table[e];
      if s.Eaten? {
        assert table == map[ReachBase := ScatterState];
        assert ChangeLog(s, e) == [LoopStopped];
        assert ChangeLog(s, e)[0] != LoopStarted(Retreating);
      }
    } else {
      assert n == s;
    }
  }
}
