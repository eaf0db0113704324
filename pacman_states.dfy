/** The player's state machine of src/models/pacmanStates.go as values,
    and the decisions its Walking tick takes. The tick itself belongs to
    the player, in module Models. */
module PacmanStates {
  import opened Constants
  import opened Wrappers
  import opened Occupants

  /** Walking, the only state the source defines. prevDirection is the
      facing the last tick actually used. */
  datatype PacmanStateValue = Walking(prevDirection: Direction)

  /** The transition table InitWalking fills in: empty. */
  const WalkingTransitions: map<StateEvent, PacmanState> := map[]

  /** getPacmanStateInstance: a Walking state for WalkingState, nil
      (None) for every other kind. */
  function Instance(k: PacmanState, direction: Direction): (r: Option<PacmanStateValue>)
    ensures r.Some? <==> k == WalkingState
    ensures r.Some? ==> r.value.prevDirection == direction
  {
    if k == WalkingState then Some(Walking(direction)) else None
  }

  /** Walking.ApplyTransition: the table is looked up; an event it does
      not list returns the state itself. */
  function ApplyTransition(s: PacmanStateValue, e: StateEvent, direction: Direction)
    : (r: Option<PacmanStateValue>)
    ensures e !in WalkingTransitions ==> r == Some(s)
  {
    if e !in WalkingTransitions then Some(s) else Instance(WalkingTransitions[e], direction)
  }

  /** Walking reacts to no event at all. */
  lemma WalkingIgnoresEvents(s: PacmanStateValue, e: StateEvent, direction: Direction)
    ensures ApplyTransition(s, e, direction) == Some(s)
  {
  }

  /** What handleCollisions does with the element on the tile ahead. */
  datatype Reaction =
    | Blocked   // a wall: no move
    | Munch     // a pellet: move, eating the top of the tile
    | Step      // anything else, or nothing: a plain move

  function ReactionTo(ahead: Option<GameObject>): (r: Reaction)
    ensures r == Blocked <==> ahead.Some? && ahead.value.WallObject?
    ensures r == Munch <==> ahead.Some? && ahead.value.PelletObject?
  {
    match ahead
    case Some(WallObject(_, _)) => Blocked
    case Some(PelletObject(_, _)) => Munch
    case _ => Step
  }

  /** Run adopts the key direction unless no key is held. */
  function Adopted(key: Direction, current: Direction): (d: Direction)
    ensures key != DirStatic ==> d == key
    ensures key == DirStatic ==> d == current
  {
    if key != DirStatic then key else current
  }

  /** keyListener's choice among the held arrow keys: Up over Down over
      Right over Left; None when no arrow key is held. */
  function KeySelection(up: bool, down: bool, right: bool, left: bool): (r: Option<Direction>)
    ensures r.None? <==> !up && !down && !right && !left
    ensures up ==> r == Some(DirUp)
    ensures !up && down ==> r == Some(DirDown)
    ensures !up && !down && right ==> r == Some(DirRight)
    ensures !up && !down && !right && left ==> r == Some(DirLeft)
  {
    if up then Some(DirUp)
    else if down then Some(DirDown)
    else if right then Some(DirRight)
    else if left then Some(DirLeft)
    else None
  }

  /** A selected key is one of the four moves. */
  lemma SelectedKeyIsAMove(up: bool, down: bool, right: bool, left: bool)
    ensures var r := KeySelection(up, down, right, left);
      r.Some? ==> r.value in PossibleDirections && r.value != DirStatic
  {
  }
}
