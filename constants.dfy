/** The constant tables of src/constants/index.go. */
module Constants {

  // Board and level limits
  const HorizontalTiles := 27
  const VerticalTiles := 23
  const TileSize := 32
  const MaxGhostsAllowed := 8
  const InfiniteChasePhase := 3
  const TimeBetweenSpawns := 3

  // Ticks per second of each kind of mover
  const DefaultPacmanFPS := 6
  const PowerPacmanFPS := 8
  const DefaultGhostFPS := 6
  const FleeingGhostFPS := 4
  const EatenGhostFPS := 12

  // Durations of the timed phases, in seconds
  const ScatterModeDuration := 7
  const ChaseModeDuration := 20
  const FlickeringStateDuration := 2
  const PowerPelletDuration := 7

  // Draw layers; a higher index is painted over a lower one
  const WallLayerIdx := 6
  const BarsLayerIdx := 5
  const GhostLayerIdx := 4
  const PacmanLayerIdx := 3
  const FleeingGhostLayerIdx := 2
  const PelletLayerIdx := 1

  datatype SoundEffect =
    | MunchEffect | GameStart
    | GhostSirenPhase1 | GhostSirenPhase2 | GhostSirenPhase3 | GhostSirenPhase4
    | PowerPellet | EatGhostEffect | Retreating | DyingEffect | LevelWon | MainTheme

  /** The four ghost personalities, each painted in its own colour. */
  datatype GhostType = Blinky | Inky | Pinky | Clyde
  {
    function Colour(): string
    {
      match this
      case Blinky => "red"
      case Inky => "cyan"
      case Pinky => "pink"
      case Clyde => "orange"
    }
  }

  /** Events that drive the transitions of the state machines. */
  datatype StateEvent =
    | Scatter | ChasePacman | PowerPelletEaten | PowerPelletWearOff | StartFlickering
    | GhostEaten | ReachBase | PacManEaten | GameOver | AllPelletsEaten

  datatype GhostState =
    | IdleState | ScatterState | ChaseState | FleeingState | FlickeringState | EatenState | EndState

  datatype PacmanState = WalkingState | PowerState | DeadState | WinState

  /** A unit step on the grid: X grows to the right, Y grows downwards. */
  datatype Direction = Direction(X: int, Y: int)
  {
    predicate IsOpposite(other: Direction)
    {
      X * -1 == other.X && Y * -1 == other.Y
    }
  }

  const DirUp := Direction(0, -1)
  const DirDown := Direction(0, 1)
  const DirLeft := Direction(-1, 0)
  const DirRight := Direction(1, 0)
  const DirStatic := Direction(0, 0)

  /** The directions a mover may take, in the order they are tried. */
  const PossibleDirections: seq<Direction> := [DirUp, DirDown, DirLeft, DirRight]

  /** Opposition is negation of both components, so it is symmetric. */
  lemma OppositeIsNegation(d: Direction, e: Direction)
    ensures d.IsOpposite(e) <==> e == Direction(-d.X, -d.Y)
    ensures d.IsOpposite(e) <==> e.IsOpposite(d)
  {
  }

  /** Among the four moves, Up/Down and Left/Right are the only opposite
      pairs, and no move is opposite to itself. */
  lemma OppositePairs(i: nat, j: nat)
    requires i < |PossibleDirections| && j < |PossibleDirections|
    ensures PossibleDirections[i].IsOpposite(PossibleDirections[j]) <==> (i / 2 == j / 2 && i != j)
  {
  }

  /** The standing direction is its own opposite and opposes no move. */
  lemma StaticOpposition(d: Direction)
    requires d in PossibleDirections
    ensures DirStatic.IsOpposite(DirStatic)
    ensures !d.IsOpposite(DirStatic) && !DirStatic.IsOpposite(d)
  {
  }

  /** PossibleDirections lists four distinct unit moves. */
  lemma PossibleDirectionsAreUnitMoves()
    ensures |PossibleDirections| == 4
    ensures forall i, j :: 0 <= i < j < 4 ==> PossibleDirections[i] != PossibleDirections[j]
    ensures forall d :: d in PossibleDirections ==>
      (d.X == 0 || d.Y == 0) && (d.X * d.X + d.Y * d.Y == 1)
  {
  }

  /** Layers are strictly ordered from walls down to pellets. */
  lemma LayerOrder()
    ensures WallLayerIdx > BarsLayerIdx > GhostLayerIdx > PacmanLayerIdx > FleeingGhostLayerIdx > PelletLayerIdx > 0
  {
  }

  /** Fleeing ghosts are slower and eaten ghosts faster than normal ones;
      an empowered player is faster than a walking one. */
  lemma SpeedOrder()
    ensures 0 < FleeingGhostFPS < DefaultGhostFPS < EatenGhostFPS
    ensures 0 < DefaultPacmanFPS < PowerPacmanFPS
  {
  }

  /** The flickering warning is shorter than the power pellet, so the plain
      fleeing window before it is positive. */
  lemma FlickerWindow()
    ensures 0 < FlickeringStateDuration < PowerPelletDuration
    ensures PowerPelletDuration - FlickeringStateDuration == 5
  {
  }
}
