# Multithreaded Pac-Man, modelled in Dafny

This project models the game logic of MultithreadedPacman, a Go Pac-Man.
Each character in that game runs in its own goroutine. The model covers:

- the maze: a grid of tiles, each a stack of game objects. Two versions
  exist (src/structures and src/models), plus the first, one-object-per-cell
  version at the repository's root.
- the collision detector. It lists the moves open to a character and finds
  the object it would run into.
- the four ghosts' chase targets and the turn rule that steers a ghost
  towards a target or away from it.
- the ghost state machine: Idle, Scatter, Chase, Fleeing, Flickering and
  Eaten, with its transition tables, speeds and sound changes.
- Pac-Man's state machine, keyboard selection, pellet eating and ghost
  eating.
- the walls, bars and pellets and what each allows.
- the animation and sound cycles.
- the level: parsing a layout into a maze, spawning the ghosts at their
  base, and the level's reactions to phase changes and eaten pellets.
- the integer helpers and the game's constants.

Modules follow the source's packages and files:

| module | file | source |
|---|---|---|
| MathUtil | math.dfy | src/utils/math.go |
| Constants | constants.dfy | src/constants/index.go |
| Geometry | geometry.dfy | src/structures/geometry.go |
| TileStack | stacks.dfy | shared value view of both groups |
| StructuresGroup | structures_group.dfy | src/structures/gameObjects.go |
| ModelsGroup | models_group.dfy | src/models/gameObjectGroup.go |
| Grid | grid.dfy | tile-grid helpers for src/structures/maze.go |
| StructuresMaze | structures_maze.dfy | src/structures/maze.go |
| ModelsMaze | models_maze.dfy | src/models/maze.go |
| LegacyMaze | legacy_maze.dfy | maze.go |
| Occupants | occupants.dfy | src/models/wall.go, bars.go, pellet.go |
| Collision | collision.dfy | src/modules/collisionDetector.go |
| ChaseTargets | chase.dfy | src/models/chaseBehavior.go |
| GhostStates | ghost_states.dfy | src/models/ghostStates.go (tables, speeds) |
| GhostMoves | ghost_moves.dfy | the turn rule of src/models/ghost.go and the per-state tick effects |
| PacmanStates | pacman_states.dfy | src/models/pacmanStates.go, key selection |
| Models | entities.dfy | the Ghost and Pacman objects |
| Events | events.dfy | broker channel sends and sound-player calls |
| Sequences | sequences.dfy | src/structures/sequences.go, src/modules/spriteSequence.go |
| LevelLayout | level_layout.dfy | the layout-to-maze rules of src/screens/level.go |
| Screens | level.dfy | the Level object of src/screens/level.go |

Objects whose fields the source updates in place are classes:

- the groups, mazes and positions;
- the ghost and Pac-Man;
- the sprite and sound sequences;
- the level.

Their methods are proved against functions on values, and those functions
carry the lemmas. Game objects are a closed datatype. Walls, bars and
pellets carry their data. Pac-Man and the ghosts are handles, identified
by an id.

Where a comment and the code disagree, the model follows the code.
Clyde's doc comment speaks of a distance of 5, but the code compares
against 3 (src/models/chaseBehavior.go:60-64).

## Model

| member | source | states |
|---|---|---|
| MathUtil.GoRem | src/utils/math.go:5 | Go's truncating `%`: the result takes the dividend's sign, is smaller than the divisor in magnitude, and differs from the dividend by a multiple of the divisor |
| MathUtil.Mod | src/utils/math.go:4-10 | the result lies in [0, m) for a positive m and in (m, 0] for a negative m, and is congruent to d modulo m; a zero m is refused. The private mod of src/models/maze.go:18-24 and of maze.go:15-21 is the same function |
| MathUtil.ModIsEuclidean | src/utils/math.go:5-9 | for a positive divisor, Mod agrees with the Euclidean remainder |
| MathUtil.ModOfResidue | src/utils/math.go:5-9 | a value already in [0, m) is left unchanged |
| Constants.OppositeIsNegation | src/constants/index.go:178-180 | IsOpposite holds exactly when the other direction is the negation of this one, so it is symmetric |
| Constants.OppositePairs | src/constants/index.go:186-200 | among the four possible moves, two are opposite exactly when they are the distinct members of the pair Up/Down or Left/Right |
| Constants.StaticOpposition | src/constants/index.go:178-191 | DirStatic is its own opposite and neither opposes nor is opposed by any possible move |
| Constants.PossibleDirectionsAreUnitMoves | src/constants/index.go:195-200 | there are four possible moves, pairwise distinct, each a unit step along one axis |
| Constants.LayerOrder | src/constants/index.go:31-38 | walls lie above bars, bars above ghosts, ghosts above Pac-Man, Pac-Man above fleeing ghosts, and those above pellets |
| Constants.SpeedOrder | src/constants/index.go:14-20 | fleeing ghosts are slower than normal ghosts, eaten ghosts are faster, and powered Pac-Man is faster than normal |
| Constants.FlickerWindow | src/constants/index.go:23-28 | the flickering warning is shorter than the power pellet's duration, leaving five seconds of plain fleeing |
| Geometry.DistanceTo | src/interfaces/general.go:14 | the (squared) distance between two tiles is a natural number, zero exactly when they coincide |
| Geometry.DistanceSymmetric | src/structures/geometry.go:34 | distance does not depend on the order of its arguments |
| Geometry.Position.constructor | src/structures/geometry.go:30-32 | a new position holds the given coordinates |
| Geometry.Position.SetX | src/structures/geometry.go:20-22 | x takes the given value and y is kept |
| Geometry.Position.SetY | src/structures/geometry.go:25-27 | y takes the given value and x is kept |
| TileStack.IndexOf | src/structures/gameObjects.go:10-18 | -1 exactly when the object is absent; otherwise an index holding it with no occurrence before it |
| TileStack.FirstOccurrence | src/models/gameObjectGroup.go:10-18 | an index holding the object with none before it is the one IndexOf returns |
| TileStack.RemoveAt | src/models/gameObjectGroup.go:24-26 | one element fewer: those before the index are kept, those after it move down by one |
| TileStack.Top | src/structures/gameObjects.go:31-36 | nothing exactly when the stack is empty, otherwise its last element |
| TileStack.Pop | src/models/gameObjectGroup.go:36-38 | the stack minus its last element, which put back gives the stack again; an empty stack stays empty |
| TileStack.RemoveFirstDeletesOne | src/structures/gameObjects.go:21-28 | removing a present object drops its first occurrence and keeps the rest in order: the length falls by one and the multiset loses that object once |
| TileStack.PushThenRemove | src/structures/gameObjects.go:46-48 | pushing an absent object and then removing it restores the stack |
| TileStack.TopOfPush | src/structures/gameObjects.go:46-48 | after a push the pushed object is on top, and popping it restores the stack |
| StructuresGroup.GameObjectGroup.constructor | src/structures/gameObjects.go:51-56 | a new group is empty |
| StructuresGroup.GameObjectGroup.FindIndex | src/structures/gameObjects.go:10-18 | the search loop returns IndexOf: -1 exactly when absent, else the first position of the object |
| StructuresGroup.GameObjectGroup.RemoveElement | src/structures/gameObjects.go:21-28 | the first occurrence is removed, the rest kept in order; the result is true exactly when the object was present, and false leaves the group unchanged |
| StructuresGroup.GameObjectGroup.ElementOnTop | src/structures/gameObjects.go:31-36 | nothing exactly when the group is empty, else its last element |
| StructuresGroup.GameObjectGroup.Elements | src/structures/gameObjects.go:39-43 | the contents, bottom first |
| StructuresGroup.GameObjectGroup.AddElement | src/structures/gameObjects.go:46-48 | the object is appended and becomes the element on top |
| ModelsGroup.GameObjectGroup.constructor | src/models/gameObjectGroup.go:54-59 | a new group is empty |
| ModelsGroup.GameObjectGroup.FindIndex | src/models/gameObjectGroup.go:10-18 | the search loop returns IndexOf: -1 exactly when absent, else the first position |
| ModelsGroup.GameObjectGroup.RemoveByIndex | src/models/gameObjectGroup.go:20-27 | an index out of range returns nil and changes nothing; otherwise the element there is returned and removed, the others kept in order |
| ModelsGroup.GameObjectGroup.RemoveElement | src/models/gameObjectGroup.go:30-33 | the first occurrence is removed, and the result is true exactly when the object was present |
| ModelsGroup.GameObjectGroup.RemoveTopElement | src/models/gameObjectGroup.go:36-38 | the old top is returned and dropped; an empty group returns nil and stays empty |
| ModelsGroup.GameObjectGroup.ElementOnTop | src/models/gameObjectGroup.go:41-46 | nothing exactly when the group is empty, else its last element |
| ModelsGroup.GameObjectGroup.AddElement | src/models/gameObjectGroup.go:49-51 | the object is appended and becomes the element on top |
| Grid.EmptyRow | src/structures/maze.go:85-88 | a new row has the given width and only empty tiles |
| Grid.SetAt | src/structures/maze.go:74-75 | rewriting one tile keeps the shape of the grid and every other tile |
| Grid.Destination | src/structures/maze.go:36-37 | the tile one step away lies inside the grid and is congruent to the raw step in both coordinates |
| Grid.DestinationInside | src/modules/collisionDetector.go:25-26 | a step that stays inside the grid is not wrapped |
| Grid.DestinationWraps | src/structures/maze.go:36-37 | stepping right off the last column lands on column 0 of the same row, and stepping left off column 0 lands on the last column |
| Grid.Moved | src/structures/maze.go:25-45 | a move never changes the shape of the grid |
| Grid.MovedAbsent | src/structures/maze.go:29-33 | moving an object that is not on its tile changes nothing |
| Grid.MovedTopAndFrame | src/structures/maze.go:38-44 | after a move the object is on top of the destination, and every tile other than the source and the destination is unchanged |
| Grid.MovedBetween | src/structures/maze.go:29-43 | between two distinct tiles the source loses the object's first occurrence; the destination loses its top when deletion is asked, then gains the object |
| Grid.MovedConserves | src/structures/maze.go:29-43 | a move without deletion keeps the multiset of occupants of the two tiles |
| StructuresMaze.Maze.RectangularLands | src/structures/maze.go:36-38 | on a full rectangular maze, every step from every tile lands on a tile |
| StructuresMaze.Maze.constructor | src/structures/maze.go:95-103 | a new maze has no rows, no columns and no tiles |
| StructuresMaze.Maze.Dimensions | src/structures/maze.go:20-22 | the width and height; the height counts the rows and every non-empty row is as wide as the width |
| StructuresMaze.Maze.ElementsAt | src/structures/maze.go:48-54 | nil exactly when the position lies outside the rows and columns; otherwise the tile's group, whose contents are that tile |
| StructuresMaze.Maze.AddElement | src/structures/maze.go:69-77 | an error, with no change, exactly when the row or column lies outside the maze; otherwise the object is pushed onto that tile and no other tile changes |
| StructuresMaze.Maze.AddRow | src/structures/maze.go:80-92 | an error, with no change, exactly when a width is established and differs; otherwise one more row of empty tiles, and the width recorded |
| StructuresMaze.Maze.NewGroups | src/structures/maze.go:86-88 | the loop creates the given number of new, pairwise distinct, empty groups |
| StructuresMaze.Maze.RemoveFrom | src/structures/maze.go:27-29 | the object's first occurrence leaves that tile and nothing else changes; the result is true exactly when it was there |
| StructuresMaze.Maze.PushOnto | src/structures/maze.go:38-43 | the tile's top is popped when deletion is asked, then the object is pushed; no other tile changes |
| StructuresMaze.Maze.MoveElement | src/structures/maze.go:25-45 | an element not on its tile changes nothing and keeps its position; otherwise the tiles become Grid.Moved of the old ones towards the wrapped destination, which the element takes as its position |
| ModelsMaze.Maze.constructor | src/models/maze.go:96-104 | a new maze has no rows, no columns and no tiles |
| ModelsMaze.Maze.Dimensions | src/models/maze.go:27-29 | the width and height; the height counts the rows and every non-empty row is as wide as the width |
| ModelsMaze.Maze.AddElement | src/models/maze.go:70-78 | only the upper bounds are checked: an error, with no change, exactly when the row or column reaches its bound; otherwise the object is pushed onto that tile |
| ModelsMaze.Maze.AddRow | src/models/maze.go:81-93 | an error, with no change, exactly when a width is established and differs; otherwise one more row of empty tiles, and the width recorded |
| ModelsMaze.Maze.NewGroups | src/models/maze.go:87-89 | the loop creates the given number of new, pairwise distinct, empty groups |
| ModelsMaze.Maze.RemoveFrom | src/models/maze.go:38-42 | the object's first occurrence leaves that tile and nothing else changes; the result is true exactly when it was there |
| ModelsMaze.Maze.PushOnto | src/models/maze.go:47-52 | the tile's top is popped when deletion is asked, then the object is pushed; no other tile changes |
| ModelsMaze.Maze.MoveElement | src/models/maze.go:32-55 | anything but Pac-Man changes nothing; a Pac-Man not on its tile changes nothing either; otherwise Pac-Man is moved as Grid.Moved describes and takes the wrapped destination |
| LegacyMaze.Stepped | maze.go:27-30 | the player's old cell is emptied, the destination holds the player, and every other cell is unchanged |
| LegacyMaze.Maze.constructor | maze.go:61-69 | a new maze has no rows, no columns and no cells |
| LegacyMaze.Maze.MoveElement | maze.go:24-36 | a cell without the player changes nothing; otherwise the cells become Stepped towards the wrapped destination, and the player records its coordinates |
| LegacyMaze.Maze.AddElement | maze.go:39-46 | an error, with no change, exactly when a coordinate reaches its upper bound; otherwise that one cell is overwritten |
| LegacyMaze.Maze.AddRow | maze.go:49-58 | an error, with no change, exactly when a width is established and differs; otherwise an empty row is appended and the width recorded |
| Occupants.InitWall | src/models/wall.go:55-58 | the wall stands at the given coordinates |
| Occupants.InitBars | src/models/bars.go:55-58 | the bars stand at the given coordinates |
| Occupants.InitPellet | src/models/pellet.go:56-60 | the pellet stands at the given coordinates and keeps its power flag |
| Occupants.WallCapabilities | src/models/wall.go:30-47 | a wall is unmovable, not matrix-editable, faces DirStatic and lies on the wall layer |
| Occupants.BarsCapabilities | src/models/bars.go:30-47 | bars let ghosts through, are not matrix-editable, face DirStatic and lie on the bars layer |
| Occupants.PelletCapabilities | src/models/pellet.go:31-48 | a pellet is neither unmovable nor matrix-editable, faces DirStatic and lies on the pellet layer |
| Occupants.OnlyWallsAreUnmovable | src/models/wall.go:40-42 | an occupant is unmovable exactly when it is a wall |
| Collision.ViableTiles | src/modules/collisionDetector.go:17-39 | the loop over the four directions returns exactly Viable: the moves not skipped as a reversal whose tile is not topped by an unmovable object, each mapped to its wrapped destination |
| Collision.ViableAmongStep | src/modules/collisionDetector.go:21-36 | trying one more direction adds it, with its destination, exactly when it is viable |
| Collision.DetectCollisionIsTopAhead | src/modules/collisionDetector.go:42-55 | the object found is the top of the wrapped tile ahead, nil when that tile is empty |
| Collision.ViableExactly | src/modules/collisionDetector.go:21-35 | a direction is viable exactly when it is one of the four moves, not a skipped reversal, and its tile is not blocked; it maps to its wrapped destination |
| Collision.ViableIffNoCollision | src/modules/collisionDetector.go:31-34 | a move that is not a skipped reversal is viable exactly when what DetectCollision finds that way is not unmovable |
| Collision.NoReversal | src/modules/collisionDetector.go:21-24 | with reversals skipped, the way back is never viable, so at most three moves remain |
| Collision.StandingStill | src/modules/collisionDetector.go:21-22 | a mover facing DirStatic has no reversal to skip, and DetectCollision looks at its own tile |
| ChaseTargets.PinkyTarget | src/models/chaseBehavior.go:27-33 | Pinky's target lies on the board |
| ChaseTargets.InkyTarget | src/models/chaseBehavior.go:44-50 | Inky's target lies on the board |
| ChaseTargets.ClydeTarget | src/models/chaseBehavior.go:61-68 | Clyde has no target exactly when the squared distance to Pac-Man is below 9 (a distance below 3), and otherwise aims at Pac-Man's tile |
| ChaseTargets.StaticTargets | src/models/chaseBehavior.go:31-32 | a Pac-Man standing still is its own Pinky and Inky target |
| ChaseTargets.InkyMirrorsPinky | src/models/chaseBehavior.go:48-49 | Inky's target is Pinky's target for the reversed facing |
| ChaseTargets.PinkyThreeStepsAhead | src/models/chaseBehavior.go:31-32 | Pinky's target is the tile three wrapped steps ahead of Pac-Man |
| GhostStates.ApplyTransition | src/models/ghostStates.go:50-449 | never nil; an event missing from the state's table returns the state itself; a listed one returns a freshly entered state of the listed kind. This is the rule of every state's transition lookup (lines 104-111, 187-194, 274-281, 359-366 and 441-449) |
| GhostStates.AttemptEatPacman | src/models/ghostStates.go:60-454 | true exactly when a scattering or chasing ghost meets Pac-Man; a fleeing, flickering, idle or eaten ghost never catches it |
| GhostStates.NeverEnds | src/models/ghostStates.go:19-34 | whatever the state and the event, ChangeState never reaches EndState |
| GhostStates.OnlyFrightenedGetEaten | src/models/ghostStates.go:338-340 | GhostEaten sends Fleeing and Flickering to Eaten and leaves every other state as it is |
| GhostStates.PowerPelletFrightens | src/models/ghostStates.go:168 | a power pellet sends Scatter, Chase, Fleeing and Flickering to a freshly entered Fleeing; Idle and Eaten ignore it |
| GhostStates.FrightEnds | src/models/ghostStates.go:421-423 | wearing off sends Flickering to Scatter and nothing else moves; StartFlickering sends Fleeing to Flickering and nothing else moves |
| GhostStates.WaitingStates | src/models/ghostStates.go:85 | an idle ghost leaves only on Scatter and an eaten one only on ReachBase, both into Scatter |
| GhostStates.ChaseOnlyFromScatter | src/models/ghostStates.go:167 | a ghost not chasing starts chasing exactly when it is scattering and receives ChasePacman |
| GhostStates.SpeedFollowsState | src/models/ghostStates.go:158 | the tick rate is untouched when no transition fires; otherwise it is 6 for Scatter and Chase, 4 for Fleeing and Flickering, 12 for Eaten |
| GhostStates.RetreatAudio | src/models/ghostStates.go:441-449 | the retreat loop starts exactly on entering Eaten and stops exactly on leaving it; no other change makes an audio call, and a power pellet makes none |
| GhostMoves.BestStep | src/models/ghost.go:83-94 | looking at one more move keeps the running best, taking the move over when it is strictly better |
| GhostMoves.BestDone | src/models/ghost.go:83-101 | once every move has been looked at, the running best is TurnChoice's pick |
| GhostMoves.TurnChangesToViable | src/models/ghost.go:74-101 | on a board of realistic size, a turn that changes the facing picks a viable move |
| GhostMoves.PhaseAfter | src/models/ghostStates.go:229-234 | the chase phase rises by one exactly when it is below the infinite phase and the chase has lasted longer than its duration, and never passes the infinite phase |
| Models.Ghost.constructor | src/models/ghost.go:182-192 | a new ghost is alive, has no state yet, has its kind, idle time and position, phase 0, the default speed, the ghost layer, and a random one of the four moves as its facing |
| Models.Ghost.PickRandomDirection | src/models/ghost.go:33-37 | the direction is one of the four moves |
| Models.Ghost.Start | src/models/ghost.go:123 | the ghost enters Idle at the given time |
| Models.Ghost.TurnTowards | src/models/ghost.go:60-102 | the new facing is TurnChoice's pick among the viable moves; nothing but the facing changes |
| Models.Ghost.SwitchDirectionBlinky | src/models/chaseBehavior.go:16-18 | Blinky turns towards Pac-Man's tile, without reversing |
| Models.Ghost.SwitchDirectionPinky | src/models/chaseBehavior.go:27-35 | Pinky turns towards PinkyTarget, without reversing |
| Models.Ghost.SwitchDirectionInky | src/models/chaseBehavior.go:44-52 | Inky turns towards InkyTarget, without reversing |
| Models.Ghost.SwitchDirectionClyde | src/models/chaseBehavior.go:61-69 | Clyde turns towards ClydeTarget, or towards any viable move when it has none, without reversing |
| Models.Ghost.Select | src/models/ghost.go:66-101 | the loop over the viable moves, in any order, ends with a move satisfying TurnChoice |
| Models.Ghost.ChangeState | src/models/ghost.go:105-110 | the state becomes ApplyTransition's result, the tick rate the one the entered state sets, and the audio calls ChangeLog lists are made |
| Models.Ghost.AttemptEatPacman | src/models/ghost.go:113-115 | the answer is the state's AttemptEatPacman; a frightened ghost meeting Pac-Man is eaten instead (200 points, the eat-ghost sound, GhostEaten), and nothing else changes otherwise |
| Models.Ghost.MeetAhead | src/models/ghostStates.go:132-143 | a wall ahead turns the ghost at random where it stands; anything else is stepped onto; the ghost is eaten exactly when it is frightened and Pac-Man is ahead |
| Models.Ghost.MeetPlayer | src/models/ghostStates.go:136-139 | after the eat attempt the ghost steps onto Pac-Man's tile, and is eaten exactly when frightened |
| Models.Ghost.StepOn | src/models/ghostStates.go:141-142 | the ghost moves one step as Grid.Moved describes and its sprites advance |
| Models.Ghost.Roam | src/models/ghostStates.go:127-145 | unless it turned on the previous tick the ghost turns; a changed facing only turns, otherwise the tile ahead is met; the results tell whether the facing changed and whether the ghost was eaten |
| Models.Ghost.Settle | src/models/ghostStates.go:144-148 | the state's fields are written back unless the ghost was eaten, and the timer event fires when due, through ChangeState |
| Models.Ghost.RunIdle | src/models/ghostStates.go:65-70 | the sprites advance, and once the idle time has passed the ghost enters Scatter |
| Models.Ghost.RunScatter | src/models/ghostStates.go:126-149 | the ghost roams with no target, records its facing, and enters Chase once the scatter duration has passed |
| Models.Ghost.RunChase | src/models/ghostStates.go:209-235 | the ghost roams towards Pac-Man, and once the chase duration has passed below the infinite phase the phase rises, is announced, and the ghost scatters |
| Models.Ghost.EndChase | src/models/ghostStates.go:228-234 | the phase becomes PhaseAfter of the old one; when it rises it is announced and the ghost scatters |
| Models.Ghost.RunFleeing | src/models/ghostStates.go:294-319 | the ghost runs away from Pac-Man, reversing only on its first turn; it is eaten on contact with Pac-Man, and starts flickering once the plain fright has lasted its time |
| Models.Ghost.RunFlickering | src/models/ghostStates.go:379-403 | the ghost runs away without reversing, is eaten on contact with Pac-Man, and the pellet wears off after the flickering time |
| Models.Ghost.RunEaten | src/models/ghostStates.go:457-475 | the ghost heads for its base, meeting the tile ahead on every tick, and scatters again once it stands on the base |
| Models.Ghost.Retreat | src/models/ghostStates.go:458-470 | an eaten ghost turns towards the base and meets the tile ahead; its state, speed, score and sounds are untouched |
| Models.Pacman.constructor | src/models/pacman.go:155-164 | a new Pac-Man has score 0, no state yet, the default speed, faces left with left as its key direction, and stands at the given position |
| Models.Pacman.Start | src/models/pacman.go:95 | Pac-Man enters Walking with its current facing, and the key listener's clock starts |
| Models.Pacman.PollKeys | src/models/pacman.go:35-52 | a held key is adopted and restarts the clock; with none held, the key direction is dropped once more than 150 ms have passed |
| Models.Pacman.ChangeState | src/models/pacman.go:58-63 | Walking lists no event, so the state never changes |
| Models.Pacman.EatPellet | src/models/pacman.go:66-78 | the munch sound, the pellet removed from its tile, its power flag sent, and 50 points for a power pellet, 10 otherwise |
| Models.Pacman.EatGhost | src/models/pacman.go:81-87 | 200 points, the eat-ghost sound, and the ghost's ChangeState(GhostEaten) |
| Models.Pacman.HandleCollisions | src/models/pacmanStates.go:47-65 | the facing becomes Settled: a wall ahead after a turn takes the previous facing back; then a wall changes nothing, a pellet is eaten by the move, and anything else is walked onto |
| Models.Pacman.MeetOpen | src/models/pacmanStates.go:55-63 | with no wall ahead, a pellet is eaten by the move and anything else is walked onto |
| Models.Pacman.Munch | src/models/pacmanStates.go:55-60 | the munch sound, a move that drops the top of the tile ahead, a sprite advance and the EatPellet signal |
| Models.Pacman.StepOn | src/models/pacmanStates.go:61-63 | Pac-Man moves one step as Grid.Moved describes and its sprites advance |
| Models.Pacman.RunWalking | src/models/pacmanStates.go:68-74 | the held key's direction is adopted, the collision ahead is handled, and Walking records the facing used |
| Models.Settled | src/models/pacmanStates.go:50-54 | the facing kept is the current one, or the previous one exactly when a wall is ahead after a turn |
| PacmanStates.Instance | src/models/pacmanStates.go:10-23 | a state exactly for WalkingState, remembering the given facing; nil otherwise |
| PacmanStates.ApplyTransition | src/models/pacmanStates.go:38-45 | an event missing from the table returns the state itself |
| PacmanStates.WalkingIgnoresEvents | src/models/pacmanStates.go:86-90 | Walking's table is empty, so every event returns Walking unchanged |
| PacmanStates.ReactionTo | src/models/pacmanStates.go:49-64 | a wall ahead blocks, a pellet ahead is munched, and anything else, or nothing, is a plain step |
| PacmanStates.Adopted | src/models/pacmanStates.go:69-71 | the key direction is adopted unless it is DirStatic |
| PacmanStates.KeySelection | src/models/pacman.go:35-47 | nothing exactly when no arrow key is held; otherwise Up wins over Down, Down over Right, Right over Left |
| PacmanStates.SelectedKeyIsAMove | src/models/pacman.go:35-47 | a selected key is one of the four moves, never DirStatic |
| Sequences.Next | src/structures/sequences.go:16 | the cursor stays below the length, moves one place, and wraps from the last item to the first |
| Sequences.AdvancedIsShift | src/structures/sequences.go:15-17 | k advances move the cursor k places modulo the length |
| Sequences.FullCycle | src/structures/sequences.go:15-17 | as many advances as there are items bring the cursor back |
| Sequences.SpriteSequence.constructor | src/structures/sequences.go:25-29 | a new sequence holds the frames in order and shows the first |
| Sequences.SpriteSequence.Advance | src/structures/sequences.go:15-17 | the frame on show becomes Next of the old one; the frames are kept |
| Sequences.SpriteSequence.GetCurrentFrame | src/structures/sequences.go:20-22 | the frame returned is one of the sequence's frames |
| Sequences.SoundSequence.constructor | src/structures/sequences.go:59-65 | a new sequence holds the files in order with the first current |
| Sequences.SoundSequence.Advance | src/structures/sequences.go:49-51 | the current file becomes Next of the old one; the files are kept |
| Sequences.SoundSequence.GetCurrentAudio | src/structures/sequences.go:54-56 | the file returned is one of the sequence's files |
| LevelLayout.SymbolTable | src/screens/level.go:47-104 | '#' and the base letters B, P, I, C make walls (the letters also record their ghost's base), '|' bars, 'S' Pac-Man, 'G' the ghosts' spawn, '.' a pellet and '@' a power pellet; every other character places nothing |
| LevelLayout.BaseColours | src/screens/level.go:35-40 | B, P, I and C record the bases of the red, pink, cyan and orange ghosts |
| LevelLayout.Spawns | src/screens/level.go:80-92 | a 'G' creates as many ghosts as requested, none for a count below one |
| LevelLayout.Handles | src/screens/level.go:94-96 | the handles of the enemies, in the same order |
| LevelLayout.CellStepKeepsShape | src/screens/level.go:47-104 | placing one character never changes the number of rows or columns or the width of any row |
| LevelLayout.CellsKeepShape | src/screens/level.go:46-105 | placing the characters of a line never changes the shape of the maze |
| LevelLayout.EvenLinesMakeFullMaze | src/screens/level.go:43-46 | lines that all have the same positive width give one full row of that width per line |
| LevelLayout.RaggedLineDropped | src/screens/level.go:45 | a line whose width differs from the established one adds no row, and its characters change no tile |
| LevelLayout.CellsUnplaced | src/screens/level.go:46-105 | the characters of a line whose row was refused change no tile |
| LevelLayout.PushedFromStacks | src/screens/level.go:94-97 | the reverse loop stacks the ghosts on the spawn tile last one first, so the first ends on top; no other tile changes |
| LevelLayout.SpawnPutsFirstOnTop | src/screens/level.go:73-97 | after a 'G' the enemies are n more, the tile is the ghosts' home, all enemies so far are stacked on it in reverse, and the first enemy is on top |
| LevelLayout.SpawnsCycle | src/screens/level.go:74-86 | the ghosts of a 'G' cycle through Blinky, Pinky, Inky and Clyde, each idling one spawn interval longer than the one before, with consecutive ids |
| Screens.EnemyCountError | src/screens/level.go:167-173 | no error exactly when there are between 1 and 8 enemies; otherwise the source's message for too few or too many |
| Screens.Roster | src/screens/level.go:80-92 | the enemies as values, one per ghost and in the same order |
| Screens.Level.constructor | src/screens/level.go:174-185 | a new level is at phase 0 with no enemies, no player, no ghost bases and no home |
| Screens.Level.NewLevel | src/screens/level.go:166-193 | the enemy-count error and no level, or a level at phase 0 whose board is Parsed from the lines |
| Screens.Level.ParseLevel | src/screens/level.go:27-113 | a new maze whose board is Parsed from the lines, the phase untouched |
| Screens.Level.ParseRows | src/screens/level.go:43-105 | the loop over the lines, on a maze with no rows yet, builds the board Rows describes for all of them |
| Screens.Level.ParseRow | src/screens/level.go:43-46 | one more line: its row, then its characters, as Rows describes |
| Screens.Level.ParseLine | src/screens/level.go:46-105 | the loop over the characters places them as Cells describes |
| Screens.Level.PlaceNext | src/screens/level.go:46-47 | one more character, as Cells describes |
| Screens.Level.PlaceCell | src/screens/level.go:47-104 | the character's case of the switch, as CellStep describes |
| Screens.Level.PlaceWall | src/screens/level.go:48-57 | a new wall on the tile, and the ghost's base recorded for a base letter |
| Screens.Level.PlacePlayer | src/screens/level.go:64-72 | a new Pac-Man, standing on the tile's column and row, is pushed onto the tile and becomes the main player; the enemies are untouched |
| Screens.Level.PlaceFixed | src/screens/level.go:58-63 | a new occupant, with the next id, pushed onto the tile |
| Screens.Level.Put | src/screens/level.go:57 | the maze's AddElement on the board, its error dropped |
| Screens.Level.Spawn | src/screens/level.go:73-97 | the 'G' case as SpawnStep describes: new ghosts, the home, and every enemy stacked on the tile; the earlier enemies keep their places and every added ghost is a new object standing on the tile |
| Screens.Level.Hatch | src/screens/level.go:80-93 | the new ghosts join the enemies and the tile becomes their home, as Hatched describes; the earlier enemies keep their places and every added ghost is a new object standing on the tile |
| Screens.Level.CreateGhosts | src/screens/level.go:80-92 | the creation loop appends the Spawns roster to the enemies and moves the id counter past it; the earlier enemies keep their places, and every added ghost is a new, not yet started object standing on (col, row) |
| Screens.Level.NewGhost | src/screens/level.go:81-91 | one InitGhost: a new, not yet started ghost on (col, row), of the i-th kind modulo 4, idle for i spawn intervals, named by the next id and appended to the enemies |
| Screens.Level.PushEnemies | src/screens/level.go:94-97 | the reverse loop pushes every enemy onto the tile, as PushedFrom describes |
| Screens.Level.StartSiren | src/screens/level.go:126-133 | the siren of the current phase starts on loop |
| Screens.Level.OnPhaseChange | src/screens/level.go:140-144 | only a later phase is adopted, the phase never decreases, and the new phase's siren replaces the background |
| Screens.Level.OnEatPellet | src/screens/level.go:145-152 | an ordinary pellet changes nothing; a power pellet switches the background to the power-pellet sound and sends PowerPelletEaten to every enemy; only the ghosts' state and speed may change, so their facing, phase, sprites and liveness are kept |
| Screens.Level.Frighten | src/screens/level.go:149-151 | every ghost, in order, takes ChangeState(PowerPelletEaten) with its unchanged facing, and their audio calls are made in that order; only state and speed are written |
| Screens.Level.OnPowerPelletWoreOff | src/screens/level.go:153-154 | the current phase's siren comes back |

## Left out

- Concurrency is not modelled. The goroutines, mutexes and `Run` loops
  (the ghosts', Pac-Man's, the key listener's and the level's) are out.
  Each tick is one method call. `isAlive` and `keepRunning` are never read.
- The message broker's channels and the sound player are an append-only
  `Events.EventLog`. Audio decoding and playback are not modelled.
- The current time is a parameter `now`: seconds for a ghost tick and
  milliseconds for a key poll. Each ghost state records when it was entered
  (`createdAt`), and its timers compare `now - createdAt` with their
  durations.
- Randomness is a nondeterministic choice. That covers `rand` in
  pickRandomDirection and turnTowards, and Go's map iteration order.
- Drawing is not modelled: Draw, GetSprite, orientedSprite, the animator,
  the menu, and the loading and game-over screens. A sprite is named by
  its file. advanceSprites and the player's sprite advance are a tick
  counter.
- Loading assets and opening the level file are not modelled, nor are
  their errors. The level is given as its lines, and each character is a
  column.
- Screens.Level.NewLevel, Screens.Level.ParseLevel and LevelLayout.Rows
  match the source only for ASCII layouts. Go's `len(line)` and
  `range line` count bytes, so a line with a multi-byte character has a
  wider row and shifted columns there than in the model.
- AttachCollisionDetector and the detector object are not modelled. The
  detector's two operations are functions of the maze and the mover.
- The interfaces, the game context, the controller, the direction helper
  and the message broker are not modelled. The context's maze, ghost base,
  ghost home and main player are fields of Screens.Level or parameters.
- The first version's food.go, pacman.go, wall.go and level.go are not
  part of this model. Its Pacman has no x or y fields, yet maze.go assigns
  them; LegacyMaze.Player carries them.
- Distances are squared integers. DistanceTo is declared but never
  defined in the source. The square keeps every comparison, so
  turnTowards's sentinels are squared too, and Clyde's bound of 3 is 9.
- Occupants.GameObject.IsUnmovable is false for bars, Pac-Man and the
  ghosts, which declare no IsUnmovable.
- GhostStates.Transitions reads the undeclared constants.EatGhost as
  GhostEaten, the event that Pacman.EatGhost sends.
- Collision.ViableTiles takes the blockReverse flag that ghost.go:61
  passes. The detector declares no parameter. With the flag set, the
  behaviour is the declared one.
- Models.Pacman.EatPellet removes the pellet from the tile at its own
  position. The source calls a RemoveElement the maze does not declare.
- StructuresMaze.Maze.PushOnto pops the top of a tile itself. The
  structures group declares no RemoveTopElement, so the pop follows the
  models group's.
- StructuresMaze.Maze.MoveElement and ModelsMaze.Maze.MoveElement
  require the element's tile to exist, and, once the element (for
  ModelsMaze only Pac-Man) is found there, the tile it steps to to lie on
  a full row. The source indexes both without checks and panics otherwise.
- StructuresMaze.Maze.MoveElement, ModelsMaze.Maze.MoveElement,
  LegacyMaze.Maze.MoveElement and GhostStates.AttemptEatPacman do not
  model the source's console output: "Could not find element to move"
  (src/structures/maze.go:31, src/models/maze.go:40), "Not pacman"
  (maze.go:34) and "Pacman dead" (src/models/ghostStates.go:120, 203).
- LegacyMaze.Maze.MoveElement requires the player's destination row to be
  full, for the same reason.
- StructuresMaze.Maze.AddRow, ModelsMaze.Maze.AddRow and
  LegacyMaze.Maze.AddRow require a non-negative width, because a negative
  `make` length panics.
- ModelsMaze.Maze.AddElement and LegacyMaze.Maze.AddElement require
  non-negative indices and, within the bounds, a full row. The source
  checks only the upper bounds and panics otherwise.
- StructuresMaze.Maze.ElementsAt and StructuresMaze.Maze.AddElement
  require an in-range row to be full. A zero-width row, which AddRow
  accepts before any width is established, would panic in the source.
  The same rectangular-maze assumption stands in the OnBoard requires of
  the Models.Ghost and Models.Pacman tick methods and in
  Collision.ViableTiles: a level file with an empty line before its first
  non-empty one has a zero-width row, and the model does not cover
  movers on such a maze.
- Sequences.SpriteSequence.Advance and Sequences.SoundSequence.Advance
  require a non-empty sequence. An empty one is a division by zero in the
  source.
- Screens.Level.StartSiren, Screens.Level.OnPhaseChange and
  Screens.Level.OnPowerPelletWoreOff require the phase to index the siren
  list. Anything else is an index panic in the source.
- Models.Pacman.EatPellet and Models.Pacman.EatGhost: the score is a
  `nat`. The source's unsigned wrap-around is not modelled.
- Sequences.SpriteSequence.GetCurrentFrame and
  Sequences.SoundSequence.GetCurrentAudio promise only that the result
  belongs to the sequence.
- ChaseTargets.PinkyTarget and ChaseTargets.InkyTarget promise only that
  the target lies on the board. Their meaning is in
  ChaseTargets.PinkyThreeStepsAhead and ChaseTargets.InkyMirrorsPinky.
- Object identity is an id handed out by the level's counter, not a Go
  memory address.
- Screens.Level.NewLevel does not promise where the movers stand, that
  the enemies are distinct objects, or that they are new. The board
  records a mover by its id only. Screens.Level.CreateGhosts,
  Screens.Level.Spawn and Screens.Level.PlacePlayer state these facts for
  each call; they are not carried through the parsing loops.
- Models.Ghost.AttemptEatPacman, Models.Ghost.MeetPlayer and
  Models.Ghost.MeetAhead credit the 200 points to the `player` they are
  given, the level's main Pac-Man. The source credits the Pac-Man object
  the ghost met. For a layout with a single 'S' the two are the same.
  parseLevel builds one Pac-Man per 'S' and keeps only the last as the
  main player (level.go:64-72); only that one runs. With several 'S', a
  frightened ghost that meets one of the earlier Pac-Men credits that
  object in the source, while the model credits `player`.
