/** The facing and movement rules of a ghost's tick, on values: the
    selection of turnTowards (src/models/ghost.go), what meeting the tile
    ahead does to the grid, and the combined effect of a tick of each
    ghost state (src/models/ghostStates.go). The ghost class in Models
    is specified against these predicates. */
module GhostMoves {
  import opened Constants
  import opened Geometry
  import opened Occupants
  import opened Wrappers
  import opened MathUtil
  import opened Grid
  import opened Collision
  import GS = GhostStates

  /** turnTowards starts its best distance at float64(math.MaxInt64), that
      is 2^63, when approaching, and at math.MinInt64 when running away.
      Distances here are squared, so the approach sentinel is squared too. */
  const NearestStart: int := 0x4000_0000_0000_0000_0000_0000_0000_0000
  const FarthestStart: int := -0x8000_0000_0000_0000

  /** The direction turnTowards settles on, given the viable moves v and the
      current facing: it keeps the facing when there is no move, or when
      the only move is the facing itself; with no target it takes any
      move; running away it takes a farthest move; approaching it takes a
      nearest move, and falls back to the zero direction DirStatic in the
      (unreachable on a real board) case that no move is nearer than the
      sentinel. */
  predicate TurnChoice(v: map<Direction, Pos>, current: Direction, target: Option<Pos>,
                       runAway: bool, chosen: Direction)
  {
    if |v| == 0 || (|v| == 1 && current in v) then chosen == current
    else if target.None? then chosen in v
    else if runAway then
      chosen in v && forall d :: d in v ==> DistanceTo(v[d], target.value) <= DistanceTo(v[chosen], target.value)
    else if exists d :: d in v && DistanceTo(v[d], target.value) < NearestStart then
      chosen in v && forall d :: d in v ==> DistanceTo(v[chosen], target.value) <= DistanceTo(v[d], target.value)
    else chosen == DirStatic
  }

  /** What turnTowards has established after looking at the moves in
      `visited`, with `best` and `selected` its running best. */
  ghost predicate Best(v: map<Direction, Pos>, visited: set<Direction>, t: Pos, runAway: bool,
                       selected: Direction, best: int)
    requires visited <= v.Keys
  {
    if runAway then
      || (visited == {} && selected == DirStatic && best == FarthestStart)
      || (selected in visited && best == DistanceTo(v[selected], t)
          && forall d :: d in visited ==> DistanceTo(v[d], t) <= best)
    else
      || (selected == DirStatic && best == NearestStart
          && forall d :: d in visited ==> DistanceTo(v[d], t) >= NearestStart)
      || (selected in visited && best == DistanceTo(v[selected], t) && best < NearestStart
          && forall d :: d in visited ==> best <= DistanceTo(v[d], t))
  }

  /** Looking at one more move keeps Best, with that move taken over when
      it is strictly better. */
  lemma BestStep(v: map<Direction, Pos>, visited: set<Direction>, t: Pos, runAway: bool,
                 selected: Direction, best: int, d: Direction)
    requires visited <= v.Keys && d in v && d !in visited
    requires Best(v, visited, t, runAway, selected, best)
    ensures var dist := DistanceTo(v[d], t);
      if (if runAway then dist > best else dist < best)
      then Best(v, visited + {d}, t, runAway, d, dist)
      else Best(v, visited + {d}, t, runAway, selected, best)
  {
  }

  /** Once every move has been looked at, Best is TurnChoice. */
  lemma BestDone(v: map<Direction, Pos>, t: Pos, runAway: bool, selected: Direction, best: int,
                 current: Direction)
    requires Best(v, v.Keys, t, runAway, selected, best)
    requires |v| != 0 && !(|v| == 1 && current in v)
    ensures TurnChoice(v, current, Some(t), runAway, selected)
  {
    if runAway {
      var d :| d in v;
    }
  }

  /** The coordinates of a tile of any board that fits in memory. */
  predicate Small(p: Pos)
  {
    -0x2000_0000_0000_0000 <= p.x <= 0x2000_0000_0000_0000
    && -0x2000_0000_0000_0000 <= p.y <= 0x2000_0000_0000_0000
  }

  lemma SquareBound(a: int, b: int)
    requires -b <= a <= b
    ensures a * a <= b * b
  {
    if a >= 0 {
      MulNonNeg(b - a, b + a);
    } else {
      MulNonNeg(b + a, b - a);
    }
    assert b * b - a * a == (b - a) * (b + a);
  }

  /** Between small tiles the squared distance is below the sentinel. */
  lemma {:induction false} SmallDistance(a: Pos, b: Pos)
    requires Small(a) && Small(b)
    ensures DistanceTo(a, b) < NearestStart
  {
    var m := 0x4000_0000_0000_0000;
    SquareBound(a.x - b.x, m);
    SquareBound(a.y - b.y, m);
    assert m * m + m * m < NearestStart;
  }

  /** Whenever turnTowards changes the facing on a board of small tiles,
      the new facing is one of the viable moves. */
  lemma {:induction false} TurnChangesToViable(v: map<Direction, Pos>, current: Direction,
                                               target: Option<Pos>, runAway: bool, chosen: Direction)
    requires TurnChoice(v, current, target, runAway, chosen) && chosen != current
    requires target.Some? ==> Small(target.value) && forall d :: d in v ==> Small(v[d])
    ensures chosen in v
  {
    if target.Some? && !runAway {
      var d :| d in v;
      SmallDistance(v[d], target.value);
    }
  }

  /** An element ahead that is a wall. */
  predicate IsWall(o: Option<GameObject>)
  {
    o.Some? && o.value.WallObject?
  }

  /** Where an element standing at `from` is after MoveElement to `to`. */
  function MovedTo(t: Tiles, elem: GameObject, from: Pos, to: Pos): Pos
    requires InGrid(t, from)
  {
    if elem in At(t, from) then to else from
  }

  /** A frightened ghost whose facing leads onto the player: it gets eaten. */
  predicate Contact(t: Tiles, cols: int, rows: int, p: Pos, facing: Direction, s: GS.GhostStateValue)
    requires cols > 0 && rows > 0 && InGrid(t, Destination(p, facing, cols, rows))
  {
    var a := Ahead(t, cols, rows, p, facing);
    a.Some? && GS.EatenOnContact(s, a.value)
  }

  /** Whether a ghost that did (skip) or did not turn ended up facing
      `turned`. */
  predicate Turned(t: Tiles, cols: int, rows: int, p: Pos, current: Direction, skip: bool,
                   target: Option<Pos>, runAway: bool, blockReverse: bool, turned: Direction)
    requires Rectangular(t, cols, rows)
  {
    if skip then turned == current
    else TurnChoice(Viable(t, cols, rows, p, current, blockReverse), current, target, runAway, turned)
  }

  /** Chase's phase counter after a tick: it steps up by one when the chase
      has lasted longer than its duration, and never beyond the infinite
      chase phase. */
  function PhaseAfter(phase: int, elapsed: real): (r: int)
    ensures r == phase || r == phase + 1
    ensures r == phase + 1 <==> phase < InfiniteChasePhase && elapsed > ChaseModeDuration as real
    ensures phase <= InfiniteChasePhase ==> r <= InfiniteChasePhase
  {
    if phase < InfiniteChasePhase && elapsed > ChaseModeDuration as real then phase + 1 else phase
  }

  /** What a tick may change about a ghost on the board: the grid, where
      the ghost stands, its facing and its sprite counter. */
  datatype Pose = Pose(tiles: Tiles, at: Pos, facing: Direction, ticks: nat)

  /** The grid side of meeting the tile ahead, for the ghost `h` going from
      pose a, facing `facing`, to pose b: a wall turns it at random where it
      stands; anything else, the player included, is stepped onto and the
      sprites advance. */
  predicate MovedAhead(h: GameObject, a: Pose, cols: int, rows: int, facing: Direction, b: Pose)
  {
    match a
    case Pose(t, p, _, ticks) =>
      && cols > 0 && rows > 0 && InGrid(t, p) && InGrid(t, Destination(p, facing, cols, rows))
      && var to := Destination(p, facing, cols, rows);
         if IsWall(Ahead(t, cols, rows, p, facing)) then
           b.facing in PossibleDirections && b == a.(facing := b.facing)
         else
           Advanced(h, a.(facing := facing), cols, rows, b)
  }

  /** A ghost at pose a takes one step along its facing: MoveElement
      without deleting, and a sprite advance. */
  predicate Advanced(h: GameObject, a: Pose, cols: int, rows: int, b: Pose)
  {
    && cols > 0 && rows > 0 && InGrid(a.tiles, a.at)
    && var to := Destination(a.at, a.facing, cols, rows);
       && InGrid(a.tiles, to)
       && b == Pose(Moved(a.tiles, h, a.at, to, false), MovedTo(a.tiles, h, a.at, to), a.facing, a.ticks + 1)
  }

  /** The grid side of a frightened, scattering or chasing tick: a ghost
      whose facing `turned` differs from the facing `prev` it ended the
      previous tick with only turns, any other meets the tile ahead. */
  predicate Stepped(h: GameObject, a: Pose, cols: int, rows: int, prev: Direction, turned: Direction, b: Pose)
  {
    if turned != prev then b == a.(facing := turned)
    else MovedAhead(h, a, cols, rows, turned, b)
  }

  /** A grid of `rows` rows of `cols` tiles each. */
  predicate Rectangular(t: Tiles, cols: int, rows: int)
  {
    cols > 0 && rows > 0 && |t| == rows && RowsOfWidth(t, cols)
  }

  /** What a Roam from pose a on a rectangular grid does: the facing
      `turned` is one Turned allows, and the ghost Stepped with it to b. */
  predicate Roamed(h: GameObject, a: Pose, cols: int, rows: int, skip: bool, prev: Direction,
                   target: Option<Pos>, runAway: bool, blockReverse: bool, turned: Direction, b: Pose)
  {
    match a
    case Pose(t, p, current, _) =>
      && Rectangular(t, cols, rows)
      && Turned(t, cols, rows, p, current, skip, target, runAway, blockReverse, turned)
      && Stepped(h, a, cols, rows, prev, turned, b)
  }

  /** An eaten ghost on its way back from pose a: it turned towards the
      base, without reversing, and met the tile ahead. */
  predicate Homed(h: GameObject, a: Pose, cols: int, rows: int, base: Pos, turned: Direction, b: Pose)
  {
    match a
    case Pose(t, p, current, _) =>
      && Rectangular(t, cols, rows)
      && Turned(t, cols, rows, p, current, false, Some(base), false, true, turned)
      && MovedAhead(h, a, cols, rows, turned, b)
  }
}
