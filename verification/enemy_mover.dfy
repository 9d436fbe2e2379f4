/**
 * The EnemyMover component: a target-seeking mover with two pieces of state, the target
 * position and whether it is moving. A target is accepted only if the tile under it is in
 * the mover's allowed tiles; each frame a moving enemy takes one step and stops once it is
 * within the stopping distance.
 */
module EnemyMover {

  import opened Geometry
  import opened Tiles
  import AllowedTiles

  datatype State = State(
    position: Vec,
    target: Vec,
    isMoving: bool,
    stoppingDistance: real,
    allowed: AllowedTiles.State)

  /**
   * One frame of motion: the position reached from `from` when heading for `to`
   * (from + normalized(to - from) * speed * deltaTime in the engine).
   */
  type Step = (Vec, Vec) -> Vec

  /** IsTileAllowed: the tile under the position is in the allowed tiles. */
  function IsTileAllowed(m: State, grid: Grid, tilemap: Tilemap, p: Vec): (b: bool)
    ensures b <==> GetTile(tilemap, grid(p)) in AllowedTiles.Get(m.allowed)
  {
    AllowedTiles.Contains(m.allowed, TileOnPosition(tilemap, grid, p))
  }

  /**
   * SetTarget: an allowed point becomes the target and movement starts; a disallowed point
   * stops movement and leaves the previous target in place.
   */
  function SetTarget(m: State, grid: Grid, tilemap: Tilemap, p: Vec): (r: State)
    ensures r.position == m.position && r.allowed == m.allowed
    ensures r.stoppingDistance == m.stoppingDistance
    ensures r.isMoving <==> TileOnPosition(tilemap, grid, p) in m.allowed.current
    ensures r.isMoving ==> r.target == p
    ensures !r.isMoving ==> r.target == m.target
  {
    if IsTileAllowed(m, grid, tilemap, p) then m.(target := p, isMoving := true)
    else m.(isMoving := false)
  }

  /** StopMoving: halts movement and touches nothing else. */
  function StopMoving(m: State): (r: State)
    ensures !r.isMoving
    ensures r.(isMoving := m.isMoving) == m
  {
    m.(isMoving := false)
  }

  /**
   * Update: a moving enemy first takes its step, then stops if the new position is closer
   * to the target than the stopping distance. The target itself is never cleared.
   */
  function Update(m: State, step: Step, dist: Distance): (r: State)
    ensures !m.isMoving ==> r == m
    ensures m.isMoving ==> r.position == step(m.position, m.target)
    ensures m.isMoving ==> (r.isMoving <==> !(dist(r.position, m.target) < m.stoppingDistance))
    ensures r.target == m.target && r.allowed == m.allowed
    ensures r.stoppingDistance == m.stoppingDistance
  {
    if m.isMoving then
      var moved := m.(position := step(m.position, m.target));
      if dist(moved.position, moved.target) < moved.stoppingDistance
      then moved.(isMoving := false) else moved
    else m
  }

  /** Consecutive frames, one per step; each frame has its own step (its own deltaTime). */
  function UpdateN(m: State, steps: seq<Step>, dist: Distance): State
    decreases |steps|
  {
    if |steps| == 0 then m else UpdateN(Update(m, steps[0], dist), steps[1..], dist)
  }

  /** An enemy that has stopped stays exactly where it is, however many frames pass. */
  lemma {:induction false} StoppedStaysStopped(m: State, steps: seq<Step>, dist: Distance)
    requires !m.isMoving
    ensures UpdateN(m, steps, dist) == m
    decreases |steps|
  {
    if |steps| > 0 {
      StoppedStaysStopped(Update(m, steps[0], dist), steps[1..], dist);
    }
  }

  /**
   * The mover's safety invariant: whenever it is moving, it is heading for a point on an
   * allowed tile.
   */
  predicate HeadsForAllowedTile(m: State, grid: Grid, tilemap: Tilemap) {
    m.isMoving ==> IsTileAllowed(m, grid, tilemap, m.target)
  }

  /**
   * Every operation keeps the invariant, so a disallowed tile is never pursued. This holds
   * for one fixed tilemap and allowed set: the pickaxe's tile rewrite, or a change to the
   * enemy's AllowedTiles, can make the tile under a pursued target disallowed.
   */
  lemma {:induction false} OperationsKeepAllowedTarget(
    m: State, grid: Grid, tilemap: Tilemap, p: Vec, steps: seq<Step>, dist: Distance)
    requires HeadsForAllowedTile(m, grid, tilemap)
    ensures HeadsForAllowedTile(SetTarget(m, grid, tilemap, p), grid, tilemap)
    ensures HeadsForAllowedTile(StopMoving(m), grid, tilemap)
    ensures HeadsForAllowedTile(UpdateN(m, steps, dist), grid, tilemap)
    decreases |steps|
  {
    if |steps| > 0 {
      OperationsKeepAllowedTarget(Update(m, steps[0], dist), grid, tilemap, p, steps[1..], dist);
    }
  }
}
