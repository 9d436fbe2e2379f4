/**
 * The EnemyAvoidance component, attached to the player: each frame, every enemy detected
 * inside the avoidance radius is sent to the first point of a side-biased angular sweep
 * around the player that the enemy itself accepts.
 */
module EnemyAvoidance {

  import opened Wrappers
  import opened Geometry
  import opened Tiles
  import EnemyMover

  datatype Settings = Settings(avoidRadius: real, maxAttempts: int, angleStep: real)

  /** The enemy counts as being on the right only when its x is strictly greater. */
  predicate IsEnemyOnRight(enemyPosition: Vec, playerPosition: Vec) {
    enemyPosition.x > playerPosition.x
  }

  /** The sweep starts at 0 degrees (enemy on the right) or 180 degrees (on the left)... */
  function StartAngle(onRight: bool): real {
    if onRight then 0.0 else 180.0
  }

  /** ...and turns by +angleStep or -angleStep per attempt. */
  function AngleIncrement(onRight: bool, angleStep: real): real {
    if onRight then angleStep else -angleStep
  }

  /** Candidate number `i` of the sweep for this enemy, at avoidRadius from the player. */
  function Attempt(s: Settings, playerPosition: Vec, enemy: EnemyMover.State, dir: Direction, i: int): (p: Vec)
    ensures IsEnemyOnRight(enemy.position, playerPosition) ==>
      p == PointOnCircle(playerPosition, dir, i as real * s.angleStep, s.avoidRadius)
    ensures !IsEnemyOnRight(enemy.position, playerPosition) ==>
      p == PointOnCircle(playerPosition, dir, 180.0 - i as real * s.angleStep, s.avoidRadius)
  {
    var onRight := IsEnemyOnRight(enemy.position, playerPosition);
    var angle := StartAngle(onRight) + i as real * AngleIncrement(onRight, s.angleStep);
    assert angle == if onRight then i as real * s.angleStep else 180.0 - i as real * s.angleStep;
    PointOnCircle(playerPosition, dir, angle, s.avoidRadius)
  }

  /**
   * The answer of the sweep: the first of the `maxAttempts` candidates on a tile the enemy
   * allows, or the zero vector when none of them is.
   */
  ghost predicate IsSweepChoice(
    s: Settings, playerPosition: Vec, enemy: EnemyMover.State, dir: Direction, grid: Grid, tilemap: Tilemap, r: Vec)
  {
    || (&& r == Zero
        && forall j :: 0 <= j < s.maxAttempts ==>
             !EnemyMover.IsTileAllowed(enemy, grid, tilemap, Attempt(s, playerPosition, enemy, dir, j)))
    || (exists k :: && 0 <= k < s.maxAttempts
                    && r == Attempt(s, playerPosition, enemy, dir, k)
                    && EnemyMover.IsTileAllowed(enemy, grid, tilemap, r)
                    && forall j :: 0 <= j < k ==>
                         !EnemyMover.IsTileAllowed(enemy, grid, tilemap, Attempt(s, playerPosition, enemy, dir, j)))
  }

  /** The sweep answer is unique, so FindAvoidancePoint's contract fixes its result. */
  lemma SweepChoiceUnique(
    s: Settings, playerPosition: Vec, enemy: EnemyMover.State, dir: Direction, grid: Grid, tilemap: Tilemap,
    r1: Vec, r2: Vec)
    requires IsSweepChoice(s, playerPosition, enemy, dir, grid, tilemap, r1)
    requires IsSweepChoice(s, playerPosition, enemy, dir, grid, tilemap, r2)
    ensures r1 == r2
  {
  }

  /** FindAvoidancePoint: a bounded linear search over the sweep. */
  method FindAvoidancePoint(
    s: Settings, playerPosition: Vec, enemy: EnemyMover.State, dir: Direction, grid: Grid, tilemap: Tilemap)
    returns (r: Vec)
    ensures IsSweepChoice(s, playerPosition, enemy, dir, grid, tilemap, r)
    ensures r != Zero ==> EnemyMover.IsTileAllowed(enemy, grid, tilemap, r)
    ensures s.maxAttempts <= 0 ==> r == Zero
  {
    var i := 0;
    while i < s.maxAttempts
      invariant 0 <= i
      invariant s.maxAttempts > 0 ==> i <= s.maxAttempts
      invariant forall j :: 0 <= j < i ==>
        !EnemyMover.IsTileAllowed(enemy, grid, tilemap, Attempt(s, playerPosition, enemy, dir, j))
    {
      var candidate := Attempt(s, playerPosition, enemy, dir, i);
      if EnemyMover.IsTileAllowed(enemy, grid, tilemap, candidate) {
        return candidate;
      }
      i := i + 1;
    }
    return Zero;
  }

  /** A point the sweep found is one the enemy accepts, so SetTarget always takes it. */
  lemma SweepPointIsAccepted(
    s: Settings, playerPosition: Vec, enemy: EnemyMover.State, dir: Direction, grid: Grid, tilemap: Tilemap, p: Vec)
    requires IsSweepChoice(s, playerPosition, enemy, dir, grid, tilemap, p)
    requires p != Zero
    ensures EnemyMover.SetTarget(enemy, grid, tilemap, p) == enemy.(target := p, isMoving := true)
  {
  }

  /** What one frame does to one detected enemy: move to the sweep point unless it is zero. */
  ghost predicate AvoidanceOutcome(
    s: Settings, playerPosition: Vec, enemy: EnemyMover.State, dir: Direction, grid: Grid, tilemap: Tilemap,
    after: EnemyMover.State)
  {
    exists p :: && IsSweepChoice(s, playerPosition, enemy, dir, grid, tilemap, p)
                && after == if p == Zero then enemy else EnemyMover.SetTarget(enemy, grid, tilemap, p)
  }

  /**
   * Update: each detected collider that carries an EnemyMover (a None entry has none) is
   * handled independently; colliders without one are skipped.
   */
  method Update(
    s: Settings, playerPosition: Vec, detected: seq<Option<EnemyMover.State>>,
    dir: Direction, grid: Grid, tilemap: Tilemap)
    returns (r: seq<Option<EnemyMover.State>>)
    ensures |r| == |detected|
    ensures forall i :: 0 <= i < |r| ==> (r[i].Some? <==> detected[i].Some?)
    ensures forall i :: 0 <= i < |r| && detected[i].Some? ==>
      AvoidanceOutcome(s, playerPosition, detected[i].value, dir, grid, tilemap, r[i].value)
    ensures forall i :: 0 <= i < |r| && detected[i].Some? ==>
      r[i].value == detected[i].value || (r[i].value.isMoving && r[i].value.target != Zero)
  {
    r := [];
    var i := 0;
    while i < |detected|
      invariant 0 <= i <= |detected|
      invariant |r| == i
      invariant forall q :: 0 <= q < i ==> (r[q].Some? <==> detected[q].Some?)
      invariant forall q :: 0 <= q < i && detected[q].Some? ==>
        AvoidanceOutcome(s, playerPosition, detected[q].value, dir, grid, tilemap, r[q].value)
      invariant forall q :: 0 <= q < i && detected[q].Some? ==>
        r[q].value == detected[q].value || (r[q].value.isMoving && r[q].value.target != Zero)
    {
      match detected[i] {
        case None =>
          r := r + [None];
        case Some(enemy) =>
          var point := FindAvoidancePoint(s, playerPosition, enemy, dir, grid, tilemap);
          var after := enemy;
          if point != Zero {
            SweepPointIsAccepted(s, playerPosition, enemy, dir, grid, tilemap, point);
            after := EnemyMover.SetTarget(enemy, grid, tilemap, point);
          }
          assert IsSweepChoice(s, playerPosition, enemy, dir, grid, tilemap, point);
          r := r + [Some(after)];
      }
      i := i + 1;
    }
  }
}
