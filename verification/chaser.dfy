/**
 * The Chaser component: each frame it either chases its target object or, when the target
 * is closer than the avoidance radius, flees to the farthest walkable point on the circle of
 * that radius around the target. The movement itself belongs to its TargetMover base class,
 * which is not part of this model: the chaser's calls to SetTarget are returned as commands.
 */
module Chaser {

  import opened Geometry
  import opened Tiles

  datatype State = State(isAvoiding: bool, avoidRadius: real)

  /** The SetTarget call a frame issues, if any. */
  datatype Command = NoCommand | SetTarget(point: Vec)

  /** Number of sample points on the avoidance circle. */
  const SampleCount: nat := 16

  /** The angle in degrees of sample `i`: 360 / 16 * i. */
  function SampleAngle(i: nat): real {
    (360.0 / SampleCount as real) * i as real
  }

  /** The sample points, in sampling order, on the circle of `radius` around `center`. */
  function Candidates(center: Vec, radius: real, dir: Direction): (c: seq<Vec>)
    ensures |c| == 16
    ensures forall i :: 0 <= i < 16 ==> c[i] == PointOnCircle(center, dir, 22.5 * i as real, radius)
  {
    seq(SampleCount, i requires 0 <= i < SampleCount =>
      PointOnCircle(center, dir, SampleAngle(i), radius))
  }

  /**
   * The candidates kept, in order: those whose cell holds any tile at all. The chaser asks
   * the tilemap only; no allowed-tiles set is consulted.
   */
  function ValidPoints(cands: seq<Vec>, grid: Grid, tilemap: Tilemap): (v: seq<Vec>)
    ensures forall p :: p in v <==> p in cands && HasTile(tilemap, grid(p))
    ensures |v| <= |cands|
    decreases |cands|
  {
    if |cands| == 0 then []
    else
      var rest := ValidPoints(cands[..|cands| - 1], grid, tilemap);
      var p := cands[|cands| - 1];
      assert cands == cands[..|cands| - 1] + [p];
      if HasTile(tilemap, grid(p)) then rest + [p] else rest
  }

  /**
   * The valid samples keep the sampling order: those among the first `k` candidates come
   * first, exactly as a filter of that prefix would give them.
   */
  lemma {:induction false} ValidPointsKeepOrder(cands: seq<Vec>, grid: Grid, tilemap: Tilemap, k: nat)
    requires k <= |cands|
    ensures ValidPoints(cands[..k], grid, tilemap) <= ValidPoints(cands, grid, tilemap)
    decreases |cands|
  {
    if k < |cands| {
      var init := cands[..|cands| - 1];
      assert init[..k] == cands[..k];
      ValidPointsKeepOrder(init, grid, tilemap, k);
    } else {
      assert cands[..k] == cands;
    }
  }

  /**
   * Index `k` holds the strictly greatest distance from `from` that beats the initial
   * maximum of 0, and no earlier point reaches it (ties go to the earliest point).
   */
  ghost predicate IsFirstStrictMax(valid: seq<Vec>, from: Vec, dist: Distance, k: int) {
    && 0 <= k < |valid|
    && dist(from, valid[k]) > 0.0
    && (forall j :: 0 <= j < k ==> dist(from, valid[j]) < dist(from, valid[k]))
    && (forall j :: k < j < |valid| ==> dist(from, valid[j]) <= dist(from, valid[k]))
  }

  /**
   * The answer of the farthest-point search: the first farthest valid point, or the zero
   * vector when no valid point lies at a positive distance.
   */
  ghost predicate IsFarthestChoice(valid: seq<Vec>, from: Vec, dist: Distance, r: Vec) {
    || (r == Zero && forall j :: 0 <= j < |valid| ==> dist(from, valid[j]) <= 0.0)
    || (exists k :: IsFirstStrictMax(valid, from, dist, k) && r == valid[k])
  }

  /** The farthest-point answer is unique. */
  lemma FarthestChoiceUnique(valid: seq<Vec>, from: Vec, dist: Distance, r1: Vec, r2: Vec)
    requires IsFarthestChoice(valid, from, dist, r1)
    requires IsFarthestChoice(valid, from, dist, r2)
    ensures r1 == r2
  {
  }

  /** The sampling loop: collects, in order, the samples that lie on a painted cell. */
  method SampleValidPoints(center: Vec, radius: real, dir: Direction, grid: Grid, tilemap: Tilemap)
    returns (valid: seq<Vec>)
    ensures valid == ValidPoints(Candidates(center, radius, dir), grid, tilemap)
  {
    ghost var cands := Candidates(center, radius, dir);
    valid := [];
    var i := 0;
    while i < SampleCount
      invariant 0 <= i <= SampleCount
      invariant valid == ValidPoints(cands[..i], grid, tilemap)
    {
      var point := PointOnCircle(center, dir, SampleAngle(i), radius);
      assert cands[..i + 1] == cands[..i] + [point];
      if HasTile(tilemap, grid(point)) {
        valid := valid + [point];
      }
      i := i + 1;
    }
    assert cands[..i] == cands;
  }

  /** The selection loop: a running strict maximum of the distance, starting from zero. */
  method Farthest(valid: seq<Vec>, from: Vec, dist: Distance) returns (r: Vec)
    ensures IsFarthestChoice(valid, from, dist, r)
    ensures r == Zero || r in valid
    ensures valid == [] ==> r == Zero
  {
    r := Zero;
    var maxDistance := 0.0;
    ghost var k := -1;
    var j := 0;
    while j < |valid|
      invariant 0 <= j <= |valid|
      invariant -1 <= k < j
      invariant k == -1 ==> r == Zero && maxDistance == 0.0
      invariant k == -1 ==> forall q :: 0 <= q < j ==> dist(from, valid[q]) <= 0.0
      invariant k >= 0 ==> r == valid[k] && maxDistance == dist(from, valid[k]) > 0.0
      invariant k >= 0 ==> forall q :: 0 <= q < k ==> dist(from, valid[q]) < maxDistance
      invariant k >= 0 ==> forall q :: k < q < j ==> dist(from, valid[q]) <= maxDistance
    {
      var d := dist(from, valid[j]);
      if d > maxDistance {
        maxDistance := d;
        r := valid[j];
        k := j;
      }
      j := j + 1;
    }
    if k >= 0 {
      assert IsFirstStrictMax(valid, from, dist, k);
    }
  }

  /**
   * FindFarthestPointOnCircle: samples the 16 points around `center`, keeps those on a
   * painted cell, and returns the one farthest from `from`, or zero when there is none.
   */
  method FindFarthestPointOnCircle(
    from: Vec, center: Vec, radius: real, dir: Direction, grid: Grid, tilemap: Tilemap, dist: Distance)
    returns (r: Vec)
    ensures IsFarthestChoice(ValidPoints(Candidates(center, radius, dir), grid, tilemap), from, dist, r)
    ensures r == Zero || r in ValidPoints(Candidates(center, radius, dir), grid, tilemap)
    ensures ValidPoints(Candidates(center, radius, dir), grid, tilemap) == [] ==> r == Zero
  {
    var valid := SampleValidPoints(center, radius, dir, grid, tilemap);
    r := Farthest(valid, from, dist);
  }

  /** MoveToAvoidancePoint: a zero answer issues no SetTarget. */
  method MoveToAvoidancePoint(
    position: Vec, targetPosition: Vec, radius: real, dir: Direction, grid: Grid, tilemap: Tilemap, dist: Distance)
    returns (cmd: Command)
    ensures var valid := ValidPoints(Candidates(targetPosition, radius, dir), grid, tilemap);
      || (cmd == NoCommand && IsFarthestChoice(valid, position, dist, Zero))
      || (cmd.SetTarget? && cmd.point != Zero && IsFarthestChoice(valid, position, dist, cmd.point))
  {
    var point := FindFarthestPointOnCircle(position, targetPosition, radius, dir, grid, tilemap, dist);
    if point != Zero {
      cmd := SetTarget(point);
    } else {
      cmd := NoCommand;
    }
  }

  /**
   * Update: closer than the avoidance radius means avoiding (and fleeing); at or beyond it
   * means chasing, re-aiming at the target's current position every frame.
   */
  method Update(
    s: State, position: Vec, targetPosition: Vec, dir: Direction, grid: Grid, tilemap: Tilemap, dist: Distance)
    returns (r: State, cmd: Command)
    ensures r.avoidRadius == s.avoidRadius
    ensures r.isAvoiding <==> dist(position, targetPosition) < s.avoidRadius
    ensures !r.isAvoiding ==> cmd == SetTarget(targetPosition)
    ensures r.isAvoiding ==>
      var valid := ValidPoints(Candidates(targetPosition, s.avoidRadius, dir), grid, tilemap);
      || (cmd == NoCommand && IsFarthestChoice(valid, position, dist, Zero))
      || (cmd.SetTarget? && cmd.point != Zero && IsFarthestChoice(valid, position, dist, cmd.point))
  {
    if dist(position, targetPosition) < s.avoidRadius {
      r := s.(isAvoiding := true);
      cmd := MoveToAvoidancePoint(position, targetPosition, s.avoidRadius, dir, grid, tilemap, dist);
    } else {
      r := s.(isAvoiding := false);
      cmd := SetTarget(targetPosition);
    }
  }
}
