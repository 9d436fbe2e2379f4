/**
 * World-space geometry of the game. Unity's float vectors are taken as vectors of reals;
 * everything the engine computes with floating point (grid projection, trigonometry,
 * distances, per-frame motion) is left abstract and passed in as a function.
 */
module Geometry {

  /** A world position or offset (Unity's Vector3). */
  datatype Vec = Vec(x: real, y: real, z: real)

  /** A grid cell coordinate (Unity's Vector3Int). */
  datatype Cell = Cell(x: int, y: int, z: int)

  /** Vector3.zero, which the avoidance searches also use as their "no point found" answer. */
  const Zero: Vec := Vec(0.0, 0.0, 0.0)

  /** The four unit steps of the keyboard mover (Vector3.up, down, left, right). */
  const Up: Vec := Vec(0.0, 1.0, 0.0)
  const Down: Vec := Vec(0.0, -1.0, 0.0)
  const Left: Vec := Vec(-1.0, 0.0, 0.0)
  const Right: Vec := Vec(1.0, 0.0, 0.0)

  /** Tilemap.WorldToCell: projects a world position onto the grid. */
  type Grid = Vec -> Cell

  /** The unit vector (cos a, sin a, 0) for an angle a in degrees. */
  type Direction = real -> Vec

  /** Vector3.Distance. */
  type Distance = (Vec, Vec) -> real

  function Add(a: Vec, b: Vec): Vec {
    Vec(a.x + b.x, a.y + b.y, a.z + b.z)
  }

  function Scale(a: Vec, k: real): Vec {
    Vec(a.x * k, a.y * k, a.z * k)
  }

  /** The point at `angle` degrees on the circle of `radius` around `center`. */
  function PointOnCircle(center: Vec, dir: Direction, angle: real, radius: real): Vec {
    Add(center, Scale(dir(angle), radius))
  }
}
