/** Vectors and directions (sources/core/KvGlobals.h). */
module KvGlobals {
  import opened CppInt

  datatype Vector = Vector(x: int, y: int, z: int)

  datatype Dir = WEST | EAST | NORTH | SOUTH | UP | DOWN

  const ZERO := Vector(0, 0, 0)

  function Plus(a: Vector, b: Vector): Vector { Vector(a.x + b.x, a.y + b.y, a.z + b.z) }
  function Times(a: Vector, k: int): Vector { Vector(a.x * k, a.y * k, a.z * k) }
  function Minus(a: Vector, b: Vector): Vector { Plus(a, Times(b, -1)) }

  function DirToVDir(d: Dir): Vector {
    match d
    case WEST => Vector(-1, 0, 0)
    case EAST => Vector(1, 0, 0)
    case NORTH => Vector(0, -1, 0)
    case SOUTH => Vector(0, 1, 0)
    case UP => Vector(0, 0, 1)
    case DOWN => Vector(0, 0, -1)
  }

  function ProjectionToDir(v: Vector, d: Dir): int {
    match d
    case WEST => -v.x
    case EAST => v.x
    case NORTH => -v.y
    case SOUTH => v.y
    case _ => 0
  }

  function VDirToDir(v: Vector): Dir {
    if Abs(v.x) > Abs(v.y) && Abs(v.x) > Abs(v.z) then (if v.x > 0 then EAST else WEST)
    else if Abs(v.y) >= Abs(v.z) then (if v.y >= 0 then SOUTH else NORTH)
    else if v.z > 0 then UP
    else DOWN
  }

  function RevertDir(d: Dir): Dir {
    match d
    case WEST => EAST
    case EAST => WEST
    case NORTH => SOUTH
    case SOUTH => NORTH
    case UP => DOWN
    case DOWN => UP
  }
}
