/** Exact integer 3-vectors.  The unit cube's corners are +-1/2, so doubling
    them gives integer coordinates on which cross and dot products are exact. */
module Geometry {

  datatype IVec3 = IVec3(x: int, y: int, z: int)

  function Sub(a: IVec3, b: IVec3): IVec3 {
    var IVec3(a1, a2, a3) := a;
    var IVec3(b1, b2, b3) := b;
    IVec3(a1 - b1, a2 - b2, a3 - b3)
  }

  /** The 2x2 determinant | p q ; r s |. */
  function Det2(p: int, q: int, r: int, s: int): int {
    p * s - q * r
  }

  function Cross(a: IVec3, b: IVec3): IVec3 {
    var IVec3(a1, a2, a3) := a;
    var IVec3(b1, b2, b3) := b;
    IVec3(Det2(a2, a3, b2, b3), Det2(a3, a1, b3, b1), Det2(a1, a2, b1, b2))
  }

  function Dot(a: IVec3, b: IVec3): int {
    var IVec3(a1, a2, a3) := a;
    var IVec3(b1, b2, b3) := b;
    a1 * b1 + a2 * b2 + a3 * b3
  }

  function Scale(k: int, a: IVec3): IVec3 {
    IVec3(k * a.x, k * a.y, k * a.z)
  }

  /** Component-wise exact division by 4. */
  function Quarter(a: IVec3): IVec3 {
    IVec3(a.x / 4, a.y / 4, a.z / 4)
  }

  /** The six axis-aligned unit vectors +-x, +-y, +-z. */
  const AxisUnits: set<IVec3> :=
    {IVec3(1, 0, 0), IVec3(-1, 0, 0), IVec3(0, 1, 0),
     IVec3(0, -1, 0), IVec3(0, 0, 1), IVec3(0, 0, -1)}
}
