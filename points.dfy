/**
 * Points and frames as the solver sees them.
 *
 * The point/vector library of the robot (hexapod.points) is not part of this
 * model. The few operations that are plain coordinate arithmetic are defined
 * here; everything that needs trigonometry, square roots or the library's own
 * conventions is an uninterpreted function carried by a VectorLib value.
 */
module Points {

  /** A named 3D point; also used as a free vector (then its name is empty). */
  datatype Point = Point(x: real, y: real, z: real, name: string)

  /** Point(0, 0, 0): the body contact point in a leg's local frame. */
  const Origin := Point(0.0, 0.0, 0.0, "")

  /** A 3x3 rotation frame; only the library interprets its entries. */
  datatype Frame = Frame(rows: seq<seq<real>>)

  /** Same coordinates, whatever the names. */
  predicate SameXyz(a: Point, b: Point) {
    a.x == b.x && a.y == b.y && a.z == b.z
  }

  /** vector_from_to: the vector pointing from a to b. */
  function VectorFromTo(a: Point, b: Point): (v: Point)
    ensures SameXyz(AddVectors(a, v), b)
  {
    Point(b.x - a.x, b.y - a.y, b.z - a.z, "")
  }

  /** add_vectors */
  function AddVectors(a: Point, b: Point): Point {
    Point(a.x + b.x, a.y + b.y, a.z + b.z, "")
  }

  /** scalar_multiply */
  function ScalarMultiply(v: Point, k: real): Point {
    Point(v.x * k, v.y * k, v.z * k, "")
  }

  /** Point.move_xyz: translate in place, keeping the point's name. */
  function MoveXyz(p: Point, dx: real, dy: real, dz: real): (q: Point)
    ensures q.name == p.name
    ensures SameXyz(VectorFromTo(p, q), Point(dx, dy, dz, ""))
  {
    p.(x := p.x + dx, y := p.y + dy, z := p.z + dz)
  }

  /**
   * The library operations the solver calls whose definitions are not
   * available, taken as arbitrary functions. Angles are in degrees.
   */
  datatype VectorLib = VectorLib(
    length: Point -> real,
    unitVector: Point -> Point,
    projectOntoPlane: (Point, Point) -> Point,
    angleBetween: (Point, Point) -> real,
    angleOppositeOfLastSide: (real, real, real) -> real,
    isTriangle: (real, real, real) -> bool,
    isCounterClockwise: (Point, Point, Point) -> bool,
    rotz: real -> Frame,
    updatePointWrt: (Point, Frame) -> Point,
    cosDeg: real -> real,
    sinDeg: real -> real)
  {
    /** Rotating by any frame leaves a point at the origin there (true of a linear map). */
    ghost predicate RotationsFixOrigin() {
      forall p: Point, f: Frame :: SameXyz(p, Origin) ==> SameXyz(updatePointWrt(p, f), Origin)
    }
  }
}
