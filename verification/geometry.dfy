/**
 Exact integer geometry of the puzzle: axes, the two quarter-turn angles,
 integer points of the 3x3x3 grid, the quarter-turn rotations that three.js
 `makeRotationX/Y/Z` build for an angle of +pi/2 or -pi/2, and 3x3 integer
 orientation matrices composed from them.

 Positions are kept on the grid {-1,0,1}^3 directly: the source multiplies by
 a spacing of 1.05, rotates in floating point and divides by the spacing again
 before rounding, and that round trip recovers exactly these integers.
 */
module Geometry {

  /** The three principal axes a layer can turn about. */
  datatype Axis = X | Y | Z

  /** The two angles a quarter turn can take: +pi/2 and -pi/2 radians. */
  datatype Angle = PlusQuarter | MinusQuarter

  /** The angle that undoes `a`. */
  function Opposite(a: Angle): (r: Angle)
    ensures r != a
    ensures Sin(r) == -Sin(a)
  {
    if a == PlusQuarter then MinusQuarter else PlusQuarter
  }

  /** cos(+-pi/2), exactly. */
  function Cos(a: Angle): int
  {
    0
  }

  /** sin(+-pi/2), exactly. */
  function Sin(a: Angle): int
  {
    if a == PlusQuarter then 1 else -1
  }

  /** An integer point (or direction) in space. */
  datatype Vec = Vec(x: int, y: int, z: int)

  function Coord(v: Vec, axis: Axis): int
  {
    match axis
    case X => v.x
    case Y => v.y
    case Z => v.z
  }

  predicate IsCoord(c: int)
  {
    -1 <= c <= 1
  }

  /** One of the 27 cells of the cube: every coordinate is -1, 0 or 1. */
  predicate InGrid(v: Vec)
  {
    IsCoord(v.x) && IsCoord(v.y) && IsCoord(v.z)
  }

  /**
   The rotation by `a` about `axis`, computed from the right-handed matrices
   that `makeRotationX`, `makeRotationY` and `makeRotationZ` fill in
   (x: y' = c y - s z, z' = s y + c z; y: x' = c x + s z, z' = -s x + c z;
   z: x' = c x - s y, y' = s x + c y). The contract lists the signed
   coordinate permutation each of the six quarter turns amounts to.
   */
  function Rotate(axis: Axis, a: Angle, v: Vec): (r: Vec)
    ensures axis == X && a == PlusQuarter ==> r == Vec(v.x, -v.z, v.y)
    ensures axis == X && a == MinusQuarter ==> r == Vec(v.x, v.z, -v.y)
    ensures axis == Y && a == PlusQuarter ==> r == Vec(v.z, v.y, -v.x)
    ensures axis == Y && a == MinusQuarter ==> r == Vec(-v.z, v.y, v.x)
    ensures axis == Z && a == PlusQuarter ==> r == Vec(-v.y, v.x, v.z)
    ensures axis == Z && a == MinusQuarter ==> r == Vec(v.y, -v.x, v.z)
  {
    var c, s := Cos(a), Sin(a);
    match axis
    case X => Vec(v.x, c * v.y - s * v.z, s * v.y + c * v.z)
    case Y => Vec(c * v.x + s * v.z, v.y, -s * v.x + c * v.z)
    case Z => Vec(c * v.x - s * v.y, s * v.x + c * v.y, v.z)
  }

  /** A quarter turn about `axis` leaves the coordinate on `axis` alone. */
  lemma RotateKeepsAxis(axis: Axis, a: Angle, v: Vec)
    ensures Coord(Rotate(axis, a, v), axis) == Coord(v, axis)
  {
  }

  /** Turning by `a` and then by the opposite angle is the identity. */
  lemma RotateInverse(axis: Axis, a: Angle, v: Vec)
    ensures Rotate(axis, Opposite(a), Rotate(axis, a, v)) == v
  {
  }

  /** Four identical quarter turns are the identity. */
  lemma RotatePeriod(axis: Axis, a: Angle, v: Vec)
    ensures Rotate(axis, a, Rotate(axis, a, Rotate(axis, a, Rotate(axis, a, v)))) == v
  {
  }

  /** A quarter turn is one-to-one. */
  lemma RotateInjective(axis: Axis, a: Angle, u: Vec, v: Vec)
    ensures Rotate(axis, a, u) == Rotate(axis, a, v) <==> u == v
  {
    RotateInverse(axis, a, u);
    RotateInverse(axis, a, v);
  }

  /** A quarter turn maps the grid onto itself. */
  lemma RotateInGrid(axis: Axis, a: Angle, v: Vec)
    ensures InGrid(Rotate(axis, a, v)) <==> InGrid(v)
  {
  }

  /** A sign: the positive or the negative end of an axis. */
  datatype Sign = Plus | Minus

  function Flip(s: Sign): Sign
  {
    if s == Plus then Minus else Plus
  }

  /** One of the six directions +x, -x, +y, -y, +z, -z. */
  datatype Dir = Dir(axis: Axis, sign: Sign)

  /** The unit vector pointing in direction `d`. */
  function DirVec(d: Dir): (v: Vec)
    ensures InGrid(v)
  {
    var u := if d.sign == Plus then 1 else -1;
    match d.axis
    case X => Vec(u, 0, 0)
    case Y => Vec(0, u, 0)
    case Z => Vec(0, 0, u)
  }

  /** The coordinate of `p` measured along direction `d`. */
  function Along(p: Vec, d: Dir): int
  {
    if d.sign == Plus then Coord(p, d.axis) else -Coord(p, d.axis)
  }

  /** The direction a quarter turn carries `d` to. */
  function RotateDir(axis: Axis, a: Angle, d: Dir): (r: Dir)
    ensures DirVec(r) == Rotate(axis, a, DirVec(d))
  {
    match (axis, d.axis)
    case (X, X) => d
    case (Y, Y) => d
    case (Z, Z) => d
    case (X, Y) => Dir(Z, if a == PlusQuarter then d.sign else Flip(d.sign))
    case (X, Z) => Dir(Y, if a == PlusQuarter then Flip(d.sign) else d.sign)
    case (Y, Z) => Dir(X, if a == PlusQuarter then d.sign else Flip(d.sign))
    case (Y, X) => Dir(Z, if a == PlusQuarter then Flip(d.sign) else d.sign)
    case (Z, X) => Dir(Y, if a == PlusQuarter then d.sign else Flip(d.sign))
    case (Z, Y) => Dir(X, if a == PlusQuarter then Flip(d.sign) else d.sign)
  }

  lemma DirVecInjective(d: Dir, e: Dir)
    ensures DirVec(d) == DirVec(e) <==> d == e
  {
  }

  /** Turning a direction and turning it back restores it. */
  lemma RotateDirInverse(axis: Axis, a: Angle, d: Dir)
    ensures RotateDir(axis, Opposite(a), RotateDir(axis, a, d)) == d
  {
    RotateInverse(axis, a, DirVec(d));
    DirVecInjective(RotateDir(axis, Opposite(a), RotateDir(axis, a, d)), d);
  }

  /** Turning a direction four times by the same quarter turn restores it. */
  lemma RotateDirPeriod(axis: Axis, a: Angle, d: Dir)
    ensures RotateDir(axis, a, RotateDir(axis, a, RotateDir(axis, a, RotateDir(axis, a, d)))) == d
  {
    RotatePeriod(axis, a, DirVec(d));
    DirVecInjective(RotateDir(axis, a, RotateDir(axis, a, RotateDir(axis, a, RotateDir(axis, a, d)))), d);
  }

  /** Measuring a turned point along a turned direction gives the old reading. */
  lemma RotateAlong(axis: Axis, a: Angle, p: Vec, d: Dir)
    ensures Along(Rotate(axis, a, p), RotateDir(axis, a, d)) == Along(p, d)
  {
  }

  /**
   An orientation: a 3x3 signed permutation matrix given by its columns,
   the directions the cubelet's own x, y and z axes point to in the world.
   */
  datatype Frame = Frame(fx: Dir, fy: Dir, fz: Dir)

  const Identity: Frame := Frame(Dir(X, Plus), Dir(Y, Plus), Dir(Z, Plus))

  function Column(m: Frame, axis: Axis): Dir
  {
    match axis
    case X => m.fx
    case Y => m.fy
    case Z => m.fz
  }

  /**
   The orientation after turning by `a` about `axis`: the rotation matrix
   multiplied on the left of `m`, as `Object3D.applyMatrix4` premultiplies
   an object's matrix; column by column, each direction is turned.
   */
  function Compose(axis: Axis, a: Angle, m: Frame): Frame
  {
    Frame(RotateDir(axis, a, m.fx), RotateDir(axis, a, m.fy), RotateDir(axis, a, m.fz))
  }

  /** The three columns lie on three different axes: a signed permutation matrix. */
  predicate IsSignedPermutation(m: Frame)
  {
    m.fx.axis != m.fy.axis && m.fy.axis != m.fz.axis && m.fx.axis != m.fz.axis
  }

  /** Composing a quarter turn keeps a signed permutation matrix one. */
  lemma ComposeSignedPermutation(axis: Axis, a: Angle, m: Frame)
    requires IsSignedPermutation(m)
    ensures IsSignedPermutation(Compose(axis, a, m))
  {
  }

  /** The axis that is neither `a` nor `b`. */
  function Third(a: Axis, b: Axis): (c: Axis)
    requires a != b
    ensures c != a && c != b
  {
    if a != X && b != X then X else if a != Y && b != Y then Y else Z
  }

  /** `a` then `b` is one of the right-handed pairs (x, y), (y, z), (z, x). */
  predicate RightHanded(a: Axis, b: Axis)
  {
    (a == X && b == Y) || (a == Y && b == Z) || (a == Z && b == X)
  }

  function SignProduct(s: Sign, t: Sign): Sign
  {
    if s == t then Plus else Minus
  }

  /** The cross product of two perpendicular unit directions. */
  function Cross(d: Dir, e: Dir): Dir
    requires d.axis != e.axis
  {
    var s := SignProduct(d.sign, e.sign);
    Dir(Third(d.axis, e.axis), if RightHanded(d.axis, e.axis) then s else Flip(s))
  }

  /**
   A rotation matrix: a signed permutation matrix whose third column is the
   cross product of the first two (determinant +1, no mirroring).
   */
  predicate IsRotation(m: Frame)
  {
    IsSignedPermutation(m) && m.fz == Cross(m.fx, m.fy)
  }

  /** A quarter turn commutes with the cross product. */
  lemma RotateDirCross(axis: Axis, a: Angle, d: Dir, e: Dir)
    requires d.axis != e.axis
    ensures RotateDir(axis, a, d).axis != RotateDir(axis, a, e).axis
    ensures RotateDir(axis, a, Cross(d, e)) == Cross(RotateDir(axis, a, d), RotateDir(axis, a, e))
  {
    match (axis, a)
    case (X, PlusQuarter) =>
    case (X, MinusQuarter) =>
    case (Y, PlusQuarter) =>
    case (Y, MinusQuarter) =>
    case (Z, PlusQuarter) =>
    case (Z, MinusQuarter) =>
  }

  /** The unturned orientation is a rotation. */
  lemma IdentityIsRotation()
    ensures IsRotation(Identity)
  {
  }

  /** Composing a quarter turn keeps a rotation matrix a rotation matrix: no turn ever mirrors a cubelet. */
  lemma ComposeRotation(axis: Axis, a: Angle, m: Frame)
    requires IsRotation(m)
    ensures IsRotation(Compose(axis, a, m))
  {
    RotateDirCross(axis, a, m.fx, m.fy);
  }

  /** Composing a turn and then its opposite restores the orientation. */
  lemma ComposeInverse(axis: Axis, a: Angle, m: Frame)
    ensures Compose(axis, Opposite(a), Compose(axis, a, m)) == m
  {
    RotateDirInverse(axis, a, m.fx);
    RotateDirInverse(axis, a, m.fy);
    RotateDirInverse(axis, a, m.fz);
  }

  /** Composing the same quarter turn four times restores the orientation. */
  lemma ComposePeriod(axis: Axis, a: Angle, m: Frame)
    ensures Compose(axis, a, Compose(axis, a, Compose(axis, a, Compose(axis, a, m)))) == m
  {
    RotateDirPeriod(axis, a, m.fx);
    RotateDirPeriod(axis, a, m.fy);
    RotateDirPeriod(axis, a, m.fz);
  }
}
