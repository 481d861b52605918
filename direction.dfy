/**
 * The four axis directions of SynergyQuest and their conversion to and from unit vectors.
 * Vectors are integer pairs (x, y) with y pointing up, as Unity's Vector2.up = (0, 1).
 */
module Directions {

  datatype Direction = Up | Down | Left | Right

  datatype Vec = Vec(x: int, y: int)

  function Negate(v: Vec): Vec
  {
    Vec(-v.x, -v.y)
  }

  /** Direction.ToVector: the unit vector pointing that way. */
  function ToVector(d: Direction): (v: Vec)
    ensures IsUnitAxisVector(v)
  {
    match d
    case Left => Vec(-1, 0)
    case Right => Vec(1, 0)
    case Up => Vec(0, 1)
    case Down => Vec(0, -1)
  }

  /** Direction.Inverse: the opposite direction, whose vector points the other way. */
  function Inverse(d: Direction): (e: Direction)
    ensures e != d
    ensures ToVector(e) == Negate(ToVector(d))
  {
    match d
    case Up => Down
    case Down => Up
    case Left => Right
    case Right => Left
  }

  /**
   * Converts a unit axis vector into a direction. The out-parameter of the source is the
   * second component; for any other vector it is Left and the first component is false.
   */
  function ToDirection(v: Vec): (r: (bool, Direction))
    ensures r.0 <==> IsUnitAxisVector(v)
    ensures r.0 ==> ToVector(r.1) == v
    ensures !r.0 ==> r.1 == Left
  {
    if v == Vec(0, -1) then (true, Down)
    else if v == Vec(0, 1) then (true, Up)
    else if v == Vec(-1, 0) then (true, Left)
    else if v == Vec(1, 0) then (true, Right)
    else (false, Left)
  }

  predicate IsUnitAxisVector(v: Vec)
  {
    (v.x == 0 && (v.y == 1 || v.y == -1)) || (v.y == 0 && (v.x == 1 || v.x == -1))
  }

  lemma InverseIsInvolutionWithoutFixedPoint(d: Direction)
    ensures Inverse(Inverse(d)) == d
    ensures Inverse(d) != d
  {
    match d
    case Up =>
    case Down =>
    case Left =>
    case Right =>
  }

  lemma InverseNegatesVector(d: Direction)
    ensures ToVector(Inverse(d)) == Negate(ToVector(d))
  {
  }

  /** ToVector is a bijection between directions and the four unit axis vectors. */
  lemma ToVectorIsBijection(d: Direction, e: Direction, v: Vec)
    ensures IsUnitAxisVector(ToVector(d))
    ensures ToVector(d) == ToVector(e) ==> d == e
    ensures IsUnitAxisVector(v) ==> exists f :: ToVector(f) == v
  {
    if IsUnitAxisVector(v) {
      if v == Vec(0, 1) { assert ToVector(Up) == v; }
      else if v == Vec(0, -1) { assert ToVector(Down) == v; }
      else if v == Vec(1, 0) { assert ToVector(Right) == v; }
      else { assert ToVector(Left) == v; }
    }
  }

  lemma ToDirectionInvertsToVector(d: Direction)
    ensures ToDirection(ToVector(d)) == (true, d)
  {
  }

  lemma ToDirectionRejectsOtherVectors(v: Vec)
    ensures !IsUnitAxisVector(v) <==> ToDirection(v) == (false, Left)
  {
  }
}
