// Vectors and axis-aligned boxes as the region shape and the AaBox wrapper
// use them. Coordinates are reals: single-precision rounding is not modelled.

module Geometry {

  /** FLT_MAX, the largest finite single-precision value. */
  const FltMax: real := 340282346638528859811704183484516925440.0

  datatype Vec3 = Vec3(x: real, y: real, z: real)
  {
    function Add(o: Vec3): Vec3 { Vec3(x + o.x, y + o.y, z + o.z) }
    function Sub(o: Vec3): Vec3 { Vec3(x - o.x, y - o.y, z - o.z) }
    function Neg(): Vec3 { Vec3(-x, -y, -z) }
    /** Componentwise product, Jolt's `*` on two Vec3. */
    function Mul(o: Vec3): Vec3 { Vec3(x * o.x, y * o.y, z * o.z) }
    function Scale(s: real): Vec3 { Vec3(s * x, s * y, s * z) }
    /** Componentwise `<=`, all three axes. */
    predicate AllLessOrEqual(o: Vec3) { x <= o.x && y <= o.y && z <= o.z }
  }

  function Replicate(v: real): Vec3 { Vec3(v, v, v) }

  function RealMin(a: real, b: real): real { if a < b then a else b }
  function RealMax(a: real, b: real): real { if a > b then a else b }

  /** Vec3::sMin / Vec3::sMax. */
  function MinVec(a: Vec3, b: Vec3): Vec3 { Vec3(RealMin(a.x, b.x), RealMin(a.y, b.y), RealMin(a.z, b.z)) }
  function MaxVec(a: Vec3, b: Vec3): Vec3 { Vec3(RealMax(a.x, b.x), RealMax(a.y, b.y), RealMax(a.z, b.z)) }

  /** Jolt's AABox: a minimum and a maximum corner. */
  datatype AABox = AABox(min: Vec3, max: Vec3)
  {
    /** The point lies between the corners on every axis, bounds included. */
    predicate Contains(p: Vec3) { min.AllLessOrEqual(p) && p.AllLessOrEqual(max) }

    /** The boxes are not separated along any axis. */
    predicate Overlaps(o: AABox) { min.AllLessOrEqual(o.max) && o.min.AllLessOrEqual(max) }

    predicate IsValid() { min.AllLessOrEqual(max) }
    function Center(): Vec3 { min.Add(max).Scale(0.5) }
    function Extent(): Vec3 { max.Sub(min).Scale(0.5) }
    function Size(): Vec3 { max.Sub(min) }
    function Volume(): real { var s := Size(); s.x * s.y * s.z }

    /** AABox::ExpandBy: move each corner outward by v. */
    function ExpandBy(v: Vec3): AABox { AABox(min.Sub(v), max.Add(v)) }
  }

  /** The box a default-constructed AABox holds: min = +FLT_MAX, max = -FLT_MAX. */
  const EmptyBox: AABox := AABox(Replicate(FltMax), Replicate(-FltMax))

  /** AABox::sBiggest, the biggest box whose size is still finite. */
  const BiggestBox: AABox := AABox(Replicate(-0.5 * FltMax), Replicate(0.5 * FltMax))

  /** The box from -h to +h, centred on the origin. */
  function CenteredBox(h: Vec3): (b: AABox)
    ensures forall p :: b.Contains(p) <==> b.Contains(p.Neg())
    ensures b.Center() == Vec3(0.0, 0.0, 0.0)
  {
    AABox(h.Neg(), h)
  }

  /** A point is in the centred box exactly when each coordinate is within the half extent. */
  lemma CenteredBoxContains(h: Vec3, p: Vec3)
    ensures CenteredBox(h).Contains(p) <==>
      (-h.x <= p.x <= h.x && -h.y <= p.y <= h.y && -h.z <= p.z <= h.z)
  {
  }

  /** The empty box contains no point and is not valid. */
  lemma EmptyBoxContainsNothing(p: Vec3)
    ensures !EmptyBox.Contains(p)
    ensures !EmptyBox.IsValid()
  {
  }

  /** Expanding by a non-negative amount keeps every point the box contained. */
  lemma ExpandByGrows(b: AABox, v: Vec3, p: Vec3)
    requires Replicate(0.0).AllLessOrEqual(v) && b.Contains(p)
    ensures b.ExpandBy(v).Contains(p)
  {
  }
}
