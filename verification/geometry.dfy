/**
  Planar geometry of the canvas. `CGSize` serves the source both as a size and as an
  offset of an item's centre from the canvas centre; `CGFloat` is modelled as `real`.
*/
module Geometry {

  /** A width/height pair: an item's size, a centre offset or a drag translation. */
  datatype Size = Size(width: real, height: real) {

    function Plus(other: Size): Size {
      Size(width + other.width, height + other.height)
    }

    predicate NonNegative() {
      width >= 0.0 && height >= 0.0
    }
  }

  /** `CGSize.zero`. */
  const Zero: Size := Size(0.0, 0.0)

  function Abs(x: real): (r: real)
    ensures r >= 0.0
    ensures r == x || r == -x
  {
    if x < 0.0 then -x else x
  }

  function Min(a: real, b: real): (r: real)
    ensures r <= a && r <= b
    ensures r == a || r == b
  {
    if a <= b then a else b
  }

  function Max(a: real, b: real): (r: real)
    ensures r >= a && r >= b
    ensures r == a || r == b
  {
    if a >= b then a else b
  }

  /** Axis-aligned bounding edges: left, right, top (smaller y) and bottom. */
  datatype Edges = Edges(l: real, r: real, t: real, b: real)

  /** The edges of a box centred at `center` with the given half-extents. */
  function EdgesOf(center: Size, halfW: real, halfH: real): (e: Edges)
    ensures e.l + e.r == 2.0 * center.width && e.t + e.b == 2.0 * center.height
    ensures e.r - e.l == 2.0 * halfW && e.b - e.t == 2.0 * halfH
  {
    Edges(center.width - halfW, center.width + halfW, center.height - halfH, center.height + halfH)
  }

  /** The smallest scale used when an item's visual or snapping size is computed. */
  const MinEffectiveScale: real := 0.4

  /** `max(scale, 0.4)`: the floor applies to sizing only, never to the stored scale. */
  function EffectiveScale(scale: real): (r: real)
    ensures r >= MinEffectiveScale && r >= scale
    ensures r == scale || r == MinEffectiveScale
  {
    Max(scale, MinEffectiveScale)
  }

  /** `frameSize * max(scale, 0.4)`, the size an item occupies on the canvas. */
  function EffectiveSize(frame: Size, scale: real): (r: Size)
    ensures scale >= MinEffectiveScale ==> r == Size(frame.width * scale, frame.height * scale)
    ensures scale < MinEffectiveScale ==>
              r == Size(frame.width * MinEffectiveScale, frame.height * MinEffectiveScale)
    ensures frame.NonNegative() ==> r.NonNegative()
  {
    Size(frame.width * EffectiveScale(scale), frame.height * EffectiveScale(scale))
  }

  lemma ProductNonNegative(a: real, b: real)
    requires a >= 0.0 && b >= 0.0
    ensures a * b >= 0.0
  {
  }

  /**
    Growing the scale never shrinks an item's effective size, and every scale at or below
    the 0.4 floor gives the same size: a pinch below the floor is invisible to sizing and
    to snapping.
  */
  lemma EffectiveSizeMonotone(frame: Size, s1: real, s2: real)
    requires frame.NonNegative() && s1 <= s2
    ensures EffectiveSize(frame, s1).width <= EffectiveSize(frame, s2).width
    ensures EffectiveSize(frame, s1).height <= EffectiveSize(frame, s2).height
    ensures s2 <= MinEffectiveScale ==> EffectiveSize(frame, s1) == EffectiveSize(frame, s2)
  {
    var e1, e2 := EffectiveScale(s1), EffectiveScale(s2);
    var d := e2 - e1;
    assert d >= 0.0;
    assert EffectiveSize(frame, s2).width == EffectiveSize(frame, s1).width + frame.width * d;
    assert EffectiveSize(frame, s2).height == EffectiveSize(frame, s1).height + frame.height * d;
    ProductNonNegative(frame.width, d);
    ProductNonNegative(frame.height, d);
  }
}
