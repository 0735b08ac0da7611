/**
 * Points and rectangles of AppKit (NSPoint, NSRect). CGFloat coordinates are
 * modelled as exact reals.
 */
module Geometry {

  datatype Point = Point(x: real, y: real)

  /** NSPoint.zero, the initial value of every point field. */
  const Zero := Point(0.0, 0.0)

  /** An NSRect: an origin and a size whose sides may be negative. */
  datatype Rect = Rect(x: real, y: real, width: real, height: real)

  function Abs(v: real): (r: real)
    ensures r >= 0.0 && (r == v || r == -v)
  {
    if v < 0.0 then -v else v
  }

  function Min(a: real, b: real): (r: real)
    ensures r <= a && r <= b && (r == a || r == b)
  {
    if a <= b then a else b
  }

  function Max(a: real, b: real): (r: real)
    ensures r >= a && r >= b && (r == a || r == b)
  {
    if a <= b then b else a
  }

  /**
   * The `width` and `height` getters of a CGRect: the lengths of the standardized
   * rectangle, never negative, whatever sign `size` holds.
   */
  function StandardWidth(r: Rect): (w: real)
    ensures w >= 0.0 && (w == r.width || w == -r.width)
  {
    Abs(r.width)
  }

  function StandardHeight(r: Rect): (h: real)
    ensures h >= 0.0 && (h == r.height || h == -r.height)
  {
    Abs(r.height)
  }

  /** NSRect.isEmpty: the rectangle has a side of length zero. */
  predicate IsEmpty(r: Rect)
  {
    r.width == 0.0 || r.height == 0.0
  }

  /** Both sides are non-negative: the origin is the lower-left corner. */
  predicate IsStandard(r: Rect)
  {
    r.width >= 0.0 && r.height >= 0.0
  }
}
