/** Plane geometry shared by the slider modules: optional values and points
    in the control's own coordinate space (x grows to the right, y downwards). */
module Geometry {

  /** A value that may be absent: an image that is not set, a touch that has
      no location, or a coordinate that the platform would compute as NaN. */
  datatype Option<T> = None | Some(value: T)

  datatype Point = Point(x: real, y: real)

  /** A rectangle given by an origin and a signed size, as the platform
      builds one from `(x, y, width, height)`. */
  datatype Rect = Rect(x: real, y: real, width: real, height: real) {

    /** Whether `p` lies in the rectangle once its size is made
        non-negative: the minimum edges belong to it, the maximum edges do not. */
    predicate Contains(p: Point) {
      Min(x, x + width) <= p.x < Max(x, x + width) &&
      Min(y, y + height) <= p.y < Max(y, y + height)
    }
  }

  /** The smaller of two reals, as the platform's `min(a, b)`. */
  function Min(a: real, b: real): (r: real)
    ensures r <= a && r <= b
    ensures r == a || r == b
  {
    if b < a then b else a
  }

  /** The larger of two reals, as the platform's `max(a, b)`. */
  function Max(a: real, b: real): (r: real)
    ensures a <= r && b <= r
    ensures r == a || r == b
  {
    if b >= a then b else a
  }
}
