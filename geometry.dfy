/** Points of the drawing plane and the small vocabulary shared by the other modules. */
module Geometry {

  /** A control point or a sampled curve point; the source keeps these as
      two-element lists or numpy rows of floats, modelled here over `real`. */
  datatype Point = Point(x: real, y: real)

  /** `np.zeros(2)`, the accumulator a Bezier evaluation starts from. */
  const Origin := Point(0.0, 0.0)

  /** Component-wise sum of two points (numpy `+`). */
  function Add(p: Point, q: Point): Point
  {
    Point(p.x + q.x, p.y + q.y)
  }

  /** A point multiplied by a scalar (numpy `*` with a float). */
  function Scale(c: real, p: Point): Point
  {
    Point(c * p.x, c * p.y)
  }

  /** A value that may be absent: Python's `None`, a cancelled dialog. */
  datatype Option<T> = None | Some(value: T)
}
