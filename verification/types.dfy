/** Shared shapes of the drawing component: points in canvas pixel space,
    the optional value used for "no pivot yet", and the committed line record. */
module Types {

  datatype Option<+T> = None | Some(value: T)

  /** A position in pixels. Browser coordinates are doubles; this model
      restricts them to whole pixels so that lengths can be stated exactly. */
  datatype Point = Point(x: int, y: int)

  /** A committed segment as the canvas component stores it: its two ends and
      the length that was measured when it was committed. */
  datatype Line = Line(start: Point, end: Point, length: real)
}
