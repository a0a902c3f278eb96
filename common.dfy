/** Values shared by every part of the note board model: optional values,
    points and sizes in canvas or screen space, and JavaScript's `Math.max`. */
module Common {

  /** `T | null | undefined` of the source. */
  datatype Option<T> = None | Some(value: T) {
    /** The `??` operator: the value when present, `default` otherwise. */
    function GetOr(default: T): T {
      match this
      case Some(v) => v
      case None => default
    }
  }

  /** JavaScript truthiness of a `string | null`: present and not the empty string. */
  predicate Truthy(s: Option<string>) {
    s.Some? && s.value != ""
  }

  /** An `{ x, y }` pair. */
  datatype Point = Point(x: real, y: real)

  /** A `{ width, height }` pair. */
  datatype Size = Size(width: real, height: real)

  function Add(p: Point, q: Point): Point {
    Point(p.x + q.x, p.y + q.y)
  }

  function Sub(p: Point, q: Point): Point {
    Point(p.x - q.x, p.y - q.y)
  }

  function Mul(p: Point, s: real): Point {
    Point(p.x * s, p.y * s)
  }

  function Div(p: Point, s: real): Point
    requires s != 0.0
  {
    Point(p.x / s, p.y / s)
  }

  function Max(a: real, b: real): real {
    if a >= b then a else b
  }

  function Min(a: real, b: real): real {
    if a <= b then a else b
  }

  function MaxInt(a: int, b: int): int {
    if a >= b then a else b
  }
}
