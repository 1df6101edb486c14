/** Grid geometry shared by every component: cells, headings, the Manhattan
    metric and the displacement a move along a heading produces. */
module Common {

  datatype Option<T> = None | Some(value: T)

  /** The four cardinal headings; "N" is +y and "E" is +x. */
  datatype Heading = N | E | S | W

  /** The observable colours of a traffic light. */
  datatype LightColor = Red | Green | Yellow

  function Abs(n: int): (r: nat)
    ensures r == n || r == -n
  {
    if n < 0 then -n else n
  }

  /** A grid cell; an immutable value. */
  datatype Position = Position(x: int, y: int) {

    /** Manhattan distance `|dx| + |dy|`. */
    function DistanceTo(other: Position): (d: int)
      ensures d >= 0
      ensures d == 0 <==> this == other
      ensures d >= Abs(x - other.x) && d >= Abs(y - other.y)
    {
      Abs(x - other.x) + Abs(y - other.y)
    }
  }

  lemma DistanceSymmetric(p: Position, q: Position)
    ensures p.DistanceTo(q) == q.DistanceTo(p)
  {
  }

  lemma DistanceTriangle(p: Position, q: Position, r: Position)
    ensures p.DistanceTo(r) <= p.DistanceTo(q) + q.DistanceTo(r)
  {
  }

  /** The cell reached from `p` after `speed` steps along `h`. */
  function Advance(p: Position, h: Heading, speed: int): (q: Position)
    ensures h == E || h == W ==> q.y == p.y && Abs(q.x - p.x) == Abs(speed)
    ensures h == N || h == S ==> q.x == p.x && Abs(q.y - p.y) == Abs(speed)
    ensures p.DistanceTo(q) == Abs(speed)
    ensures Forward(p, h, q) == speed && Lateral(p, h, q) == 0
  {
    match h
    case E => Position(p.x + speed, p.y)
    case W => Position(p.x - speed, p.y)
    case N => Position(p.x, p.y + speed)
    case S => Position(p.x, p.y - speed)
  }

  /** Offset of `p` from `car` measured along heading `h` (positive = ahead). */
  function Forward(car: Position, h: Heading, p: Position): int
  {
    match h
    case E => p.x - car.x
    case W => car.x - p.x
    case N => p.y - car.y
    case S => car.y - p.y
  }

  /** Offset of `p` from `car` across heading `h`, unsigned. */
  function Lateral(car: Position, h: Heading, p: Position): nat
  {
    match h
    case E => Abs(p.y - car.y)
    case W => Abs(p.y - car.y)
    case N => Abs(p.x - car.x)
    case S => Abs(p.x - car.x)
  }

  lemma ForwardLateralDistance(car: Position, h: Heading, p: Position)
    ensures car.DistanceTo(p) == Abs(Forward(car, h, p)) + Lateral(car, h, p)
  {
  }
}
