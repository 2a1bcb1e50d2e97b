/** Go's float64 with exact finite arithmetic: rounding and overflow are not modelled, the
    special values are. */
module Floats {
  datatype F64 = NaN | Inf(negative: bool) | Fin(x: real)

  predicate Negative(a: F64) {
    match a
    case NaN => false
    case Inf(n) => n
    case Fin(x) => x < 0.0
  }

  function Add(a: F64, b: F64): F64 {
    match (a, b)
    case (Fin(x), Fin(y)) => Fin(x + y)
    case (NaN, _) => NaN
    case (_, NaN) => NaN
    case (Inf(n), Inf(m)) => if n == m then a else NaN
    case (Inf(_), Fin(_)) => a
    case (Fin(_), Inf(_)) => b
  }

  function Sub(a: F64, b: F64): F64 {
    match b
    case NaN => NaN
    case Inf(n) => Add(a, Inf(!n))
    case Fin(y) => Add(a, Fin(-y))
  }

  function Mul(a: F64, b: F64): F64 {
    match (a, b)
    case (Fin(x), Fin(y)) => Fin(x * y)
    case (NaN, _) => NaN
    case (_, NaN) => NaN
    case _ => if a == Fin(0.0) || b == Fin(0.0) then NaN else Inf(Negative(a) != Negative(b))
  }

  function Div(a: F64, b: F64): F64
    requires b != Fin(0.0)
  {
    match (a, b)
    case (Fin(x), Fin(y)) => Fin(x / y)
    case (NaN, _) => NaN
    case (_, NaN) => NaN
    case (Inf(_), Inf(_)) => NaN
    case (Fin(_), Inf(_)) => Fin(0.0)
    case (Inf(_), Fin(_)) => Inf(Negative(a) != Negative(b))
  }

  predicate Positive(a: F64) {
    match a
    case NaN => false
    case Inf(n) => !n
    case Fin(x) => x > 0.0
  }

  function Abs(x: real): real {
    if x < 0.0 then -x else x
  }

  /** Go's `math.Round`: to the nearest integer, halves away from zero. */
  function Round(x: real): int {
    if x >= 0.0 then (x + 0.5).Floor else -((0.5 - x).Floor)
  }

  function Distance(n: int, x: real): real {
    Abs(n as real - x)
  }

  /** No integer is nearer, and of two equally near ones the rounded one is farther from zero. */
  lemma RoundIsNearest(x: real)
    ensures Distance(Round(x), x) <= 0.5
    ensures forall n: int :: Distance(Round(x), x) <= Distance(n, x)
    ensures Distance(Round(x), x) == 0.5 ==> Abs(Round(x) as real) > Abs(x)
  {
    forall n: int
      ensures Distance(Round(x), x) <= Distance(n, x)
    {
      var r := Round(x);
      if n < r {
        assert n as real <= (r - 1) as real;
      } else if n > r {
        assert n as real >= (r + 1) as real;
      }
    }
  }
}
