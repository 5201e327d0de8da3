/** Exact numbers with the special values a float column can hold: NaN and the two infinities.
    Rounding and the sign of zero are not modelled. */
module Num {

  datatype Num = NaN | NegInf | PosInf | Fin(v: real)

  function Neg(a: Num): Num {
    match a
    case NaN => NaN
    case NegInf => PosInf
    case PosInf => NegInf
    case Fin(v) => Fin(-v)
  }

  function Add(a: Num, b: Num): Num {
    match (a, b)
    case (NaN, _) => NaN
    case (_, NaN) => NaN
    case (Fin(x), Fin(y)) => Fin(x + y)
    case (Fin(_), _) => b
    case (_, Fin(_)) => a
    case (_, _) => if a == b then a else NaN
  }

  function Sub(a: Num, b: Num): Num { Add(a, Neg(b)) }

  function Sign(a: Num): int {
    match a
    case NaN => 0
    case NegInf => -1
    case PosInf => 1
    case Fin(v) => if v > 0.0 then 1 else if v < 0.0 then -1 else 0
  }

  function Infinite(sign: int): Num {
    if sign > 0 then PosInf else if sign < 0 then NegInf else NaN
  }

  function Mul(a: Num, b: Num): Num {
    match (a, b)
    case (NaN, _) => NaN
    case (_, NaN) => NaN
    case (Fin(x), Fin(y)) => Fin(x * y)
    case (_, _) => Infinite(Sign(a) * Sign(b))
  }

  /** A product with a positive number. */
  function Scale(a: Num, k: real): Num
    requires k > 0.0
  {
    if a.Fin? then Fin(a.v * k) else a
  }

  /** A quotient by zero is infinite, and NaN for 0 / 0. */
  function Div(a: Num, b: Num): Num {
    match (a, b)
    case (NaN, _) => NaN
    case (_, NaN) => NaN
    case (Fin(x), Fin(y)) => if y == 0.0 then Infinite(Sign(a)) else Fin(x / y)
    case (Fin(_), _) => Fin(0.0)
    case (_, Fin(y)) => Infinite(Sign(a) * (if y < 0.0 then -1 else 1))
    case (_, _) => NaN
  }

  /** Comparisons are false when a side is NaN. */
  predicate Lt(a: Num, b: Num) {
    match (a, b)
    case (NaN, _) => false
    case (_, NaN) => false
    case (Fin(x), Fin(y)) => x < y
    case (NegInf, _) => b != NegInf
    case (PosInf, _) => false
    case (Fin(_), _) => b == PosInf
  }

  predicate Le(a: Num, b: Num) { Lt(a, b) || (a == b && a != NaN) }

  predicate Gt(a: Num, b: Num) { Lt(b, a) }

  predicate Ge(a: Num, b: Num) { Le(b, a) }

  function Abs(a: Num): Num { if Lt(a, Fin(0.0)) then Neg(a) else a }

  /** The larger of two values, skipping NaN. */
  function Larger(a: Num, b: Num): Num {
    if a == NaN then b else if Lt(a, b) then b else a
  }

  /** The smaller of two values, skipping NaN. */
  function Smaller(a: Num, b: Num): Num {
    if a == NaN then b else if Lt(b, a) then b else a
  }

  function Earlier(a: Num, b: Num): Num { if a == NaN then b else a }

  function Later(a: Num, b: Num): Num { if b == NaN then a else b }

  /** Between known values, not below means at least. */
  lemma {:induction false} NotLessIsAtLeast(a: Num, b: Num)
    ensures a != NaN && b != NaN ==> (Lt(a, b) <==> !Ge(a, b))
  {
  }

  lemma {:induction false} PositiveIsNotAtMost(a: Num)
    ensures a != NaN ==> (Gt(a, Fin(0.0)) <==> !Le(a, Fin(0.0)))
  {
  }
}
