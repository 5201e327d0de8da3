/** What several of the models share. */
module Common {

  datatype Option<+T> = None | Some(value: T)

  /** The side of an order or signal. */
  datatype Action = BUY | SELL

  lemma {:induction false} SubsetSize<T>(x: set<T>, y: set<T>)
    requires x <= y
    ensures |x| <= |y|
  {
    assert y == x + (y - x);
  }

  lemma {:induction false} SignOfFactor(b: real, s: real)
    requires b > 0.0
    ensures (b * s > 0.0 <==> s > 0.0) && (b * s < 0.0 <==> s < 0.0)
  {
    if s > 0.0 { assert b * s > 0.0; }
    if s < 0.0 { assert b * (-s) > 0.0; }
  }
}
