/** The small helper datatype shared by the other modules. */
module Wrappers {
  datatype Option<+T> = None | Some(value: T)
}

/** Search scores: the evaluator's integer scores together with the two
    sentinels the search starts from, minus and plus infinity (MIN and MAX
    in minimax_cupid.py), ordered the way the search compares them. */
module Score {

  datatype Ext = NegInf | Fin(n: int) | PosInf

  /** a <= b in the order -inf < every finite score < +inf. */
  predicate Le(a: Ext, b: Ext) {
    a.NegInf? || b.PosInf? || (a.Fin? && b.Fin? && a.n <= b.n)
  }

  predicate Lt(a: Ext, b: Ext) {
    !Le(b, a)
  }

  /** Python's max(a, b): the second argument is taken only when it is
      strictly greater; the result is the least upper bound of the two. */
  function Max(a: Ext, b: Ext): (r: Ext)
    ensures Le(a, r) && Le(b, r) && (r == a || r == b)
  {
    if Lt(a, b) then b else a
  }

  /** Python's min(a, b): the second argument is taken only when it is
      strictly smaller; the result is the greatest lower bound of the two. */
  function Min(a: Ext, b: Ext): (r: Ext)
    ensures Le(r, a) && Le(r, b) && (r == a || r == b)
  {
    if Lt(b, a) then b else a
  }
}
