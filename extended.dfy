/**
 * Extended reals: the floats the source compares, with +inf as a value of
 * its own (`np.inf` on the diagonal, `float("inf")` as a fold's start).
 */
module Extended {

  datatype Ext = Fin(v: real) | Inf

  /** The order of the extended reals: +inf is above every real. */
  predicate Le(x: Ext, y: Ext) {
    match x
    case Inf => y == Inf
    case Fin(a) => y.Inf? || a <= y.v
  }

  function Min(x: Ext, y: Ext): (m: Ext)
    ensures Le(m, x) && Le(m, y) && (m == x || m == y)
  {
    if Le(x, y) then x else y
  }

  lemma LeAntisymmetric(x: Ext, y: Ext)
    requires Le(x, y) && Le(y, x)
    ensures x == y
  {
  }
}
