/** Real-number helpers shared by the scoring code: Python's `min`, `max`, the
    `max(lo, min(hi, x))` clamp, and IEEE-style extended values for the few
    places where a distance can be `float('inf')`. */
module Numeric {

  function Min(a: real, b: real): (r: real)
    ensures r <= a && r <= b
    ensures r == a || r == b
  {
    if b < a then b else a
  }

  function Max(a: real, b: real): (r: real)
    ensures a <= r && b <= r
    ensures r == a || r == b
  {
    if b > a then b else a
  }

  /** `max(lo, min(hi, x))`. */
  function Clamp(lo: real, hi: real, x: real): (r: real)
    requires lo <= hi
    ensures lo <= r <= hi
    ensures lo <= x <= hi ==> r == x
    ensures x < lo ==> r == lo
    ensures hi < x ==> r == hi
  {
    Max(lo, Min(hi, x))
  }

  function Abs(x: real): (r: real)
    ensures r >= 0.0 && (r == x || r == -x)
  {
    if x < 0.0 then -x else x
  }

  /** The product of non-negative reals is non-negative. */
  lemma ProductNonNegative(a: real, b: real)
    requires a >= 0.0 && b >= 0.0
    ensures a * b >= 0.0
  {
  }

  /** A Python float that may be infinite or NaN. */
  datatype Ext = Fin(v: real) | PosInf | NegInf | NaN

  /** `a * k` for a finite `k`, with IEEE rules: `inf * 0` is NaN. */
  function Scale(a: Ext, k: real): (r: Ext)
    ensures a.Fin? ==> r == Fin(a.v * k)
    ensures (a.PosInf? || a.NegInf?) && k == 0.0 ==> r.NaN?
    ensures a.PosInf? && k > 0.0 ==> r.PosInf?
    ensures a.NaN? ==> r.NaN?
  {
    match a
    case Fin(_) => Fin(a.v * k)
    case NaN => NaN
    case PosInf => if k > 0.0 then PosInf else if k < 0.0 then NegInf else NaN
    case NegInf => if k > 0.0 then NegInf else if k < 0.0 then PosInf else NaN
  }

  /** `a + k` for a finite `k`. */
  function Shift(a: Ext, k: real): (r: Ext)
    ensures a.Fin? ==> r == Fin(a.v + k)
    ensures !a.Fin? ==> r == a
  {
    match a
    case Fin(_) => Fin(a.v + k)
    case _ => a
  }

  /** Python's `<` on floats: every comparison with NaN is false. */
  predicate Less(a: Ext, b: Ext) {
    match (a, b)
    case (NaN, _) => false
    case (_, NaN) => false
    case (Fin(x), Fin(y)) => x < y
    case (NegInf, _) => !b.NegInf?
    case (_, PosInf) => !a.PosInf?
    case (_, _) => false
  }

  lemma LessIrreflexive(a: Ext)
    ensures !Less(a, a)
  {
  }

  lemma LessTransitive(a: Ext, b: Ext, c: Ext)
    requires Less(a, b) && Less(b, c)
    ensures Less(a, c)
  {
  }

  /** On values that are not NaN, `<` is a strict total order. */
  lemma LessTotal(a: Ext, b: Ext)
    requires !a.NaN? && !b.NaN? && a != b
    ensures Less(a, b) || Less(b, a)
  {
  }
}
