/** Positions and the planar distance approximation used throughout the engine:
    `111 * sqrt(dlat^2 + dlng^2)` kilometres, infinite when a position is missing. */
module Geo {
  import opened Wrappers
  import opened Numeric

  datatype Pos = Pos(lat: real, lng: real)

  /** `math.sqrt`, known only by the facts the model relies on: it is zero on
      zero and positive on positive arguments. */
  type SqrtFn = f: real -> real
    | forall x :: (x <= 0.0 ==> f(x) == 0.0) && (0.0 < x ==> 0.0 < f(x))
    witness (x: real) => if x > 0.0 then x else 0.0

  lemma SquareNonNegative(a: real)
    ensures a * a >= 0.0
  {
    if a < 0.0 {
      var n := -a;
      assert n * n > 0.0;
      assert a * a == n * n;
    }
  }

  /** `(lat1 - lat2)**2 + (lng1 - lng2)**2`, in square degrees. */
  function SquaredDegrees(p: Pos, q: Pos): (d: real)
    ensures d >= 0.0
  {
    var a := p.lat - q.lat;
    var b := p.lng - q.lng;
    SquareNonNegative(a);
    SquareNonNegative(b);
    a * a + b * b
  }

  /** Kilometres between two present positions. */
  function Km(p: Pos, q: Pos, sqrt: SqrtFn): (d: real)
    ensures d >= 0.0
  {
    sqrt(SquaredDegrees(p, q)) * 111.0
  }

  /** `calculate_distance`: a missing position (an empty dictionary in the
      source) yields infinity. */
  function Distance(p: Option<Pos>, q: Option<Pos>, sqrt: SqrtFn): (d: Ext)
    ensures d.PosInf? <==> p.None? || q.None?
    ensures !d.PosInf? ==> d.Fin? && d.v >= 0.0
  {
    if p.None? || q.None? then PosInf
    else Fin(Km(p.value, q.value, sqrt))
  }
}
