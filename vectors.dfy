/** Two-dimensional real vectors and the framework's scalar interpolation.
    Positions and velocities of the gas particles are three-component arrays
    whose z component is always zero; only x and y are kept here. */
module Vectors {

  datatype Vec = Vec(x: real, y: real)

  function Add(a: Vec, b: Vec): Vec
  {
    Vec(a.x + b.x, a.y + b.y)
  }

  function Scale(k: real, v: Vec): Vec
  {
    Vec(k * v.x, k * v.y)
  }

  function Sq(a: real): real
  {
    a * a
  }

  /** The squared Euclidean norm; magnitudes are compared through it. */
  function NormSq(v: Vec): real
  {
    Sq(v.x) + Sq(v.y)
  }

  function Dot(a: Vec, b: Vec): real
  {
    a.x * b.x + a.y * b.y
  }

  /** a points the same way as b: parallel (zero cross product) and not opposed. */
  predicate SameDirection(a: Vec, b: Vec)
  {
    a.x * b.y == a.y * b.x && Dot(a, b) > 0.0
  }

  /** Every vector of vs multiplied by k (numpy's `v * k` over a list). */
  function ScaleAll(k: real, vs: seq<Vec>): seq<Vec>
  {
    seq(|vs|, i requires 0 <= i < |vs| => Scale(k, vs[i]))
  }

  function Min(a: real, b: real): real
  {
    if a <= b then a else b
  }

  function Max(a: real, b: real): real
  {
    if a >= b then a else b
  }

  function Abs(a: real): real
  {
    if a < 0.0 then -a else a
  }

  /** The framework's `interpolate(start, end, alpha)`. */
  function Lerp(start: real, end: real, alpha: real): (r: real)
    ensures alpha == 0.0 ==> r == start
    ensures alpha == 1.0 ==> r == end
    ensures r - start == alpha * (end - start)
  {
    (1.0 - alpha) * start + alpha * end
  }

  lemma LerpBetween(start: real, end: real, alpha: real)
    requires 0.0 <= alpha <= 1.0
    ensures Min(start, end) <= Lerp(start, end, alpha) <= Max(start, end)
  {
    var d := end - start;
    if d >= 0.0 {
      assert alpha * d >= 0.0;
      assert d - alpha * d == (1.0 - alpha) * d;
      assert (1.0 - alpha) * d >= 0.0;
    } else {
      assert alpha * (-d) >= 0.0;
      assert (1.0 - alpha) * (-d) >= 0.0;
    }
  }

  lemma SquarePositive(a: real)
    ensures Sq(a) >= 0.0
    ensures a != 0.0 ==> Sq(a) > 0.0
  {
    if a > 0.0 {
      assert Sq(a) / a == a;
    } else if a < 0.0 {
      assert Sq(a) == Sq(-a);
      assert Sq(-a) / (-a) == -a;
    }
  }

  lemma NormSqScale(k: real, v: Vec)
    ensures NormSq(Scale(k, v)) == Sq(k) * NormSq(v)
  {
    assert Sq(k * v.x) == Sq(k) * Sq(v.x);
    assert Sq(k * v.y) == Sq(k) * Sq(v.y);
  }

  lemma NormSqZero(v: Vec)
    ensures NormSq(v) >= 0.0
    ensures NormSq(v) == 0.0 <==> v == Vec(0.0, 0.0)
  {
    SquarePositive(v.x);
    SquarePositive(v.y);
    if v.x == 0.0 && v.y == 0.0 {
      assert v == Vec(0.0, 0.0);
    }
  }

  /** A positive multiple of a nonzero vector keeps its direction. */
  lemma ScaleSameDirection(k: real, v: Vec)
    requires k > 0.0 && v != Vec(0.0, 0.0)
    ensures SameDirection(Scale(k, v), v)
  {
    NormSqZero(v);
    assert Dot(Scale(k, v), v) == k * NormSq(v);
  }

  lemma ScaleAllOne(vs: seq<Vec>)
    ensures ScaleAll(1.0, vs) == vs
  {
    var r := ScaleAll(1.0, vs);
    forall i | 0 <= i < |vs|
      ensures r[i] == vs[i]
    {
    }
  }

  lemma RatioChain(a: real, b: real, c: real, x: real)
    requires a != 0.0 && b != 0.0
    ensures (c / b) * ((b / a) * x) == (c / a) * x
  {
  }

  /** Scaling by b/a and then by c/b is scaling by c/a: ratios telescope. */
  lemma ScaleAllRatio(a: real, b: real, c: real, vs: seq<Vec>)
    requires a != 0.0 && b != 0.0
    ensures ScaleAll(c / b, ScaleAll(b / a, vs)) == ScaleAll(c / a, vs)
  {
    var l, r := ScaleAll(c / b, ScaleAll(b / a, vs)), ScaleAll(c / a, vs);
    forall i | 0 <= i < |vs|
      ensures l[i] == r[i]
    {
      RatioChain(a, b, c, vs[i].x);
      RatioChain(a, b, c, vs[i].y);
    }
  }

  lemma RatioAtLeastOne(a: real, b: real)
    requires 0.0 < b <= a
    ensures a / b >= 1.0
  {
  }
}
