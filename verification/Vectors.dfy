/** Dense vectors over exact reals: the arithmetic the transforms are built from. */
module Vectors {

  type Vec = seq<real>

  function Add(u: Vec, v: Vec): (r: Vec)
    requires |u| == |v|
    ensures |r| == |u| && forall i :: 0 <= i < |u| ==> r[i] == u[i] + v[i]
  {
    if u == [] then [] else [u[0] + v[0]] + Add(u[1..], v[1..])
  }

  function Sub(u: Vec, v: Vec): (r: Vec)
    requires |u| == |v|
    ensures |r| == |u| && forall i :: 0 <= i < |u| ==> r[i] == u[i] - v[i]
  {
    if u == [] then [] else [u[0] - v[0]] + Sub(u[1..], v[1..])
  }

  function Scale(c: real, v: Vec): (r: Vec)
    ensures |r| == |v| && forall i :: 0 <= i < |v| ==> r[i] == c * v[i]
  {
    if v == [] then [] else [c * v[0]] + Scale(c, v[1..])
  }

  /** Pointwise product: a diagonal matrix applied to a vector. */
  function Times(d: Vec, v: Vec): (r: Vec)
    requires |d| == |v|
    ensures |r| == |v| && forall i :: 0 <= i < |v| ==> r[i] == d[i] * v[i]
  {
    if v == [] then [] else [d[0] * v[0]] + Times(d[1..], v[1..])
  }

  function Zeros(n: nat): (r: Vec)
  {
    seq(n, _ => 0.0)
  }

  /** The `k`-th standard basis vector. */
  function Basis(n: nat, k: nat): (r: Vec)
  {
    seq(n, i => if i == k then 1.0 else 0.0)
  }

  /** A diagonal of signs. */
  predicate IsSigns(d: Vec)
  {
    forall i :: 0 <= i < |d| ==> d[i] == 1.0 || d[i] == -1.0
  }

  /** Product of two reals. Named so that a sum of products stays linear in the products. */
  function Mul(x: real, y: real): (r: real)
  {
    x * y
  }

  function Dot(u: Vec, v: Vec): (r: real)
    requires |u| == |v|
  {
    if u == [] then 0.0 else Mul(u[0], v[0]) + Dot(u[1..], v[1..])
  }

  // ----- scalar identities ---------------------------------------------------

  lemma {:induction false} CrossTerms(p: real, q: real, r: real, s: real)
    ensures Mul(p + q, r) + Mul(p - q, s) == Mul(p, r + s) + Mul(q, r - s)
  {
  }

  lemma {:induction false} MulAssoc(c: real, x: real, y: real)
    ensures Mul(c * x, y) == c * Mul(x, y) == Mul(x, c * y)
  {
  }

  lemma {:induction false} Distribute(c: real, x: real, y: real)
    ensures c * (x + y) == c * x + c * y
  {
  }

  lemma {:induction false} SameSignProduct(x: real, y: real)
    requires (x > 0.0 && y > 0.0) || (x < 0.0 && y < 0.0)
    ensures Mul(x, y) > 0.0
  {
  }

  lemma {:induction false} SumOfSquares(x: real, rest: real)
    requires rest >= 0.0
    ensures Mul(x, x) + rest >= 0.0
    ensures Mul(x, x) + rest == 0.0 ==> x == 0.0 && rest == 0.0
  {
    if x != 0.0 {
      SameSignProduct(x, x);
    }
  }

  lemma {:induction false} SignSquare(d: real, x: real)
    requires d == 1.0 || d == -1.0
    ensures d * (d * x) == x
  {
  }

  // ----- inner products ------------------------------------------------------

  lemma {:induction false} DotConcat(a: Vec, b: Vec, c: Vec, d: Vec)
    requires |a| == |c| && |b| == |d|
    ensures Dot(a + b, c + d) == Dot(a, c) + Dot(b, d)
  {
    if a == [] {
      assert a + b == b && c + d == d;
    } else {
      assert (a + b)[1..] == a[1..] + b && (c + d)[1..] == c[1..] + d;
      DotConcat(a[1..], b, c[1..], d);
    }
  }

  /** A butterfly is its own transpose. */
  lemma {:induction false} DotButterfly(x: Vec, y: Vec, c: Vec, d: Vec)
    requires |x| == |y| == |c| == |d|
    ensures Dot(Add(x, y), c) + Dot(Sub(x, y), d) == Dot(x, Add(c, d)) + Dot(y, Sub(c, d))
  {
    if x != [] {
      DotButterfly(x[1..], y[1..], c[1..], d[1..]);
      CrossTerms(x[0], y[0], c[0], d[0]);
    }
  }

  lemma {:induction false} DotScale(c: real, u: Vec, v: Vec)
    requires |u| == |v|
    ensures Dot(Scale(c, u), v) == c * Dot(u, v)
    ensures Dot(u, Scale(c, v)) == c * Dot(u, v)
  {
    if u != [] {
      DotScale(c, u[1..], v[1..]);
      MulAssoc(c, u[0], v[0]);
      Distribute(c, Mul(u[0], v[0]), Dot(u[1..], v[1..]));
    }
  }

  lemma {:induction false} DotTimes(d: Vec, u: Vec, v: Vec)
    requires |d| == |u| == |v|
    ensures Dot(Times(d, u), v) == Dot(u, Times(d, v))
  {
    if u != [] {
      DotTimes(d[1..], u[1..], v[1..]);
      MulAssoc(d[0], u[0], v[0]);
    }
  }

  lemma {:induction false} SignsCancel(d: Vec, v: Vec)
    requires |d| == |v| && IsSigns(d)
    ensures Times(d, Times(d, v)) == v
  {
    hide Times;
    forall i | 0 <= i < |v|
      ensures Times(d, Times(d, v))[i] == v[i]
    {
      SignSquare(d[i], v[i]);
    }
  }

  lemma {:induction false} DotSelf(v: Vec)
    ensures Dot(v, v) >= 0.0
    ensures Dot(v, v) == 0.0 ==> v == Zeros(|v|)
  {
    if v != [] {
      DotSelf(v[1..]);
      SumOfSquares(v[0], Dot(v[1..], v[1..]));
      if Dot(v, v) == 0.0 {
        forall i | 0 <= i < |v|
          ensures v[i] == 0.0
        {
          if i > 0 {
            assert v[i] == v[1..][i - 1];
          }
        }
      }
    }
  }
}
