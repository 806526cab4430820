/**
  RaBitQ's projection and its lookup-table scoring (crates/turbomemory_core/src/rabitq.rs).

  A vector of any dimension is padded to the next power of two, sign-flipped,
  transformed, and cut back to its own length. Scoring never decodes: it sums one table
  entry per code byte.
 */
module RaBitQ {
  import opened Vectors
  import opened Hadamard
  import opened HadamardLaws
  import opened Rotation

  /** `usize::next_power_of_two`. */
  function NextPow2(n: nat): (p: nat)
    requires n > 0
    ensures IsPow2(p) && n <= p < 2 * n
    ensures p == n <==> IsPow2(n)
    decreases n
  {
    if n == 1 then 1
    else
      var q := NextPow2((n + 1) / 2);
      NextStep((n + 1) / 2, n, q);
      2 * q
  }

  lemma {:induction false} NextStep(m: nat, n: nat, q: nat)
    requires n > 1 && m == (n + 1) / 2 && IsPow2(q) && m <= q < 2 * m && (q == m <==> IsPow2(m))
    ensures IsPow2(2 * q) && n <= 2 * q < 2 * n
    ensures 2 * q == n <==> IsPow2(n)
  {
    hide IsPow2;
    assert n <= 2 * m <= n + 1;
    OddIsOne(q);
    HalfOf(n);
    HalfOf(2 * q);
    assert (2 * q) / 2 == q;
  }

  lemma {:induction false} OddIsOne(q: nat)
    requires IsPow2(q)
    ensures q == 1 || q % 2 == 0
  {
  }

  lemma {:induction false} HalfOf(n: nat)
    requires n > 1
    ensures IsPow2(n) <==> n % 2 == 0 && IsPow2(n / 2)
  {
  }

  /** The quantizer's fixed numbers: `scale`, `norm` and `unscale` are the three square roots it takes. */
  datatype Quantizer = Quantizer(dim: nat, pad: nat, signs: Vec, scale: real, norm: real, unscale: real) {
    ghost predicate Valid()
    {
      && dim > 0 && pad == NextPow2(dim) && |signs| == pad && IsSigns(signs)
      && scale > 0.0 && scale * scale * (dim as real) == pad as real
      && unscale > 0.0 && unscale * unscale * (pad as real) == dim as real
      && IsInverseRoot(norm, pad)
    }
  }

  function Padded(v: Vec, pad: nat): (r: Vec)
    requires |v| <= pad
    ensures |r| == pad
  {
    v + Zeros(pad - |v|)
  }

  /** What `project` computes. */
  function Projected(q: Quantizer, v: Vec): (r: Vec)
    requires q.Valid() && |v| == q.dim
    ensures |r| == q.dim
  {
    Scale(q.norm, Transform(Times(q.signs, Scale(q.scale, Padded(v, q.pad))))[..q.dim])
  }

  /** What `inverse_project` computes. */
  function Unprojected(q: Quantizer, y: Vec): (r: Vec)
    requires q.Valid() && |y| == q.dim
    ensures |r| == q.dim
  {
    Scale(q.unscale, Times(q.signs, Scale(q.norm, Transform(Padded(y, q.pad))))[..q.dim])
  }

  lemma {:induction false} PaddedAt(v: Vec, pad: nat, i: nat)
    requires |v| <= pad && i < pad
    ensures Padded(v, pad)[i] == if i < |v| then v[i] else 0.0
  {
  }

  /** Coordinate by coordinate, `project` scales, pads and signs before it transforms, ... */
  lemma {:induction false} ProjectedAt(q: Quantizer, v: Vec, k: nat)
    requires q.Valid() && |v| == q.dim && k < q.dim
    ensures Projected(q, v)[k] == q.norm * Row(Times(q.signs, Scale(q.scale, Padded(v, q.pad))), 0, k)
  {
    hide Transform, Row, Times, Scale, Padded, IsSigns, NextPow2, IsInverseRoot;
    var w := Times(q.signs, Scale(q.scale, Padded(v, q.pad)));
    Closed(w, k);
    CutAt(q.norm, Transform(w), q.dim, k);
  }

  /** ... and `inverse_project` takes the signs off after it. */
  lemma {:induction false} UnprojectedAt(q: Quantizer, y: Vec, k: nat)
    requires q.Valid() && |y| == q.dim && k < q.dim
    ensures Unprojected(q, y)[k] == q.unscale * (q.signs[k] * (q.norm * Row(Padded(y, q.pad), 0, k)))
  {
    hide Transform, Row, Padded, IsSigns, NextPow2, IsInverseRoot, Times, Scale, Dot;
    var p := Padded(y, q.pad);
    Closed(p, k);
    SignedAt(q.signs, q.norm, Transform(p), k);
    CutAt(q.unscale, Times(q.signs, Scale(q.norm, Transform(p))), q.dim, k);
  }

  lemma {:induction false} SignedAt(signs: Vec, c: real, v: Vec, k: nat)
    requires |signs| == |v| && k < |v|
    ensures Times(signs, Scale(c, v))[k] == signs[k] * (c * v[k])
  {
    hide Times, Scale;
  }

  lemma {:induction false} CutAt(c: real, v: Vec, n: nat, k: nat)
    requires k < n <= |v|
    ensures Scale(c, v[..n])[k] == c * v[k]
  {
    hide Scale;
  }

  // ----- projection and back ---------------------------------------------------

  /** Against a padded vector only the leading coordinates matter. */
  lemma {:induction false} DotCut(w: Vec, v: Vec)
    requires |v| <= |w|
    ensures Dot(w, Padded(v, |w|)) == Dot(w[..|v|], v)
    ensures Dot(Padded(v, |w|), w) == Dot(v, w[..|v|])
  {
    var k := |v|;
    assert w == w[..k] + w[k..];
    DotConcat(w[..k], w[k..], v, Zeros(|w| - k));
    DotConcat(v, Zeros(|w| - k), w[..k], w[k..]);
    DotWithZeros(w[k..]);
  }

  lemma {:induction false} DotWithZeros(w: Vec)
    ensures Dot(w, Zeros(|w|)) == 0.0 == Dot(Zeros(|w|), w)
  {
    if w != [] {
      assert Zeros(|w|)[1..] == Zeros(|w| - 1);
      DotWithZeros(w[1..]);
    }
  }

  lemma {:induction false} ScaleCut(c: real, w: Vec, k: nat)
    requires k <= |w|
    ensures Scale(c, w)[..k] == Scale(c, w[..k])
  {
    HalvesOfScaled(c, w, k);
  }

  lemma {:induction false} RootsCancel(q: Quantizer)
    requires q.Valid()
    ensures q.scale * q.unscale == 1.0
  {
    hide NextPow2, IsPow2, IsSigns;
    var a, b := Mul(q.scale, q.scale), Mul(q.unscale, q.unscale);
    assert Mul(a, q.dim as real) == q.pad as real && Mul(b, q.pad as real) == q.dim as real;
    Reassociate(a, b, q.pad as real);
    CancelFactor(Mul(a, b), q.pad as real);
    Exchange(q.scale, q.unscale, q.scale, q.unscale);
    UnitRoot(q.scale * q.unscale);
  }

  lemma {:induction false} Exchange(s: real, u: real, t: real, v: real)
    ensures Mul(Mul(s, u), Mul(t, v)) == Mul(Mul(s, t), Mul(u, v))
  {
  }

  lemma {:induction false} Reassociate(a: real, b: real, c: real)
    ensures Mul(Mul(a, b), c) == Mul(a, Mul(b, c))
  {
  }

  lemma {:induction false} CancelFactor(x: real, p: real)
    requires p > 0.0 && x * p == p
    ensures x == 1.0
  {
    assert (x - 1.0) * p == 0.0;
    if x > 1.0 {
      SameSignProduct(x - 1.0, p);
    } else if x < 1.0 {
      SameSignProduct(1.0 - x, p);
    }
  }

  lemma {:induction false} UnitRoot(x: real)
    requires x * x == 1.0 && x > 0.0
    ensures x == 1.0
  {
    var a, b := x - 1.0, x + 1.0;
    assert a * b == x * x - 1.0;
    if a > 0.0 {
      SameSignProduct(a, b);
    } else if a < 0.0 {
      SameSignProduct(-a, b);
    }
  }

  /** Projecting a query and unprojecting a code are adjoint up to the factor `pad / dim`. */
  lemma {:induction false} Adjoint(q: Quantizer, v: Vec, y: Vec)
    requires q.Valid() && |v| == |y| == q.dim
    ensures (q.dim as real) * Dot(Projected(q, v), y) == (q.pad as real) * Dot(v, Unprojected(q, y))
  {
    hide Dot, Scale, Times, Transform, Padded, NextPow2, IsPow2, IsSigns, Projected, Unprojected;
    var a, b := Padded(v, q.pad), Transform(Padded(y, q.pad));
    var d := Dot(a, Times(q.signs, b));
    ProjectedDot(q, v, y);
    UnprojectedDot(q, v, y);
    RootsCancel(q);
    AdjointFactor(q.norm, q.scale, q.unscale, d, q.dim as real, q.pad as real);
  }

  lemma {:induction false} AdjointFactor(norm: real, scale: real, unscale: real, d: real, dim: real, pad: real)
    requires scale * unscale == 1.0 && scale * scale * dim == pad
    ensures dim * (norm * (scale * d)) == pad * (unscale * (norm * d))
  {
    var s := scale * scale;
    assert (s * dim) * (unscale * (norm * d)) == (scale * unscale) * (dim * (norm * (scale * d)));
  }

  lemma {:induction false} ProjectedDot(q: Quantizer, v: Vec, y: Vec)
    requires q.Valid() && |v| == |y| == q.dim
    ensures Dot(Projected(q, v), y)
            == q.norm * (q.scale * Dot(Padded(v, q.pad), Times(q.signs, Transform(Padded(y, q.pad)))))
  {
    hide Dot, Scale, Times, Transform, Padded;
    var a := Padded(v, q.pad);
    var s := Scale(q.scale, a);
    var w := Transform(Times(q.signs, s));
    DotScale(q.norm, w[..q.dim], y);
    DotCut(w, y);
    Symmetric(Times(q.signs, s), Padded(y, q.pad));
    DotTimes(q.signs, s, Transform(Padded(y, q.pad)));
    DotScale(q.scale, a, Times(q.signs, Transform(Padded(y, q.pad))));
  }

  lemma {:induction false} UnprojectedDot(q: Quantizer, v: Vec, y: Vec)
    requires q.Valid() && |v| == |y| == q.dim
    ensures Dot(v, Unprojected(q, y))
            == q.unscale * (q.norm * Dot(Padded(v, q.pad), Times(q.signs, Transform(Padded(y, q.pad)))))
  {
    hide Dot, Scale, Times, Transform, Padded;
    var b := Transform(Padded(y, q.pad));
    var w := Times(q.signs, Scale(q.norm, b));
    DotScale(q.unscale, v, w[..q.dim]);
    DotCut(w, v);
    TimesScale(q.signs, q.norm, b);
    DotScale(q.norm, Padded(v, q.pad), Times(q.signs, b));
  }

  /** With no padding, `inverse_project` undoes `project`. */
  lemma {:induction false} ProjectRoundTrip(q: Quantizer, v: Vec)
    requires q.Valid() && |v| == q.dim && q.dim == q.pad
    ensures Unprojected(q, Projected(q, v)) == v
  {
    hide Scale, Times, Transform;
    NoPadding(v);
    var a := Scale(q.scale, v);
    var y := Projected(q, v);
    var t := Transform(Times(q.signs, a));
    assert t[..q.dim] == t;
    assert y == Rotated(q.signs, q.norm, a);
    RotationRoundTrip(q.signs, q.norm, a);
    NoPadding(y);
    TimesScale(q.signs, q.norm, Transform(y));
    var w := Times(q.signs, Scale(q.norm, Transform(y)));
    assert w[..q.dim] == w;
    assert w == Unrotated(q.signs, q.norm, y);
    RootsCancel(q);
    ScaleTwice(q.unscale, q.scale, v);
  }

  lemma {:induction false} NoPadding(v: Vec)
    ensures Padded(v, |v|) == v
  {
  }

  lemma {:induction false} ScaleTwice(c: real, d: real, v: Vec)
    requires d * c == 1.0
    ensures Scale(c, Scale(d, v)) == v
  {
    hide Scale;
    forall i | 0 <= i < |v|
      ensures Scale(c, Scale(d, v))[i] == v[i]
    {
      assert c * (d * v[i]) == (d * c) * v[i];
    }
  }

  lemma {:induction false} TransformBasis(n: nat)
    requires IsPow2(n)
    ensures Transform(Basis(n, 0)) == Ones(n)
  {
    forall k | 0 <= k < n
      ensures Transform(Basis(n, 0))[k] == 1.0
    {
      Closed(Basis(n, 0), k);
      RowOfBasis(n, k);
    }
  }

  function Ones(n: nat): (r: Vec)
  {
    seq(n, _ => 1.0)
  }

  lemma {:induction false} RowOfBasis(n: nat, k: nat)
    requires n > 0
    ensures Row(Basis(n, 0), 0, k) == 1.0
  {
    assert Basis(n, 0)[1..] == Zeros(n - 1);
    RowOfZeros(n - 1, 1, k);
  }

  lemma {:induction false} RowOfZeros(n: nat, base: nat, k: nat)
    ensures Row(Zeros(n), base, k) == 0.0
  {
    hide Plus;
    if n > 0 {
      assert Zeros(n)[1..] == Zeros(n - 1);
      RowOfZeros(n - 1, base + 1, k);
    }
  }

  lemma {:induction false} DotOnes(n: nat)
    ensures Dot(Ones(n), Ones(n)) == n as real
  {
    if n > 0 {
      assert Ones(n)[1..] == Ones(n - 1);
      DotOnes(n - 1);
    }
  }

  lemma {:induction false} DotBasis(v: Vec)
    requires v != []
    ensures Dot(Basis(|v|, 0), v) == v[0]
  {
    assert Basis(|v|, 0)[1..] == Zeros(|v| - 1);
    DotWithZeros(v[1..]);
  }

  lemma {:induction false} FlippedBasis(signs: Vec, scale: real)
    requires signs != []
    ensures Times(signs, Scale(scale, Basis(|signs|, 0))) == Scale(scale * signs[0], Basis(|signs|, 0))
  {
    hide Scale, Times;
    var e := Basis(|signs|, 0);
    forall i | 0 <= i < |signs|
      ensures Times(signs, Scale(scale, e))[i] == Scale(scale * signs[0], e)[i]
    {
    }
  }

  lemma {:induction false} PaddedBasis(dim: nat, pad: nat)
    requires 0 < dim <= pad
    ensures Padded(Basis(dim, 0), pad) == Basis(pad, 0) && Ones(pad)[..dim] == Ones(dim)
  {
  }

  /** The first basis vector becomes a constant vector. */
  lemma {:induction false} ProjectedBasis(q: Quantizer)
    requires q.Valid()
    ensures Projected(q, Basis(q.dim, 0)) == Scale(q.norm, Scale(q.scale * q.signs[0], Ones(q.dim)))
  {
    hide Scale, Times, Transform, Padded, Basis, Ones;
    var c := q.scale * q.signs[0];
    PaddedBasis(q.dim, q.pad);
    FlippedBasis(q.signs, q.scale);
    TransformScale(c, Basis(q.pad, 0));
    TransformBasis(q.pad);
    ScaleCut(c, Ones(q.pad), q.dim);
  }

  /** The first basis vector keeps its length under projection, ... */
  lemma {:induction false} ProjectedBasisIsUnit(q: Quantizer)
    requires q.Valid()
    ensures Dot(Projected(q, Basis(q.dim, 0)), Projected(q, Basis(q.dim, 0))) == 1.0
  {
    hide Scale, Times, Transform, Dot, Projected, NextPow2, IsPow2;
    var c, o := q.scale * q.signs[0], Ones(q.dim);
    ProjectedBasis(q);
    DotScaledTwice(q.norm, c, o);
    DotOnes(q.dim);
    SignedSquare(q.scale, q.signs[0]);
    UnitFactor(q.norm, c, q.scale, q.dim as real, q.pad as real);
  }

  lemma {:induction false} SignedSquare(x: real, d: real)
    requires d == 1.0 || d == -1.0
    ensures (x * d) * (x * d) == x * x
  {
  }

  lemma {:induction false} DotScaledTwice(a: real, c: real, o: Vec)
    ensures var w := Scale(a, Scale(c, o)); Dot(w, w) == a * (a * (c * (c * Dot(o, o))))
  {
    hide Scale, Dot;
    var w := Scale(c, o);
    DotScale(a, w, Scale(a, w));
    DotScale(a, w, w);
    DotScale(c, o, w);
    DotScale(c, o, o);
  }

  lemma {:induction false} UnitFactor(norm: real, c: real, scale: real, n: real, p: real)
    requires c * c == scale * scale && scale * scale * n == p && norm * norm * p == 1.0
    ensures norm * (norm * (c * (c * n))) == 1.0
  {
    var s := c * c;
    assert c * (c * n) == s * n;
    assert norm * (norm * p) == norm * norm * p;
  }

  /** ... but comes back shrunk to `dim / pad`. */
  lemma {:induction false} BasisComesBackShrunk(q: Quantizer)
    requires q.Valid()
    ensures Unprojected(q, Projected(q, Basis(q.dim, 0)))[0] * (q.pad as real) == q.dim as real
  {
    hide Dot, Projected, Unprojected, NextPow2, IsPow2, IsSigns;
    var e := Basis(q.dim, 0);
    var back := Unprojected(q, Projected(q, e));
    Adjoint(q, e, Projected(q, e));
    ProjectedBasisIsUnit(q);
    DotBasis(back);
  }

  /** A nine-dimensional quantizer, padded to sixteen. */
  const NINE: Quantizer := Quantizer(9, 16, seq(16, _ => 1.0), 4.0 / 3.0, 1.0 / 4.0, 3.0 / 4.0)

  /** In nine dimensions the first basis vector comes back with its first coordinate at nine sixteenths. */
  lemma {:induction false} NineDimensionsShrink()
    ensures NINE.Valid() && Unprojected(NINE, Projected(NINE, Basis(9, 0)))[0] == 9.0 / 16.0
  {
    hide Projected, Unprojected, NextPow2, Quantizer.Valid, Basis;
    NineIsValid();
    BasisComesBackShrunk(NINE);
  }

  lemma {:induction false} NineIsValid()
    ensures NINE.Valid()
  {
    hide NextPow2, IsPow2;
    HalfStep(1, 2);
    HalfStep(2, 3);
    HalfStep(3, 5);
    HalfStep(5, 9);
    PowerOfOne();
  }

  lemma {:induction false} HalfStep(m: nat, n: nat)
    requires n > 1 && m == (n + 1) / 2
    ensures NextPow2(n) == 2 * NextPow2(m)
  {
    hide IsPow2;
  }

  lemma {:induction false} PowerOfOne()
    ensures NextPow2(1) == 1
  {
  }

  /**
    The "inverse orthogonal transform" inverts the projection on every vector exactly
    when the dimension is a power of two.
   */
  lemma {:induction false} ProjectInvertsIffPow2(q: Quantizer)
    requires q.Valid()
    ensures (forall v: Vec | |v| == q.dim :: Unprojected(q, Projected(q, v)) == v) <==> IsPow2(q.dim)
  {
    hide Projected, Unprojected;
    if IsPow2(q.dim) {
      forall v: Vec | |v| == q.dim
        ensures Unprojected(q, Projected(q, v)) == v
      {
        ProjectRoundTrip(q, v);
      }
    } else {
      var e := Basis(q.dim, 0);
      BasisComesBackShrunk(q);
      assert Unprojected(q, Projected(q, e))[0] != e[0];
    }
  }
}
