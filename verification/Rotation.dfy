/**
  The seeded random rotation in front of TurboQuant: sign flips, the Walsh-Hadamard
  transform, and a `1/sqrt(n)` scale (crates/turbomemory_core/src/lib.rs `precondition`,
  `rotate_to_turbo_quant_domain`; turbo_quant.rs `rotate_forward`, `rotate_backward`).

  The seed enters as the diagonal of signs it determines, and the square root as a
  function parameter that is exact on non-negative reals.
 */
module Rotation {
  import opened Vectors
  import opened Hadamard
  import opened HadamardLaws

  ghost predicate IsSqrt(sqrt: real -> real)
  {
    forall x {:trigger sqrt(x)} :: x >= 0.0 ==> sqrt(x) >= 0.0 && sqrt(x) * sqrt(x) == x
  }

  /** `inv` is `1/sqrt(n)`. */
  predicate IsInverseRoot(inv: real, n: nat)
  {
    inv * inv * (n as real) == 1.0
  }

  // ----- specification: forward and backward rotation ------------------------

  function Rotated(signs: Vec, inv: real, v: Vec): (r: Vec)
    requires |signs| == |v| && IsPow2(|v|)
  {
    Scale(inv, Transform(Times(signs, v)))
  }

  function Unrotated(signs: Vec, inv: real, y: Vec): (r: Vec)
    requires |signs| == |y| && IsPow2(|y|)
  {
    Scale(inv, Times(signs, Transform(y)))
  }

  function Normalized(norm: real, v: Vec): (r: Vec)
  {
    if norm > 0.0 then Scale(1.0 / norm, v) else v
  }

  /** Coordinate by coordinate, the signs go on before the transform, ... */
  lemma {:induction false} RotatedAt(signs: Vec, inv: real, v: Vec, k: nat)
    requires |signs| == |v| && IsPow2(|v|) && k < |v|
    ensures Rotated(signs, inv, v)[k] == inv * Row(Times(signs, v), 0, k)
  {
    hide Transform, Row, Times, Scale;
    Closed(Times(signs, v), k);
  }

  /** ... and come off after it. */
  lemma {:induction false} UnrotatedAt(signs: Vec, inv: real, y: Vec, k: nat)
    requires |signs| == |y| && IsPow2(|y|) && k < |y|
    ensures Unrotated(signs, inv, y)[k] == inv * (signs[k] * Row(y, 0, k))
  {
    hide Transform, Row, Times, Scale;
    Closed(y, k);
  }

  lemma {:induction false} ScaleCancel(c: real, n: nat, v: Vec)
    requires IsInverseRoot(c, n)
    ensures Scale(c, Scale(c, Scale(n as real, v))) == v
  {
    hide Scale;
    forall i | 0 <= i < |v|
      ensures Scale(c, Scale(c, Scale(n as real, v)))[i] == v[i]
    {
      CancelOne(c, n as real, v[i]);
    }
  }

  lemma {:induction false} CancelOne(c: real, n: real, x: real)
    requires c * c * n == 1.0
    ensures c * (c * (n * x)) == x
  {
    assert c * (c * (n * x)) == (c * c * n) * x;
  }

  lemma {:induction false} TimesScale(d: Vec, c: real, v: Vec)
    requires |d| == |v|
    ensures Times(d, Scale(c, v)) == Scale(c, Times(d, v))
  {
    hide Times, Scale;
    forall i | 0 <= i < |v|
      ensures Times(d, Scale(c, v))[i] == Scale(c, Times(d, v))[i]
    {
    }
  }

  /** For one seed the rotation keeps every inner product. */
  lemma {:induction false} RotationKeepsDot(signs: Vec, inv: real, u: Vec, v: Vec)
    requires |signs| == |u| == |v| && IsPow2(|v|) && IsSigns(signs) && IsInverseRoot(inv, |v|)
    ensures Dot(Rotated(signs, inv, u), Rotated(signs, inv, v)) == Dot(u, v)
  {
    hide Transform, Dot, Scale, Times;
    var a, b := Times(signs, u), Times(signs, v);
    var n := |v| as real;
    DotScale(inv, Transform(a), Scale(inv, Transform(b)));
    DotScale(inv, Transform(a), Transform(b));
    Parseval(a, b);
    DotTimes(signs, u, b);
    SignsCancel(signs, v);
    CancelOne(inv, n, Dot(u, v));
  }

  /** Rotating back undoes rotating, and the other way round. */
  lemma {:induction false} RotationRoundTrip(signs: Vec, inv: real, v: Vec)
    requires |signs| == |v| && IsPow2(|v|) && IsSigns(signs) && IsInverseRoot(inv, |v|)
    ensures Unrotated(signs, inv, Rotated(signs, inv, v)) == v
    ensures Rotated(signs, inv, Unrotated(signs, inv, v)) == v
  {
    hide Transform, Scale, Times;
    var n := |v| as real;
    var a, b := Times(signs, v), Transform(v);
    TransformScale(inv, Transform(a));
    Involution(a);
    TimesScale(signs, inv, Scale(n, a));
    TimesScale(signs, n, a);
    SignsCancel(signs, v);
    ScaleCancel(inv, |v|, v);
    TimesScale(signs, inv, Times(signs, b));
    SignsCancel(signs, b);
    TransformScale(inv, b);
    Involution(v);
  }

  // ----- the in-place pipeline ------------------------------------------------

  /** `random_diagonal_precondition`. */
  method FlipSigns(v: array<real>, signs: Vec)
    requires |signs| == v.Length
    modifies v
    ensures v[..] == Times(signs, old(v[..]))
  {
    hide Mul;
    ghost var was := v[..];
    for i := 0 to v.Length
      invariant forall k {:trigger v[k]} :: 0 <= k < i ==> v[k] == Mul(signs[k], was[k])
      invariant forall k {:trigger v[k]} :: i <= k < v.Length ==> v[k] == was[k]
    {
      v[i] := Mul(signs[i], v[i]);
    }
    TimesIs(signs, was, v[..]);
  }

  lemma {:induction false} TimesIs(d: Vec, was: Vec, now: Vec)
    requires |d| == |was| == |now| && forall k :: 0 <= k < |now| ==> now[k] == Mul(d[k], was[k])
    ensures now == Times(d, was)
  {
  }

  lemma {:induction false} ScaleIs(c: real, was: Vec, now: Vec)
    requires |was| == |now| && forall k :: 0 <= k < |now| ==> now[k] == Mul(c, was[k])
    ensures now == Scale(c, was)
  {
  }

  method ScaleInPlace(v: array<real>, c: real)
    modifies v
    ensures v[..] == Scale(c, old(v[..]))
  {
    hide Mul;
    ghost var was := v[..];
    for i := 0 to v.Length
      invariant forall k {:trigger v[k]} :: 0 <= k < i ==> v[k] == Mul(c, was[k])
      invariant forall k {:trigger v[k]} :: i <= k < v.Length ==> v[k] == was[k]
    {
      v[i] := Mul(c, v[i]);
    }
    ScaleIs(c, was, v[..]);
  }

  lemma {:induction false} InverseOfRoot(root: real, n: nat)
    requires n > 0 && root >= 0.0 && root * root == n as real
    ensures root > 0.0 && IsInverseRoot(1.0 / root, n)
  {
    var inv := 1.0 / root;
    assert inv * root == 1.0;
    assert inv * inv * (root * root) == (inv * root) * (inv * root);
  }

  /** `precondition`. */
  method Precondition(v: array<real>, signs: Vec, sqrt: real -> real)
    requires IsPow2(v.Length) && |signs| == v.Length && IsSigns(signs) && IsSqrt(sqrt)
    modifies v
    ensures var inv := 1.0 / sqrt(v.Length as real);
            IsInverseRoot(inv, v.Length) && v[..] == Rotated(signs, inv, old(v[..]))
  {
    hide Transform, Times, Scale;
    FlipSigns(v, signs);
    Fwht(v);
    InverseOfRoot(sqrt(v.Length as real), v.Length);
    ScaleInPlace(v, 1.0 / sqrt(v.Length as real));
  }

  method SumOfSquaresOf(v: array<real>) returns (r: real)
    ensures r == Dot(v[..], v[..])
  {
    r := 0.0;
    for i := 0 to v.Length
      invariant r == Dot(v[..i], v[..i])
    {
      assert v[..i + 1] == v[..i] + [v[i]];
      DotConcat(v[..i], [v[i]], v[..i], [v[i]]);
      r := r + Mul(v[i], v[i]);
    }
    assert v[..v.Length] == v[..];
  }

  lemma {:induction false} UnitAfterNormalizing(norm: real, v: Vec)
    requires norm >= 0.0 && norm * norm == Dot(v, v)
    ensures norm > 0.0 ==> Dot(Normalized(norm, v), Normalized(norm, v)) == 1.0
    ensures norm == 0.0 ==> v == Zeros(|v|)
    ensures Scale(norm, Normalized(norm, v)) == v
  {
    hide Scale, Dot, Zeros;
    if norm > 0.0 {
      var c := 1.0 / norm;
      ScaledDot(c, v);
      UnitProduct(c, norm);
      ScaleBack(norm, c, v);
    } else {
      DotSelf(v);
      ScaleZeros(norm, v);
    }
  }

  lemma {:induction false} ScaledDot(c: real, v: Vec)
    ensures Dot(Scale(c, v), Scale(c, v)) == c * (c * Dot(v, v))
  {
    hide Scale, Dot;
    DotScale(c, v, Scale(c, v));
    DotScale(c, v, v);
  }

  lemma {:induction false} UnitProduct(c: real, norm: real)
    requires norm > 0.0 && c == 1.0 / norm
    ensures c * norm == 1.0 && c * (c * (norm * norm)) == 1.0
  {
    assert c * norm == 1.0;
    assert c * (c * (norm * norm)) == (c * norm) * (c * norm);
  }

  lemma {:induction false} ScaleBack(norm: real, c: real, v: Vec)
    requires c * norm == 1.0
    ensures Scale(norm, Scale(c, v)) == v
  {
    hide Scale;
    forall i | 0 <= i < |v|
      ensures Scale(norm, Scale(c, v))[i] == v[i]
    {
      assert norm * (c * v[i]) == (c * norm) * v[i];
    }
  }

  lemma {:induction false} ScaleZeros(norm: real, v: Vec)
    requires v == Zeros(|v|)
    ensures Scale(norm, v) == v
  {
    hide Scale;
    assert forall i :: 0 <= i < |v| ==> v[i] == 0.0;
  }

  /**
    `rotate_to_turbo_quant_domain` and `rotate_forward`: returns the norm, leaves a unit
    vector for every nonzero input, and loses nothing: rotating back and rescaling by
    the returned norm gives the input again.
   */
  method RotateForward(v: array<real>, signs: Vec, sqrt: real -> real) returns (norm: real)
    requires IsPow2(v.Length) && |signs| == v.Length && IsSigns(signs) && IsSqrt(sqrt)
    modifies v
    ensures norm >= 0.0 && norm * norm == old(Dot(v[..], v[..]))
    ensures norm > 0.0 ==> Dot(v[..], v[..]) == 1.0
    ensures norm == 0.0 <==> old(v[..]) == Zeros(v.Length)
    ensures Scale(norm, Unrotated(signs, 1.0 / sqrt(v.Length as real), v[..])) == old(v[..])
  {
    hide Transform, Times, Scale, Dot, Rotated, Unrotated, Normalized;
    ghost var orig := v[..];
    var sum := SumOfSquaresOf(v);
    DotSelf(orig);
    norm := sqrt(sum);
    UnitAfterNormalizing(norm, orig);
    ZeroNorm(norm, orig);
    if norm > 0.0 {
      ScaleInPlace(v, 1.0 / norm);
    }
    NormalizedIs(norm, orig);
    ghost var unit := v[..];
    Precondition(v, signs, sqrt);
    ghost var inv := 1.0 / sqrt(v.Length as real);
    RotationKeepsDot(signs, inv, unit, unit);
    RotationRoundTrip(signs, inv, unit);
  }

  lemma {:induction false} NormalizedIs(norm: real, v: Vec)
    ensures Normalized(norm, v) == if norm > 0.0 then Scale(1.0 / norm, v) else v
  {
  }

  lemma {:induction false} ZeroNorm(norm: real, v: Vec)
    requires norm >= 0.0 && norm * norm == Dot(v, v)
    ensures v == Zeros(|v|) ==> norm == 0.0
  {
    if v == Zeros(|v|) {
      DotZeros(|v|);
      if norm > 0.0 {
        SameSignProduct(norm, norm);
      }
    }
  }

  lemma {:induction false} DotZeros(n: nat)
    ensures Dot(Zeros(n), Zeros(n)) == 0.0
  {
    if n > 0 {
      assert Zeros(n)[1..] == Zeros(n - 1);
      DotZeros(n - 1);
    }
  }

  /** `rotate_backward`. */
  method RotateBackward(v: array<real>, signs: Vec, sqrt: real -> real)
    requires IsPow2(v.Length) && |signs| == v.Length && IsSigns(signs) && IsSqrt(sqrt)
    modifies v
    ensures v[..] == Unrotated(signs, 1.0 / sqrt(v.Length as real), old(v[..]))
  {
    hide Transform, Times, Scale;
    Fwht(v);
    FlipSigns(v, signs);
    InverseOfRoot(sqrt(v.Length as real), v.Length);
    ScaleInPlace(v, 1.0 / sqrt(v.Length as real));
  }
}
