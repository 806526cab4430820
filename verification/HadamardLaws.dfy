/**
  What the Walsh-Hadamard transform means and keeps: its matrix form, its inverse,
  its symmetry, and Parseval's identity.
 */
module HadamardLaws {
  import opened Vectors
  import opened Hadamard

  // ----- the matrix form -----------------------------------------------------

  /** Bitwise AND of two naturals. */
  function And(j: nat, k: nat): (r: nat)
  {
    if j == 0 || k == 0 then 0 else (if j % 2 == 1 && k % 2 == 1 then 1 else 0) + 2 * And(j / 2, k / 2)
  }

  function Popcount(n: nat): (r: nat)
  {
    if n == 0 then 0 else n % 2 + Popcount(n / 2)
  }

  /** Entry `(j, k)` of the Hadamard matrix is `(-1)^popcount(j AND k)`: is it `+1`? */
  predicate Plus(j: nat, k: nat)
  {
    Popcount(And(j, k)) % 2 == 0
  }

  /** `sum over j of (-1)^popcount((base + j) AND k) * v[j]`. */
  function Row(v: Vec, base: nat, k: nat): (r: real)
  {
    if v == [] then 0.0 else (if Plus(base, k) then v[0] else -v[0]) + Row(v[1..], base + 1, k)
  }

  lemma {:induction false} PlusHalves(j: nat, k: nat)
    ensures Plus(j, k) == (Plus(j / 2, k / 2) != (j % 2 == 1 && k % 2 == 1))
  {
    var bit := if j % 2 == 1 && k % 2 == 1 then 1 else 0;
    assert And(j, k) == bit + 2 * And(j / 2, k / 2);
    assert Popcount(And(j, k)) == bit + Popcount(And(j / 2, k / 2));
  }

  /** Setting the top bit of both indexes flips the sign; setting it in one does nothing. */
  lemma {:induction false} PlusTopBit(j: nat, k: nat, h: nat)
    requires IsPow2(h) && j < h && k < h
    ensures Plus(j + h, k) == Plus(j, k) == Plus(j, k + h)
    ensures Plus(j + h, k + h) == !Plus(j, k)
    decreases h
  {
    PlusHalves(j, k);
    PlusHalves(j + h, k);
    PlusHalves(j, k + h);
    PlusHalves(j + h, k + h);
    hide Plus;
    if h > 1 {
      PlusTopBit(j / 2, k / 2, h / 2);
      assert (j + h) / 2 == j / 2 + h / 2 && (k + h) / 2 == k / 2 + h / 2;
    }
  }

  lemma {:induction false} RowConcat(a: Vec, b: Vec, base: nat, k: nat)
    ensures Row(a + b, base, k) == Row(a, base, k) + Row(b, base + |a|, k)
  {
    hide Plus;
    if a == [] {
      assert a + b == b;
    } else {
      assert (a + b)[1..] == a[1..] + b;
      RowConcat(a[1..], b, base + 1, k);
    }
  }

  /** Row `k + h` agrees with row `k` on the first half and is its negation on the second. */
  lemma {:induction false} RowTopBit(v: Vec, base: nat, k: nat, h: nat)
    requires IsPow2(h) && k < h && base + |v| <= h
    ensures Row(v, base + h, k) == Row(v, base, k) == Row(v, base, k + h)
    ensures Row(v, base + h, k + h) == -Row(v, base, k)
  {
    hide Plus, IsPow2;
    if v != [] {
      RowTopBit(v[1..], base + 1, k, h);
      PlusTopBit(base, k, h);
    }
  }

  lemma {:induction false} FlyIndex(a: Vec, b: Vec, k: nat)
    requires |a| == |b| && k < 2 * |a|
    ensures Fly(a, b)[k] == if k < |a| then a[k] + b[k] else a[k - |a|] - b[k - |a|]
  {
    hide Add, Sub;
  }

  /** The transform is the matrix product: `Transform(v)[k] == sum_j (-1)^popcount(j AND k) v[j]`. */
  lemma {:induction false} Closed(v: Vec, k: nat)
    requires IsPow2(|v|) && k < |v|
    ensures Transform(v)[k] == Row(v, 0, k)
    decreases |v|
  {
    hide Transform, Row;
    if |v| == 1 {
      ClosedOne(v);
    } else {
      var h := |v| / 2;
      ClosedStep(v, h, k, if k < h then k else k - h);
      Closed(v[..h], if k < h then k else k - h);
      Closed(v[h..], if k < h then k else k - h);
    }
  }

  lemma {:induction false} ClosedOne(v: Vec)
    requires |v| == 1
    ensures Transform(v)[0] == Row(v, 0, 0)
  {
  }

  lemma {:induction false} ClosedStep(v: Vec, h: nat, k: nat, r: nat)
    requires IsPow2(h) && |v| == 2 * h && k < |v| && r == if k < h then k else k - h
    ensures var a, b := Transform(v[..h]), Transform(v[h..]);
            Transform(v)[k] == if k < h then a[r] + b[r] else a[r] - b[r]
    ensures var a, b := Row(v[..h], 0, r), Row(v[h..], 0, r);
            Row(v, 0, k) == if k < h then a + b else a - b
  {
    hide Transform, Row;
    var a, b := v[..h], v[h..];
    assert a + b == v;
    TransformJoin(a, b);
    FlyIndex(Transform(a), Transform(b), k);
    RowConcat(a, b, 0, k);
    RowTopBit(a, 0, r, h);
    RowTopBit(b, 0, r, h);
  }

  // ----- linearity -----------------------------------------------------------

  lemma {:induction false} TransformAdd(u: Vec, v: Vec)
    requires IsPow2(|u|) && |u| == |v|
    ensures Transform(Add(u, v)) == Add(Transform(u), Transform(v))
    ensures Transform(Sub(u, v)) == Sub(Transform(u), Transform(v))
    decreases |u|
  {
    hide Add, Sub, Fly, Transform;
    if |u| == 1 {
      TransformOne(u);
      TransformOne(v);
      TransformOne(Add(u, v));
      TransformOne(Sub(u, v));
    } else {
      var h := |u| / 2;
      TransformHalves(u);
      TransformHalves(v);
      TransformHalves(Add(u, v));
      TransformHalves(Sub(u, v));
      TransformAdd(u[..h], v[..h]);
      TransformAdd(u[h..], v[h..]);
      HalvesOfSum(u, v, h);
      FlyOfSums(Transform(u[..h]), Transform(u[h..]), Transform(v[..h]), Transform(v[h..]));
    }
  }

  lemma {:induction false} TransformOne(v: Vec)
    requires |v| == 1
    ensures Transform(v) == v
  {
  }

  lemma {:induction false} TransformHalves(v: Vec)
    requires IsPow2(|v|) && |v| > 1
    ensures Transform(v) == Fly(Transform(v[..|v| / 2]), Transform(v[|v| / 2..]))
  {
    hide Fly;
  }

  lemma {:induction false} HalvesOfSum(u: Vec, v: Vec, h: nat)
    requires |u| == |v| && h <= |u|
    ensures Add(u, v)[..h] == Add(u[..h], v[..h]) && Add(u, v)[h..] == Add(u[h..], v[h..])
    ensures Sub(u, v)[..h] == Sub(u[..h], v[..h]) && Sub(u, v)[h..] == Sub(u[h..], v[h..])
  {
    hide Add, Sub;
  }

  lemma {:induction false} FlyOfSums(a: Vec, b: Vec, c: Vec, d: Vec)
    requires |a| == |b| == |c| == |d|
    ensures Fly(Add(a, c), Add(b, d)) == Add(Fly(a, b), Fly(c, d))
    ensures Fly(Sub(a, c), Sub(b, d)) == Sub(Fly(a, b), Fly(c, d))
  {
    hide Add, Sub;
  }

  lemma {:induction false} TransformScale(c: real, v: Vec)
    requires IsPow2(|v|)
    ensures Transform(Scale(c, v)) == Scale(c, Transform(v))
    decreases |v|
  {
    hide Scale, Fly, Transform;
    if |v| == 1 {
      TransformOne(v);
      TransformOne(Scale(c, v));
    } else {
      var h := |v| / 2;
      TransformHalves(v);
      TransformHalves(Scale(c, v));
      TransformScale(c, v[..h]);
      TransformScale(c, v[h..]);
      HalvesOfScaled(c, v, h);
      FlyOfScaled(c, Transform(v[..h]), Transform(v[h..]));
    }
  }

  lemma {:induction false} HalvesOfScaled(c: real, v: Vec, h: nat)
    requires h <= |v|
    ensures Scale(c, v)[..h] == Scale(c, v[..h]) && Scale(c, v)[h..] == Scale(c, v[h..])
  {
    hide Scale;
    forall i | 0 <= i < h
      ensures Scale(c, v)[..h][i] == Scale(c, v[..h])[i]
    {
      assert v[..h][i] == v[i];
    }
    forall i | 0 <= i < |v| - h
      ensures Scale(c, v)[h..][i] == Scale(c, v[h..])[i]
    {
      assert v[h..][i] == v[h + i];
    }
  }

  lemma {:induction false} FlyOfScaled(c: real, a: Vec, b: Vec)
    requires |a| == |b|
    ensures Fly(Scale(c, a), Scale(c, b)) == Scale(c, Fly(a, b))
  {
    hide Add, Sub, Scale;
    var s, t := Fly(Scale(c, a), Scale(c, b)), Scale(c, Fly(a, b));
    forall i | 0 <= i < |s|
      ensures s[i] == t[i]
    {
      var j := if i < |a| then i else i - |a|;
      Distribute(c, a[j], b[j]);
      Distribute(c, a[j], -b[j]);
    }
  }

  // ----- inverse, symmetry, Parseval ------------------------------------------

  /** Applying the transform twice multiplies by the dimension. */
  lemma {:induction false} Involution(v: Vec)
    requires IsPow2(|v|)
    ensures Transform(Transform(v)) == Scale(|v| as real, v)
    decreases |v|
  {
    hide Transform, Scale;
    if |v| == 1 {
      TransformOne(v);
      TransformOne(Transform(v));
      ScaleOne(v);
    } else {
      var h := |v| / 2;
      Involution(v[..h]);
      Involution(v[h..]);
      InvolutionStep(v[..h], v[h..]);
      assert v == v[..h] + v[h..];
    }
  }

  lemma {:induction false} ScaleOne(v: Vec)
    requires |v| == 1
    ensures Scale(1.0, v) == v
  {
  }

  lemma {:induction false} InvolutionStep(a: Vec, b: Vec)
    requires IsPow2(|a|) && |a| == |b|
    requires Transform(Transform(a)) == Scale(|a| as real, a)
    requires Transform(Transform(b)) == Scale(|a| as real, b)
    ensures IsPow2(|a + b|) && Transform(Transform(a + b)) == Scale(|a + b| as real, a + b)
  {
    hide Transform, Add, Sub, Scale, Fly;
    var p, q := Transform(a), Transform(b);
    TransformJoin(a, b);
    FlyIsJoin(p, q);
    TransformJoin(Add(p, q), Sub(p, q));
    TransformAdd(p, q);
    FlyTwice(Transform(p), Transform(q));
    DoubleScale(|a| as real, a, b);
    assert 2.0 * (|a| as real) == |a + b| as real;
  }

  lemma {:induction false} FlyIsJoin(p: Vec, q: Vec)
    requires |p| == |q|
    ensures Fly(p, q) == Add(p, q) + Sub(p, q)
  {
  }

  lemma {:induction false} FlyTwice(p: Vec, q: Vec)
    requires |p| == |q|
    ensures Fly(Add(p, q), Sub(p, q)) == Scale(2.0, p) + Scale(2.0, q)
  {
    hide Add, Sub, Scale;
  }

  lemma {:induction false} DoubleScale(c: real, a: Vec, b: Vec)
    ensures Scale(2.0, Scale(c, a)) + Scale(2.0, Scale(c, b)) == Scale(2.0 * c, a + b)
  {
    hide Scale;
    var s, t := Scale(2.0, Scale(c, a)) + Scale(2.0, Scale(c, b)), Scale(2.0 * c, a + b);
    forall i | 0 <= i < |s|
      ensures s[i] == t[i]
    {
    }
  }

  /** The transform is its own transpose. */
  lemma {:induction false} Symmetric(u: Vec, v: Vec)
    requires IsPow2(|u|) && |u| == |v|
    ensures Dot(Transform(u), v) == Dot(u, Transform(v))
    decreases |u|
  {
    hide Transform, Dot, Add, Sub, Fly;
    if |u| == 1 {
      TransformOne(u);
      TransformOne(v);
    } else {
      var h := |u| / 2;
      var a, b, c, d := u[..h], u[h..], v[..h], v[h..];
      Halves(u, h);
      Halves(v, h);
      Symmetric(a, Add(c, d));
      Symmetric(b, Sub(c, d));
      SymmetricStep(a, b, c, d);
    }
  }

  lemma {:induction false} Halves(u: Vec, h: nat)
    requires h <= |u|
    ensures u[..h] + u[h..] == u
  {
  }

  lemma {:induction false} SymmetricStep(a: Vec, b: Vec, c: Vec, d: Vec)
    requires IsPow2(|a|) && |a| == |b| == |c| == |d|
    requires Dot(Transform(a), Add(c, d)) == Dot(a, Transform(Add(c, d)))
    requires Dot(Transform(b), Sub(c, d)) == Dot(b, Transform(Sub(c, d)))
    ensures IsPow2(|a + b|) && Dot(Transform(a + b), c + d) == Dot(a + b, Transform(c + d))
  {
    hide Transform, Dot, Add, Sub, Fly;
    var p, q, r, s := Transform(a), Transform(b), Transform(c), Transform(d);
    TransformJoin(a, b);
    TransformJoin(c, d);
    FlyIsJoin(p, q);
    FlyIsJoin(r, s);
    TransformAdd(c, d);
    DotConcat(Add(p, q), Sub(p, q), c, d);
    DotButterfly(p, q, c, d);
    DotConcat(a, b, Add(r, s), Sub(r, s));
  }

  /** Parseval's identity: the transform multiplies every inner product by the dimension. */
  lemma {:induction false} Parseval(u: Vec, v: Vec)
    requires IsPow2(|u|) && |u| == |v|
    ensures Dot(Transform(u), Transform(v)) == (|u| as real) * Dot(u, v)
  {
    hide Transform, Dot, Scale;
    Symmetric(u, Transform(v));
    Involution(v);
    DotScale(|u| as real, u, v);
  }
}
