/**
  The fast Walsh-Hadamard transform (crates/turbomemory_core/src/lib.rs, `fwht`).

  `Transform` is the recursive transform; `Fwht` is the in-place butterfly loop and is
  proved to compute it.
 */
module Hadamard {
  import opened Vectors

  predicate IsPow2(n: nat)
  {
    n == 1 || (n > 1 && n % 2 == 0 && IsPow2(n / 2))
  }

  /** One butterfly over two halves. */
  function Fly(a: Vec, b: Vec): (r: Vec)
    requires |a| == |b|
  {
    Add(a, b) + Sub(a, b)
  }

  function Transform(v: Vec): (r: Vec)
    requires IsPow2(|v|)
    ensures |r| == |v|
    decreases |v|
  {
    if |v| == 1 then v
    else
      var h := |v| / 2;
      Fly(Transform(v[..h]), Transform(v[h..]))
  }

  // ----- the in-place loop computes Transform --------------------------------

  predicate Multiple(n: nat, h: nat)
    requires h > 0
  {
    n == 0 || (n >= h && Multiple(n - h, h))
  }

  /** The state of the array after stage `h`: every aligned block of size `h` is transformed. */
  function Blocks(s: Vec, h: nat): (r: Vec)
    requires IsPow2(h) && Multiple(|s|, h)
    ensures |r| == |s|
    decreases |s|
  {
    if s == [] then []
    else Blocks(s[..|s| - h], h) + Transform(s[|s| - h..])
  }

  /** One pass of butterflies of span `h`. */
  function Stage(s: Vec, h: nat): (r: Vec)
    requires h > 0 && Multiple(|s|, 2 * h)
    ensures |r| == |s|
    decreases |s|
  {
    if s == [] then []
    else
      var m := |s| - 2 * h;
      Stage(s[..m], h) + Fly(s[m..m + h], s[m + h..])
  }

  lemma {:induction false} Assoc3(x: Vec, y: Vec, z: Vec)
    ensures x + y + z == x + (y + z)
  {
  }

  lemma {:induction false} TransformJoin(a: Vec, b: Vec)
    requires IsPow2(|a|) && |a| == |b|
    ensures IsPow2(|a + b|) && Transform(a + b) == Fly(Transform(a), Transform(b))
  {
    assert (a + b)[..|a|] == a && (a + b)[|a|..] == b;
  }

  lemma {:induction false} BlocksSnoc(s: Vec, b: Vec, h: nat)
    requires IsPow2(h) && Multiple(|s|, h) && |b| == h
    ensures Multiple(|s + b|, h) && Blocks(s + b, h) == Blocks(s, h) + Transform(b)
  {
    var t := s + b;
    assert t[..|t| - h] == s && t[|t| - h..] == b;
  }

  lemma {:induction false} BlocksSnoc2(s: Vec, a: Vec, b: Vec, h: nat)
    requires IsPow2(h) && Multiple(|s|, h) && |a| == |b| == h
    ensures Multiple(|s + (a + b)|, h) && Blocks(s + (a + b), h) == Blocks(s, h) + (Transform(a) + Transform(b))
  {
    var x, y, z := Blocks(s, h), Transform(a), Transform(b);
    BlocksSnoc(s, a, h);
    BlocksSnoc(s + a, b, h);
    Assoc3(s, a, b);
    Assoc3(x, y, z);
  }

  lemma {:induction false} StageSnoc(s: Vec, a: Vec, b: Vec, h: nat)
    requires h > 0 && Multiple(|s|, 2 * h) && |a| == |b| == h
    ensures Multiple(|s + (a + b)|, 2 * h) && Stage(s + (a + b), h) == Stage(s, h) + Fly(a, b)
  {
    hide Fly;
    var t := s + (a + b);
    var m := |t| - 2 * h;
    assert t[..m] == s && t[m..m + h] == a && t[m + h..] == b;
  }

  lemma {:induction false} MultipleOfDouble(n: nat, h: nat)
    requires h > 0 && Multiple(n, 2 * h)
    ensures Multiple(n, h)
  {
    if n > 0 {
      MultipleOfDouble(n - 2 * h, h);
      assert Multiple(n - h, h);
    }
  }

  lemma {:induction false} SplitBlock(s: Vec, h: nat)
    requires |s| >= 2 * h
    ensures var m := |s| - 2 * h; s == s[..m] + (s[m..m + h] + s[m + h..])
  {
  }

  lemma {:induction false} StageOfNothing(h: nat)
    requires IsPow2(h) && IsPow2(2 * h)
    ensures Stage(Blocks([], h), h) == Blocks([], 2 * h)
  {
  }

  lemma {:induction false} StageDoublesSnoc(p: Vec, a: Vec, b: Vec, h: nat)
    requires IsPow2(h) && IsPow2(2 * h) && Multiple(|p|, 2 * h) && Multiple(|p|, h) && |a| == |b| == h
    requires Stage(Blocks(p, h), h) == Blocks(p, 2 * h)
    ensures var s := p + (a + b); Multiple(|s|, 2 * h) && Multiple(|s|, h) && Stage(Blocks(s, h), h) == Blocks(s, 2 * h)
  {
    BlocksSnoc2(p, a, b, h);
    StageSnoc(Blocks(p, h), Transform(a), Transform(b), h);
    TransformJoin(a, b);
    BlocksSnoc(p, a + b, 2 * h);
  }

  /** A pass of span `h` turns transformed blocks of size `h` into transformed blocks of size `2h`. */
  lemma {:induction false} StageDoublesBlocks(s: Vec, h: nat)
    requires IsPow2(h) && Multiple(|s|, 2 * h)
    ensures IsPow2(2 * h) && Multiple(|s|, h)
    ensures Stage(Blocks(s, h), h) == Blocks(s, 2 * h)
    decreases |s|
  {
    hide Stage, Blocks;
    MultipleOfDouble(|s|, h);
    if s == [] {
      StageOfNothing(h);
    } else {
      var m := |s| - 2 * h;
      StageDoublesBlocks(s[..m], h);
      StageDoublesSnoc(s[..m], s[m..m + h], s[m + h..], h);
      SplitBlock(s, h);
    }
  }

  lemma {:induction false} Pow2Halves(h: nat, n: nat)
    requires IsPow2(h) && IsPow2(n) && h < n
    ensures 2 * h <= n
  {
    if h > 1 {
      Pow2Halves(h / 2, n / 2);
    }
  }

  lemma {:induction false} MultipleSum(a: nat, b: nat, h: nat)
    requires h > 0 && Multiple(a, h) && Multiple(b, h)
    ensures Multiple(a + b, h)
    decreases a
  {
    if a > 0 {
      MultipleSum(a - h, b, h);
    }
  }

  lemma {:induction false} Pow2Multiple(h: nat, n: nat)
    requires IsPow2(h) && IsPow2(n) && h <= n
    ensures Multiple(n, h)
    decreases n
  {
    if h < n {
      Pow2Halves(h, n);
      Pow2Multiple(h, n / 2);
      MultipleSum(n / 2, n / 2, h);
    }
  }

  /** The array with one butterfly over the block that starts at `i`. */
  function FlyAt(s: Vec, i: nat, h: nat): (r: Vec)
    requires i + 2 * h <= |s|
    ensures |r| == |s|
  {
    s[..i] + Fly(s[i..i + h], s[i + h..i + 2 * h]) + s[i + 2 * h..]
  }

  /** The butterflies of one block, read off the array, are `Fly` of its two halves. */
  lemma {:induction false} FlyInPlace(was: Vec, now: Vec, i: nat, h: nat)
    requires |was| == |now| && i + 2 * h <= |was|
    requires forall k :: 0 <= k < i || i + 2 * h <= k < |was| ==> now[k] == was[k]
    requires forall k {:trigger now[k]} :: i <= k < i + h ==> now[k] == was[k] + was[k + h]
    requires forall k {:trigger now[k]} :: i + h <= k < i + 2 * h ==> now[k] == was[k - h] - was[k]
    ensures now == FlyAt(was, i, h)
  {
    hide Add, Sub;
    var r := FlyAt(was, i, h);
    forall k | 0 <= k < |was|
      ensures now[k] == r[k]
    {
    }
  }

  /** A block's butterflies extend the finished part of a stage by that block. */
  lemma {:induction false} StageStep(before: Vec, was: Vec, now: Vec, i: nat, h: nat)
    requires h > 0 && |before| == |was| && i + 2 * h <= |before|
    requires Multiple(i, 2 * h)
    requires was == Stage(before[..i], h) + before[i..]
    requires now == FlyAt(was, i, h)
    ensures Multiple(i + 2 * h, 2 * h)
    ensures now == Stage(before[..i + 2 * h], h) + before[i + 2 * h..]
  {
    hide Stage, Fly;
    var e := i + 2 * h;
    var a, b := before[i..i + h], before[i + h..e];
    BlockOf(before, Stage(before[..i], h), i, h);
    StageSnoc(before[..i], a, b, h);
  }

  /** Where the next block sits when everything before it has been replaced by `done`. */
  lemma {:induction false} BlockOf(before: Vec, done: Vec, i: nat, h: nat)
    requires i + 2 * h <= |before| && |done| == i
    ensures var e := i + 2 * h;
            var was := done + before[i..];
            && before[..e] == before[..i] + (before[i..i + h] + before[i + h..e])
            && was[..i] == done && was[i..i + h] == before[i..i + h] && was[i + h..e] == before[i + h..e]
            && was[e..] == before[e..]
  {
  }

  /** The innermost loop: the butterflies of the block that starts at `i`. */
  method Butterflies(v: array<real>, i: nat, h: nat)
    requires i + 2 * h <= v.Length
    modifies v
    ensures v[..] == FlyAt(old(v[..]), i, h)
  {
    ghost var was := v[..];
    for j := i to i + h
      invariant forall k {:trigger v[k]} :: i <= k < j ==> v[k] == was[k] + was[k + h]
      invariant forall k {:trigger v[k]} :: i + h <= k < j + h ==> v[k] == was[k - h] - was[k]
      invariant forall k {:trigger v[k]} :: 0 <= k < i || j <= k < i + h || j + h <= k < v.Length ==> v[k] == was[k]
    {
      var x := v[j];
      var y := v[j + h];
      v[j] := x + y;
      v[j + h] := x - y;
    }
    FlyInPlace(was, v[..], i, h);
  }

  lemma {:induction false} StageEnds(s: Vec, h: nat)
    requires h > 0 && Multiple(|s|, 2 * h)
    ensures Stage(s[..0], h) + s[0..] == s
    ensures Stage(s[..|s|], h) + s[|s|..] == Stage(s, h)
  {
    assert s[..|s|] == s && s[..0] == [];
  }

  /** One pass of the middle loop over all blocks of size `2 * h`. */
  method OneStage(v: array<real>, h: nat)
    requires h > 0 && Multiple(v.Length, 2 * h)
    modifies v
    ensures v[..] == Stage(old(v[..]), h)
  {
    hide Stage, FlyAt;
    ghost var before := v[..];
    StageEnds(before, h);
    var i := 0;
    while i < v.Length
      invariant 0 <= i <= v.Length && Multiple(i, 2 * h) && Multiple(v.Length - i, 2 * h)
      invariant v[..] == Stage(before[..i], h) + before[i..]
    {
      ghost var was := v[..];
      Butterflies(v, i, h);
      StageStep(before, was, v[..], i, h);
      i := i + 2 * h;
    }
  }

  method Fwht(v: array<real>)
    requires IsPow2(v.Length)
    modifies v
    ensures v[..] == Transform(old(v[..]))
  {
    hide Transform, Stage, Blocks, Multiple;
    ghost var orig := v[..];
    Pow2Multiple(1, v.Length);
    BlocksOfOne(orig);
    var h := 1;
    while h < v.Length
      invariant 1 <= h <= v.Length && IsPow2(h) && Multiple(v.Length, h)
      invariant v[..] == Blocks(orig, h)
    {
      Pow2Halves(h, v.Length);
      Pow2Multiple(2 * h, v.Length);
      OneStage(v, h);
      StageDoublesBlocks(orig, h);
      h := 2 * h;
    }
    BlocksOfAll(orig);
  }

  lemma {:induction false} BlocksOfAll(s: Vec)
    requires IsPow2(|s|)
    ensures Multiple(|s|, |s|) && Blocks(s, |s|) == Transform(s)
  {
    assert s[0..] == s && s[..0] == [];
  }

  lemma {:induction false} BlocksOfOne(s: Vec)
    requires Multiple(|s|, 1)
    ensures Blocks(s, 1) == s
    decreases |s|
  {
    if s != [] {
      BlocksOfOne(s[..|s| - 1]);
    }
  }
}
