/**
  RaBitQ scoring by byte lookup tables against scoring by decoding
  (crates/turbomemory_core/src/rabitq.rs `RaBitQEncodedQuery`, `decode`).
 */
module RaBitQScore {
  import opened Wrappers
  import opened Vectors
  import opened Hadamard
  import opened RaBitQ

  type Bits = b: nat | b == 1 || b == 2 witness 1

  /** A stored vector: its packed codes and the scale factor behind them. */
  datatype Code = Code(bytes: seq<Byte>, alpha: real)

  /** Codes held by one byte. */
  function Per(bits: Bits): (n: nat)
  {
    if bits == 1 then 8 else 4
  }

  /** First coordinate described by byte `j`. */
  function Base(bits: Bits, j: nat): (n: nat)
  {
    if bits == 1 then 8 * j else 4 * j
  }

  /** `packed_bytes`. */
  function CodeBytes(bits: Bits, dim: nat): (n: nat)
    ensures Base(bits, n) >= dim
    ensures n > 0 ==> Base(bits, n - 1) < dim
  {
    (dim * bits + 7) / 8
  }

  function Shr(b: nat, k: nat): (r: nat)
  {
    if k == 0 then b else Shr(b / 2, k - 1)
  }

  /** The code at position `pos` of a byte: shift, then mask. */
  function CodeIn(bits: Bits, byte: Byte, pos: nat): (r: nat)
  {
    if bits == 1 then Shr(byte, pos) % 2 else Shr(byte, 2 * pos) % 4
  }

  /** The centroid a code stands for, in units of `alpha`. */
  function Centroid(bits: Bits, code: nat): (r: real)
  {
    if bits == 1 then (if code == 1 then 1.0 else -1.0)
    else if code == 0 then -1.18
    else if code == 1 then -0.38
    else if code == 2 then 0.38
    else 1.18
  }

  /** The number whose digits in base 4, or 2, are the codes of the first `n` positions, lowest first. */
  function Packed(bits: Bits, codes: seq<nat>): (r: nat)
  {
    if codes == [] then 0 else codes[0] + (if bits == 1 then 2 else 4) * Packed(bits, codes[1..])
  }

  /** The codes of a byte are its digits: they are in range, and together they are the byte. */
  lemma {:induction false} CodesAreDigits(bits: Bits, byte: Byte)
    ensures forall pos :: 0 <= pos < Per(bits) ==> CodeIn(bits, byte, pos) < if bits == 1 then 2 else 4
    ensures Packed(bits, seq(Per(bits), pos requires 0 <= pos < Per(bits) => CodeIn(bits, byte, pos))) == byte
  {
    hide CodeIn, Packed;
    InRangeCodes(bits, byte);
    PowValues();
    DigitsFrom(bits, byte, byte, 0);
    var codes := seq(Per(bits), pos requires 0 <= pos < Per(bits) => CodeIn(bits, byte, pos));
    assert codes[0..] == codes;
  }

  lemma {:induction false} InRangeCodes(bits: Bits, byte: Byte)
    ensures forall pos: nat :: CodeIn(bits, byte, pos) < if bits == 1 then 2 else 4
  {
  }

  /** What is left of a byte after `pos` codes were shifted out. */
  function LeftOf(bits: Bits, byte: nat, pos: nat): (r: nat)
  {
    if bits == 1 then Shr(byte, pos) else Shr(byte, 2 * pos)
  }

  lemma {:induction false} DigitsFrom(bits: Bits, byte: Byte, left: nat, pos: nat)
    requires pos <= Per(bits) && left == LeftOf(bits, byte, pos)
    requires left < Pow(if bits == 1 then 2 else 4, Per(bits) - pos)
    ensures var codes := seq(Per(bits), p requires 0 <= p < Per(bits) => CodeIn(bits, byte, p));
            Packed(bits, codes[pos..]) == left
    decreases Per(bits) - pos
  {
    var codes := seq(Per(bits), p requires 0 <= p < Per(bits) => CodeIn(bits, byte, p));
    var base := if bits == 1 then 2 else 4;
    if pos < Per(bits) {
      NextLeft(bits, byte, pos);
      DigitsFrom(bits, byte, left / base, pos + 1);
      assert codes[pos..][1..] == codes[pos + 1..] && codes[pos..][0] == left % base;
    } else {
      assert codes[pos..] == [];
    }
  }

  function Pow(base: nat, n: nat): (r: nat)
  {
    if n == 0 then 1 else base * Pow(base, n - 1)
  }

  lemma {:induction false} PowValues()
    ensures Pow(2, 8) == 256 && Pow(4, 4) == 256
  {
    assert Pow(2, 4) == 16 && Pow(4, 2) == 16;
  }

  lemma {:induction false} NextLeft(bits: Bits, byte: Byte, pos: nat)
    ensures var base := if bits == 1 then 2 else 4;
            && CodeIn(bits, byte, pos) == LeftOf(bits, byte, pos) % base
            && LeftOf(bits, byte, pos + 1) == LeftOf(bits, byte, pos) / base
  {
    ShrMore(byte, if bits == 1 then pos else 2 * pos);
    ShrMore(byte, 2 * pos + 1);
  }

  lemma {:induction false} ShrMore(b: nat, k: nat)
    ensures Shr(b, k + 1) == Shr(b, k) / 2
    decreases k
  {
    if k > 0 {
      ShrMore(b / 2, k - 1);
    }
  }

  /** The centroids: minus and plus one, or four values that rise with the code and are symmetric about zero. */
  lemma {:induction false} CentroidsAre(code: nat)
    ensures code < 2 ==> Centroid(1, code) == [-1.0, 1.0][code]
    ensures code < 4 ==> Centroid(2, code) == [-1.18, -0.38, 0.38, 1.18][code]
  {
  }

  /** `unpack_codes` followed by the centroid lookup. */
  function Values(bits: Bits, bytes: seq<Byte>, dim: nat): (r: Vec)
    requires CodeBytes(bits, dim) <= |bytes|
    ensures |r| == dim
    ensures forall i {:trigger r[i]} :: 0 <= i < dim ==>
              i / Per(bits) < |bytes| && r[i] == Centroid(bits, CodeIn(bits, bytes[i / Per(bits)], i % Per(bits)))
  {
    seq(dim, i requires 0 <= i < dim => Centroid(bits, CodeIn(bits, bytes[i / Per(bits)], i % Per(bits))))
  }

  /** `decode`: the slow way from a code to a vector. */
  function Decoded(q: Quantizer, bits: Bits, code: Code): (r: Vec)
    requires q.Valid() && CodeBytes(bits, q.dim) <= |code.bytes|
  {
    Unprojected(q, Scale(code.alpha, Values(bits, code.bytes, q.dim)))
  }

  /** One table entry: what `byte` contributes if it starts at coordinate `base`, from position `pos` on. */
  function Entry(bits: Bits, p: Vec, base: nat, byte: Byte, pos: nat): (r: real)
    requires pos <= Per(bits)
    decreases Per(bits) - pos
  {
    if pos == Per(bits) then 0.0
    else
      (if base + pos < |p| then Mul(Centroid(bits, CodeIn(bits, byte, pos)), p[base + pos]) else 0.0)
      + Entry(bits, p, base, byte, pos + 1)
  }

  /** The contributions of bytes `j..n`. */
  function EntriesFrom(bits: Bits, p: Vec, bytes: seq<Byte>, j: nat, n: nat): (r: real)
    requires j <= n <= |bytes|
    decreases n - j
  {
    if j == n then 0.0
    else Entry(bits, p, Base(bits, j), bytes[j], 0) + EntriesFrom(bits, p, bytes, j + 1, n)
  }

  /** The inner product restricted to coordinates `i..`. */
  function Tail(vals: Vec, p: Vec, i: nat): (r: real)
    requires |vals| == |p|
  {
    if i >= |p| then 0.0 else Dot(vals[i..], p[i..])
  }

  lemma {:induction false} TailStep(vals: Vec, p: Vec, i: nat)
    requires |vals| == |p|
    ensures Tail(vals, p, i) == (if i < |p| then Mul(vals[i], p[i]) else 0.0) + Tail(vals, p, i + 1)
  {
    if i < |p| {
      assert vals[i..][1..] == vals[i + 1..] && p[i..][1..] == p[i + 1..];
      assert i + 1 == |p| ==> Dot(vals[i + 1..], p[i + 1..]) == 0.0;
    }
  }

  lemma {:induction false} EntryIsTail(bits: Bits, p: Vec, bytes: seq<Byte>, j: nat, pos: nat)
    requires pos <= Per(bits) && j < CodeBytes(bits, |p|) <= |bytes|
    ensures var vals := Values(bits, bytes, |p|);
            Entry(bits, p, Base(bits, j), bytes[j], pos) + Tail(vals, p, Base(bits, j + 1))
            == Tail(vals, p, Base(bits, j) + pos)
    decreases Per(bits) - pos
  {
    hide Values, CodeIn, Centroid, Tail, Base, Per, CodeBytes;
    var vals := Values(bits, bytes, |p|);
    NextBase(bits, j);
    if pos < Per(bits) {
      EntryIsTail(bits, p, bytes, j, pos + 1);
      TailStep(vals, p, Base(bits, j) + pos);
      ValueAt(bits, bytes, |p|, j, pos);
    }
  }

  lemma {:induction false} NextBase(bits: Bits, j: nat)
    ensures Base(bits, j + 1) == Base(bits, j) + Per(bits)
  {
  }

  /** Position `pos` of byte `j` holds coordinate `Base(bits, j) + pos`. */
  lemma {:induction false} ValueAt(bits: Bits, bytes: seq<Byte>, dim: nat, j: nat, pos: nat)
    requires pos < Per(bits) && j < CodeBytes(bits, dim) <= |bytes|
    ensures Base(bits, j) + pos < dim ==>
              Values(bits, bytes, dim)[Base(bits, j) + pos] == Centroid(bits, CodeIn(bits, bytes[j], pos))
  {
    hide Values, CodeIn, Centroid, Base, Per, CodeBytes;
    Locate(bits, j, pos);
  }

  lemma {:induction false} Locate(bits: Bits, j: nat, pos: nat)
    requires pos < Per(bits)
    ensures (Base(bits, j) + pos) / Per(bits) == j && (Base(bits, j) + pos) % Per(bits) == pos
  {
  }

  lemma {:induction false} EntriesAreTail(bits: Bits, p: Vec, bytes: seq<Byte>, j: nat)
    requires j <= CodeBytes(bits, |p|) <= |bytes|
    ensures EntriesFrom(bits, p, bytes, j, CodeBytes(bits, |p|)) == Tail(Values(bits, bytes, |p|), p, Base(bits, j))
    decreases CodeBytes(bits, |p|) - j
  {
    hide Values, Entry;
    if j < CodeBytes(bits, |p|) {
      EntriesAreTail(bits, p, bytes, j + 1);
      EntryIsTail(bits, p, bytes, j, 0);
    }
  }

  /** The table sum is the inner product with the unpacked centroids. */
  lemma {:induction false} TablesComputeDot(bits: Bits, p: Vec, bytes: seq<Byte>)
    requires p != [] && CodeBytes(bits, |p|) <= |bytes|
    ensures EntriesFrom(bits, p, bytes, 0, CodeBytes(bits, |p|)) == Dot(Values(bits, bytes, |p|), p)
  {
    hide Values, EntriesFrom;
    EntriesAreTail(bits, p, bytes, 0);
    assert p[0..] == p;
    var vals := Values(bits, bytes, |p|);
    assert vals[0..] == vals;
  }

  /** `RaBitQEncodedQuery::new`, the table-building loops over an already projected query. */
  method BuildTables(bits: Bits, p: Vec) returns (luts: seq<seq<real>>)
    ensures |luts| == CodeBytes(bits, |p|)
    ensures forall j :: 0 <= j < |luts| ==>
              |luts[j]| == 256 && forall b :: 0 <= b < 256 ==> luts[j][b] == Entry(bits, p, Base(bits, j), b, 0)
  {
    luts := [];
    var n := CodeBytes(bits, |p|);
    for chunk := 0 to n
      invariant |luts| == chunk
      invariant forall j :: 0 <= j < chunk ==>
                  |luts[j]| == 256 && forall b :: 0 <= b < 256 ==> luts[j][b] == Entry(bits, p, Base(bits, j), b, 0)
    {
      var table := BuildTable(bits, p, Base(bits, chunk));
      luts := luts + [table];
    }
  }

  method BuildTable(bits: Bits, p: Vec, base: nat) returns (table: seq<real>)
    ensures |table| == 256 && forall b :: 0 <= b < 256 ==> table[b] == Entry(bits, p, base, b, 0)
  {
    table := [];
    for byte := 0 to 256
      invariant |table| == byte
      invariant forall b :: 0 <= b < byte ==> table[b] == Entry(bits, p, base, b, 0)
    {
      var sum := 0.0;
      for pos := 0 to Per(bits)
        invariant sum + Entry(bits, p, base, byte, pos) == Entry(bits, p, base, byte, 0)
      {
        if base + pos < |p| {
          sum := sum + Mul(Centroid(bits, CodeIn(bits, byte, pos)), p[base + pos]);
        }
      }
      table := table + [sum];
    }
  }

  /** `score`; a code that is too short has no score (the source returns negative infinity). */
  method Score(bits: Bits, dim: nat, luts: seq<seq<real>>, code: Code, ghost p: Vec) returns (s: Option<real>)
    requires |p| == dim > 0 && |luts| == CodeBytes(bits, dim)
    requires forall j :: 0 <= j < |luts| ==>
               |luts[j]| == 256 && forall b :: 0 <= b < 256 ==> luts[j][b] == Entry(bits, p, Base(bits, j), b, 0)
    ensures s.None? <==> |code.bytes| < CodeBytes(bits, dim)
    ensures s.Some? ==> s.value == code.alpha * Dot(Values(bits, code.bytes, dim), p)
  {
    hide Entry, Values, Dot, CodeBytes, Base;
    var n := CodeBytes(bits, dim);
    if |code.bytes| < n {
      return None;
    }
    var sum := 0.0;
    for j := 0 to n
      invariant sum + EntriesFrom(bits, p, code.bytes, j, n) == EntriesFrom(bits, p, code.bytes, 0, n)
    {
      sum := sum + luts[j][code.bytes[j]];
    }
    TablesComputeDot(bits, p, code.bytes);
    return Some(code.alpha * sum);
  }

  /** `project`, through a padded buffer. */
  method Project(q: Quantizer, v: Vec) returns (out: Vec)
    requires q.Valid() && |v| == q.dim
    ensures out == Projected(q, v)
  {
    hide Transform, Scale, Times;
    var buf := new real[q.pad];
    ghost var want := Times(q.signs, Scale(q.scale, Padded(v, q.pad)));
    for i := 0 to q.pad
      invariant forall k {:trigger buf[k]} :: 0 <= k < i ==> buf[k] == want[k]
    {
      buf[i] := if i < q.dim then q.signs[i] * (q.scale * v[i]) else 0.0;
    }
    assert buf[..] == want;
    Fwht(buf);
    out := Scale(q.norm, buf[..][..q.dim]);
  }

  /** `inverse_project`, through a padded buffer. */
  method InverseProject(q: Quantizer, y: Vec) returns (out: Vec)
    requires q.Valid() && |y| == q.dim
    ensures out == Unprojected(q, y)
  {
    hide Transform, Scale, Times;
    var buf := new real[q.pad];
    ghost var want := Padded(y, q.pad);
    for i := 0 to q.pad
      invariant forall k {:trigger buf[k]} :: 0 <= k < i ==> buf[k] == want[k]
    {
      buf[i] := if i < q.dim then y[i] else 0.0;
    }
    assert buf[..] == want;
    Fwht(buf);
    out := Scale(q.unscale, Times(q.signs, Scale(q.norm, buf[..]))[..q.dim]);
  }

  /**
    The fast score agrees with decoding: up to the constant `pad / dim`, which is the
    same for every stored vector, the table score of a code is the inner product of the
    query with the decoded vector.
   */
  lemma {:induction false} ScoreRefinesDecode(q: Quantizer, bits: Bits, query: Vec, code: Code)
    requires q.Valid() && |query| == q.dim && CodeBytes(bits, q.dim) <= |code.bytes|
    ensures (q.dim as real) * (code.alpha * Dot(Values(bits, code.bytes, q.dim), Projected(q, query)))
            == (q.pad as real) * Dot(query, Decoded(q, bits, code))
  {
    hide Dot, Scale, Projected, Unprojected, Values, CodeBytes, q.Valid;
    var vals := Values(bits, code.bytes, q.dim);
    var p := Projected(q, query);
    Adjoint(q, query, Scale(code.alpha, vals));
    DotScale(code.alpha, p, vals);
    DotCommutes(p, vals);
  }

  lemma {:induction false} DotCommutes(u: Vec, v: Vec)
    requires |u| == |v|
    ensures Dot(u, v) == Dot(v, u)
  {
    if u != [] {
      DotCommutes(u[1..], v[1..]);
    }
  }
}
