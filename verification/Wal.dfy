/**
  The write-ahead log file (crates/turbomemory_storage/src/wal.rs): an 8-byte header,
  then frames `[length: u32 BE] [payload] [crc: u32 BE]`, read back up to the first
  frame that is torn, fails its checksum, or cannot be decoded.
 */
module Wal {
  import opened Wrappers
  import opened Records

  const U32: nat := 0x1_0000_0000

  const WAL_VERSION_1: nat := 1
  const WAL_VERSION: nat := 2
  const HEADER_SIZE: nat := 8
  const FRAME_OVERHEAD: nat := 8

  /**
    The serializer and the checksum the log is built on. `decode1` reads the version-1
    operation set. The checksum may be any function of the bytes; `plausible` is the test
    a vector slot without a logged checksum has to pass.
   */
  datatype Codec = Codec(
    encode: WalOp -> seq<Byte>,
    decode: seq<Byte> -> Option<WalOp>,
    decode1: seq<Byte> -> Option<WalOp>,
    crc: seq<Byte> -> nat,
    plausible: seq<Byte> -> bool)
  {
    /** Serializing is reversible and never empty, and a checksum fits 32 bits. */
    ghost predicate Valid()
    {
      && (forall op {:trigger encode(op)} :: encode(op) != [] && decode(encode(op)) == Some(op))
      && (forall p {:trigger crc(p)} :: crc(p) < U32)
    }

    predicate Fits(op: WalOp)
    {
      |encode(op)| < U32
    }
  }

  // ----- 32-bit big-endian numbers --------------------------------------------

  function PutU32(n: nat): (r: seq<Byte>)
    requires n < U32
    ensures |r| == 4
  {
    [n / 0x100_0000, n / 0x1_0000 % 256, n / 256 % 256, n % 256]
  }

  function GetU32(b: seq<Byte>): (n: nat)
    requires |b| == 4
  {
    var x: nat, y: nat, z: nat, w: nat := b[0], b[1], b[2], b[3];
    ((x * 256 + y) * 256 + z) * 256 + w
  }

  lemma {:induction false} U32RoundTrip(n: nat)
    requires n < U32
    ensures GetU32(PutU32(n)) == n
  {
    var a := n / 256;
    var b := a / 256;
    assert n / 0x1_0000 == b && n / 0x100_0000 == b / 256;
  }

  // ----- frames ----------------------------------------------------------------

  function Frame(c: Codec, op: WalOp): (r: seq<Byte>)
    requires c.Fits(op) && c.crc(c.encode(op)) < U32
    ensures |r| == |c.encode(op)| + FRAME_OVERHEAD
  {
    var p := c.encode(op);
    PutU32(|p|) + p + PutU32(c.crc(p))
  }

  ghost predicate AllFit(c: Codec, ops: seq<WalOp>)
  {
    forall op :: op in ops ==> c.Fits(op)
  }

  ghost function Frames(c: Codec, ops: seq<WalOp>): (r: seq<Byte>)
    requires c.Valid() && AllFit(c, ops)
  {
    if ops == [] then [] else Frame(c, ops[0]) + Frames(c, ops[1..])
  }

  // ----- reading -----------------------------------------------------------------

  /** `read_frame`: the operation at the front of the bytes and the bytes it took. */
  function ReadFrame(c: Codec, version: nat, b: seq<Byte>): (r: Option<(WalOp, nat)>)
    ensures r.Some? ==> FRAME_OVERHEAD < r.value.1 <= |b|
  {
    if |b| < FRAME_OVERHEAD then None
    else
      var len := GetU32(b[..4]);
      if len == 0 || len > |b| - FRAME_OVERHEAD then None
      else
        var payload := b[4..4 + len];
        if GetU32(b[4 + len..8 + len]) != c.crc(payload) then None
        else
          match if version == WAL_VERSION_1 then c.decode1(payload) else c.decode(payload)
          case Some(op) => Some((op, FRAME_OVERHEAD + len))
          case None => None
  }

  /** The operations of a byte string and the length of the readable prefix. */
  datatype Scan = Scan(ops: seq<WalOp>, valid: nat)

  function ScanAll(c: Codec, version: nat, b: seq<Byte>): (s: Scan)
    ensures s.valid <= |b|
    decreases |b|
  {
    match ReadFrame(c, version, b)
    case None => Scan([], 0)
    case Some(f) =>
      var rest := ScanAll(c, version, b[f.1..]);
      Scan([f.0] + rest.ops, f.1 + rest.valid)
  }

  /** A number written highest byte first. */
  function BigEndian(b: seq<Byte>): (n: nat)
  {
    if b == [] then 0 else 256 * BigEndian(b[..|b| - 1]) + b[|b| - 1]
  }

  /** The bytes of a frame: the payload's length in four bytes, the payload, and its checksum in four bytes. */
  lemma {:induction false} FrameLayout(c: Codec, op: WalOp)
    requires c.Valid() && c.Fits(op)
    ensures var p, f := c.encode(op), Frame(c, op);
            && |f| == 4 + |p| + 4 && BigEndian(f[..4]) == |p| && f[4..4 + |p|] == p && BigEndian(f[4 + |p|..]) == c.crc(p)
  {
    hide PutU32, BigEndian;
    var p, f := c.encode(op), Frame(c, op);
    Highest(|p|);
    Highest(c.crc(p));
    assert f[..4] == PutU32(|p|) && f[4 + |p|..] == PutU32(c.crc(p));
  }

  lemma {:induction false} Highest(n: nat)
    requires n < U32
    ensures BigEndian(PutU32(n)) == n
  {
    var b := PutU32(n);
    U32RoundTrip(n);
    HighestRead(b);
  }

  /**
    Exactly when bytes start with a readable frame: a nonzero length that is all there, a
    checksum that is the payload's, and a payload that decodes in the log's version.
   */
  lemma {:induction false} ReadFrameIff(c: Codec, version: nat, b: seq<Byte>, op: WalOp, n: nat)
    ensures ReadFrame(c, version, b) == Some((op, n)) <==>
            && 8 < n <= |b| && BigEndian(b[..4]) == n - 8 && BigEndian(b[n - 4..n]) == c.crc(b[4..n - 4])
            && Some(op) == if version == 1 then c.decode1(b[4..n - 4]) else c.decode(b[4..n - 4])
  {
    hide BigEndian, GetU32;
    if |b| >= 8 {
      HighestRead(b[..4]);
      var len := GetU32(b[..4]);
      if len <= |b| - 8 {
        HighestRead(b[4 + len..8 + len]);
      }
      if n == len + 8 && n <= |b| {
        assert b[4..n - 4] == b[4..4 + len] && b[n - 4..n] == b[4 + len..8 + len];
      }
    }
  }

  lemma {:induction false} HighestRead(b: seq<Byte>)
    requires |b| == 4
    ensures GetU32(b) == BigEndian(b)
  {
    assert b[..3][..2] == b[..2] && b[..2][..1] == b[..1] && b[..1][..0] == [];
    assert BigEndian(b[..1]) == b[0];
    assert BigEndian(b[..2]) == 256 * BigEndian(b[..1]) + b[1];
    assert BigEndian(b[..3]) == 256 * BigEndian(b[..2]) + b[2];
  }

  lemma {:induction false} ReadWhole(c: Codec, op: WalOp, tail: seq<Byte>)
    requires c.Valid() && c.Fits(op)
    ensures ReadFrame(c, WAL_VERSION, Frame(c, op) + tail) == Some((op, |Frame(c, op)|))
  {
    var p := c.encode(op);
    var b := Frame(c, op) + tail;
    assert b[..4] == PutU32(|p|);
    U32RoundTrip(|p|);
    assert b[4..4 + |p|] == p;
    assert b[4 + |p|..8 + |p|] == PutU32(c.crc(p));
    U32RoundTrip(c.crc(p));
  }

  /** A frame cut short anywhere reads as nothing, whatever the checksum function is. */
  lemma {:induction false} ReadTorn(c: Codec, op: WalOp, n: nat)
    requires c.Valid() && c.Fits(op) && n < |Frame(c, op)|
    ensures ReadFrame(c, WAL_VERSION, Frame(c, op)[..n]) == None
  {
    var p := c.encode(op);
    var b := Frame(c, op)[..n];
    if n >= FRAME_OVERHEAD {
      assert b[..4] == PutU32(|p|);
      U32RoundTrip(|p|);
    }
  }

  /** Whatever follows them, complete frames are read back in order, exactly. */
  lemma {:induction false} ScanKeepsPrefix(c: Codec, ops: seq<WalOp>, tail: seq<Byte>)
    requires c.Valid() && AllFit(c, ops)
    ensures var s, t := ScanAll(c, WAL_VERSION, Frames(c, ops) + tail), ScanAll(c, WAL_VERSION, tail);
            s.ops == ops + t.ops && s.valid == |Frames(c, ops)| + t.valid
  {
    hide ScanAll, Frame;
    if ops == [] {
      assert Frames(c, ops) + tail == tail;
      assert ops + ScanAll(c, WAL_VERSION, tail).ops == ScanAll(c, WAL_VERSION, tail).ops;
    } else {
      var rest := Frames(c, ops[1..]) + tail;
      assert Frames(c, ops) + tail == Frame(c, ops[0]) + rest;
      ScanStep(c, ops[0], rest);
      ScanKeepsPrefix(c, ops[1..], tail);
      PrependAssoc(ops, ScanAll(c, WAL_VERSION, tail).ops);
    }
  }

  /** A frame whose stored checksum is not its payload's ends the log, whatever follows it. */
  lemma {:induction false} CorruptEndsLog(c: Codec, ops: seq<WalOp>, bad: seq<Byte>, n: nat)
    requires c.Valid() && AllFit(c, ops) && 8 <= n <= |bad|
    requires BigEndian(bad[..4]) == n - 8 && BigEndian(bad[n - 4..n]) != c.crc(bad[4..n - 4])
    ensures ScanAll(c, WAL_VERSION, Frames(c, ops) + bad) == Scan(ops, |Frames(c, ops)|)
  {
    hide ReadFrame, Frames, BigEndian;
    ScanKeepsPrefix(c, ops, bad);
    if ReadFrame(c, WAL_VERSION, bad).Some? {
      var f := ReadFrame(c, WAL_VERSION, bad).value;
      ReadFrameIff(c, WAL_VERSION, bad, f.0, f.1);
      assert false;
    }
    assert ops + [] == ops;
  }

  lemma {:induction false} ScanStep(c: Codec, op: WalOp, rest: seq<Byte>)
    requires c.Valid() && c.Fits(op)
    ensures var s, t := ScanAll(c, WAL_VERSION, Frame(c, op) + rest), ScanAll(c, WAL_VERSION, rest);
            s.ops == [op] + t.ops && s.valid == |Frame(c, op)| + t.valid
  {
    hide ReadFrame, Frame;
    ReadWhole(c, op, rest);
    var b := Frame(c, op) + rest;
    assert b[|Frame(c, op)|..] == rest;
  }

  lemma {:induction false} PrependAssoc(a: seq<WalOp>, b: seq<WalOp>)
    requires a != []
    ensures [a[0]] + (a[1..] + b) == a + b
  {
  }

  lemma {:induction false} FramesConcat(c: Codec, a: seq<WalOp>, b: seq<WalOp>)
    requires c.Valid() && AllFit(c, a + b)
    ensures AllFit(c, a) && AllFit(c, b)
    ensures Frames(c, a + b) == Frames(c, a) + Frames(c, b)
  {
    assert forall op :: op in a || op in b ==> op in a + b;
    if a == [] {
      assert a + b == b;
    } else {
      assert (a + b)[1..] == a[1..] + b;
      FramesConcat(c, a[1..], b);
    }
  }

  /**
    A log cut at any byte reads back as the frames that are complete below the cut:
    a prefix of the operations, and the longest one that fits.
   */
  lemma {:induction false} CutLog(c: Codec, ops: seq<WalOp>, n: nat) returns (k: nat)
    requires c.Valid() && AllFit(c, ops) && n <= |Frames(c, ops)|
    ensures k <= |ops| && AllFit(c, ops[..k])
    ensures ScanAll(c, WAL_VERSION, Frames(c, ops)[..n]) == Scan(ops[..k], |Frames(c, ops[..k])|)
    ensures |Frames(c, ops[..k])| <= n
    ensures k < |ops| ==> AllFit(c, ops[..k + 1]) && n < |Frames(c, ops[..k + 1])|
  {
    k := WholeFrames(c, ops, n);
    var done, rest := ops[..k], ops[k..];
    assert ops == done + rest;
    FramesConcat(c, done, rest);
    var m := n - |Frames(c, done)|;
    var tail := Frames(c, rest)[..m];
    assert Frames(c, ops)[..n] == Frames(c, done) + tail;
    ScanKeepsPrefix(c, done, tail);
    if k < |ops| {
      assert tail == Frame(c, rest[0])[..m];
      ReadTorn(c, rest[0], m);
    } else {
      assert tail == [];
    }
    assert done + [] == done;
  }

  lemma {:induction false} WholeFrames(c: Codec, ops: seq<WalOp>, n: nat) returns (k: nat)
    requires c.Valid() && AllFit(c, ops) && n <= |Frames(c, ops)|
    ensures k <= |ops| && AllFit(c, ops[..k]) && AllFit(c, ops[k..]) && |Frames(c, ops[..k])| <= n
    ensures k < |ops| ==> AllFit(c, ops[..k + 1])
                          && |Frames(c, ops[..k + 1])| == |Frames(c, ops[..k])| + |Frame(c, ops[k])| > n
  {
    k := 0;
    while k < |ops| && |Frames(c, ops[..k + 1])| <= n
      invariant k <= |ops| && |Frames(c, ops[..k])| <= n
    {
      k := k + 1;
    }
    if k < |ops| {
      assert ops[..k + 1] == ops[..k] + [ops[k]];
      FramesConcat(c, ops[..k], [ops[k]]);
    }
  }
}
