/** The open log: append, replay, cut, clear (crates/turbomemory_storage/src/wal.rs `Wal`, `WalIter`). */
module WalFile {
  import opened Wrappers
  import opened Records
  import opened Wal

  const MAGIC: seq<Byte> := [84, 77, 83, 87]

  /** `header_bytes`, with the native byte order taken to be little-endian. */
  function Header(version: nat): (r: seq<Byte>)
    requires version < 256
    ensures |r| == HEADER_SIZE
  {
    MAGIC + [version, 0, 0, 0]
  }

  datatype OpenError = BadMagic | BadVersion

  /** `Wal::open` on the bytes found on disk: the bytes it leaves behind and the format version. */
  function Opened(found: seq<Byte>): (r: Result<(seq<Byte>, nat), OpenError>)
  {
    if |found| < HEADER_SIZE then Ok((Header(WAL_VERSION), WAL_VERSION))
    else if found[..4] != MAGIC then Err(BadMagic)
    else if found[4..8] == [2, 0, 0, 0] then Ok((found, WAL_VERSION))
    else if found[4..8] == [1, 0, 0, 0] then Ok((found, WAL_VERSION_1))
    else Err(BadVersion)
  }

  /** A file is refused exactly for a whole header with other letters than TMSW, or a version other than 1 and 2. */
  lemma {:induction false} OpenedIff(found: seq<Byte>)
    ensures |found| < 8 ==> Opened(found) == Ok(([84, 77, 83, 87, 2, 0, 0, 0], 2))
    ensures |found| >= 8 && found[..4] != [84, 77, 83, 87] ==> Opened(found) == Err(BadMagic)
    ensures |found| >= 8 && found[..4] == [84, 77, 83, 87] ==>
              Opened(found) == if found[4..8] == [1, 0, 0, 0] then Ok((found, 1))
                               else if found[4..8] == [2, 0, 0, 0] then Ok((found, 2)) else Err(BadVersion)
  {
    assert Header(WAL_VERSION) == [84, 77, 83, 87, 2, 0, 0, 0];
  }

  // ----- reading depends only on the bytes that were accepted -------------------

  lemma {:induction false} ReadFrameLocal(c: Codec, version: nat, b: seq<Byte>, x: seq<Byte>)
    requires ReadFrame(c, version, b).Some?
    ensures var k := ReadFrame(c, version, b).value.1;
            ReadFrame(c, version, b[..k] + x) == ReadFrame(c, version, b)
  {
    var k := ReadFrame(c, version, b).value.1;
    var len := k - FRAME_OVERHEAD;
    var d := b[..k] + x;
    assert d[..4] == b[..4];
    assert d[4..4 + len] == b[4..4 + len];
    assert d[4 + len..8 + len] == b[4 + len..8 + len];
  }

  /** Replacing whatever follows the readable prefix of any file changes only what follows it. */
  lemma {:induction false} ScanLocal(c: Codec, version: nat, b: seq<Byte>, x: seq<Byte>)
    ensures var s, t := ScanAll(c, version, b), ScanAll(c, version, x);
            ScanAll(c, version, b[..s.valid] + x) == Scan(s.ops + t.ops, s.valid + t.valid)
    decreases |b|
  {
    hide ReadFrame;
    var s, t := ScanAll(c, version, b), ScanAll(c, version, x);
    match ReadFrame(c, version, b)
    case None =>
      assert b[..0] + x == x;
      assert s.ops + t.ops == t.ops;
    case Some(f) =>
      var rest := b[f.1..];
      var r := ScanAll(c, version, rest);
      ScanLocal(c, version, rest, x);
      var d := b[..s.valid] + x;
      assert d == b[..f.1] + (rest[..r.valid] + x);
      assert d[f.1..] == rest[..r.valid] + x;
      ReadFrameLocal(c, version, b, rest[..r.valid] + x);
      assert [f.0] + (r.ops + t.ops) == s.ops + t.ops;
  }

  /** Cutting any file at its last good frame and appending gives a clean log: nothing is discarded again. */
  lemma {:induction false} CutThenAppend(c: Codec, b: seq<Byte>, more: seq<WalOp>)
    requires c.Valid() && AllFit(c, more)
    ensures var s := ScanAll(c, WAL_VERSION, b);
            var d := b[..s.valid] + Frames(c, more);
            ScanAll(c, WAL_VERSION, d) == Scan(s.ops + more, |d|)
  {
    hide ScanAll, Frames;
    var s := ScanAll(c, WAL_VERSION, b);
    ScanLocal(c, WAL_VERSION, b, Frames(c, more));
    ScanOfFrames(c, more);
  }

  lemma {:induction false} ScanOfFrames(c: Codec, ops: seq<WalOp>)
    requires c.Valid() && AllFit(c, ops)
    ensures ScanAll(c, WAL_VERSION, Frames(c, ops)) == Scan(ops, |Frames(c, ops)|)
  {
    ScanKeepsPrefix(c, ops, []);
    assert Frames(c, ops) + [] == Frames(c, ops);
    assert ops + [] == ops;
  }

  /** A crash anywhere inside `clear` (after the file was emptied) reopens as an empty log. */
  lemma {:induction false} TornClear(c: Codec, n: nat)
    requires n <= HEADER_SIZE
    ensures Opened(Header(WAL_VERSION)[..n]) == Ok((Header(WAL_VERSION), WAL_VERSION))
    ensures ScanAll(c, WAL_VERSION, Header(WAL_VERSION)[HEADER_SIZE..]) == Scan([], 0)
  {
    var h := Header(WAL_VERSION);
    if n == HEADER_SIZE {
      assert h[..n] == h;
      assert h[..4] == MAGIC && h[4..8] == [2, 0, 0, 0];
    }
  }

  /** `write_op_to_buffer` over a batch: fails, before anything is written, on a record over 4 GiB. */
  method Serialize(c: Codec, ops: seq<WalOp>) returns (r: Option<seq<Byte>>)
    requires c.Valid()
    ensures r.Some? <==> AllFit(c, ops)
    ensures r.Some? ==> r.value == Frames(c, ops)
  {
    var buf := [];
    for i := 0 to |ops|
      invariant AllFit(c, ops[..i]) && buf == Frames(c, ops[..i])
    {
      if !c.Fits(ops[i]) {
        assert ops[i] in ops;
        return None;
      }
      assert ops[..i + 1] == ops[..i] + [ops[i]];
      FramesConcat(c, ops[..i], [ops[i]]);
      buf := buf + Frame(c, ops[i]);
    }
    assert ops[..|ops|] == ops;
    return Some(buf);
  }

  lemma {:induction false} ScanUnfold(c: Codec, version: nat, b: seq<Byte>, at: nat)
    requires at <= |b|
    ensures var f := ReadFrame(c, version, b[at..]);
            ScanAll(c, version, b[at..])
            == if f.None? then Scan([], 0)
               else var t := ScanAll(c, version, b[at + f.value.1..]); Scan([f.value.0] + t.ops, f.value.1 + t.valid)
  {
    hide ReadFrame;
    var f := ReadFrame(c, version, b[at..]);
    if f.Some? {
      assert b[at..][f.value.1..] == b[at + f.value.1..];
    }
  }

  // ----- the file object ----------------------------------------------------------

  lemma {:induction false} NoneOf<T>(a: seq<T>, b: seq<T>)
    ensures a + b[..0] == a && a + [] == a
  {
  }

  lemma {:induction false} AllBytes(b: seq<Byte>)
    requires |b| >= HEADER_SIZE
    ensures b[HEADER_SIZE..|b|] == b[HEADER_SIZE..]
  {
  }

  lemma {:induction false} NoFrames(c: Codec)
    requires c.Valid()
    ensures AllFit(c, []) && Frames(c, []) == []
  {
  }

  /** `w` written over `bytes` from `pos` on. */
  function Over(bytes: seq<Byte>, pos: nat, w: seq<Byte>): (r: seq<Byte>)
    requires pos <= |bytes|
    ensures |r| >= pos + |w|
  {
    bytes[..pos] + w + if pos + |w| < |bytes| then bytes[pos + |w|..] else []
  }

  /** The good prefix of a file is read whole, and as before. */
  lemma {:induction false} CutAtValid(c: Codec, version: nat, bytes: seq<Byte>)
    requires |bytes| >= HEADER_SIZE
    ensures var s := ScanAll(c, version, bytes[HEADER_SIZE..]);
            HEADER_SIZE + s.valid <= |bytes| && ScanAll(c, version, bytes[..HEADER_SIZE + s.valid][HEADER_SIZE..]) == s
  {
    hide ScanAll;
    var body := bytes[HEADER_SIZE..];
    var s := ScanAll(c, version, body);
    ScanLocal(c, version, body, []);
    EmptyScan(c, version);
    assert bytes[..HEADER_SIZE + s.valid][HEADER_SIZE..] == body[..s.valid] + [];
    assert s.ops + [] == s.ops;
  }

  /** A good prefix up to `pos` is read first, then whatever the bytes behind it yield. */
  lemma {:induction false} ReadInTwo(c: Codec, version: nat, bytes: seq<Byte>, pos: nat)
    requires HEADER_SIZE <= pos <= |bytes| && ScanAll(c, version, bytes[HEADER_SIZE..pos]).valid == pos - HEADER_SIZE
    ensures ScanAll(c, version, bytes[HEADER_SIZE..]).ops
            == ScanAll(c, version, bytes[HEADER_SIZE..pos]).ops + ScanAll(c, version, bytes[pos..]).ops
    ensures pos == |bytes| ==> ScanAll(c, version, bytes[pos..]).ops == []
  {
    hide ReadFrame;
    var done := bytes[HEADER_SIZE..pos];
    ScanLocal(c, version, done, bytes[pos..]);
    assert done[..|done|] == done;
    assert bytes[HEADER_SIZE..] == done + bytes[pos..];
    if pos == |bytes| {
      assert bytes[pos..] == [];
      assert ReadFrame(c, version, []) == None;
    }
  }

  /** Frames written at the end of a good prefix extend it by their operations. */
  lemma {:induction false} WrittenReads(c: Codec, bytes: seq<Byte>, pos: nat, ops: seq<WalOp>)
    requires c.Valid() && AllFit(c, ops) && HEADER_SIZE <= pos <= |bytes|
    requires ScanAll(c, WAL_VERSION, bytes[HEADER_SIZE..pos]).valid == pos - HEADER_SIZE
    ensures var r, p := Over(bytes, pos, Frames(c, ops)), pos + |Frames(c, ops)|;
            && p <= |r| && (pos == |bytes| ==> p == |r|)
            && ScanAll(c, WAL_VERSION, r[HEADER_SIZE..p])
               == Scan(ScanAll(c, WAL_VERSION, bytes[HEADER_SIZE..pos]).ops + ops, p - HEADER_SIZE)
  {
    hide ScanAll, Frames;
    var done := bytes[HEADER_SIZE..pos];
    CutThenAppend(c, done, ops);
    assert done[..|done|] == done;
    assert Over(bytes, pos, Frames(c, ops))[HEADER_SIZE..pos + |Frames(c, ops)|] == done + Frames(c, ops);
  }

  lemma {:induction false} Unwritten(bytes: seq<Byte>, pos: nat, w: seq<Byte>)
    requires HEADER_SIZE <= pos <= |bytes|
    ensures Over(bytes, pos, w)[HEADER_SIZE..pos] == bytes[HEADER_SIZE..pos] == bytes[..pos][HEADER_SIZE..pos]
    ensures pos == |bytes| ==> Over(bytes, pos, w)[pos..] == w
    ensures bytes[..pos][pos..] == []
  {
  }

  lemma {:induction false} NothingOver(bytes: seq<Byte>, pos: nat)
    requires pos <= |bytes|
    ensures Over(bytes, pos, []) == bytes
  {
  }

  lemma {:induction false} EmptyScan(c: Codec, version: nat)
    ensures ScanAll(c, version, []) == Scan([], 0)
  {
  }

  lemma {:induction false} AfterNothing(c: Codec, version: nat, bytes: seq<Byte>, pos: nat)
    requires c.Valid() && HEADER_SIZE <= pos <= |bytes|
    ensures AllFit(c, []) && Frames(c, []) == [] && Over(bytes, pos, []) == bytes
    ensures var s := ScanAll(c, version, bytes[HEADER_SIZE..pos]);
            s.valid == pos - HEADER_SIZE ==>
              && ScanAll(c, version, bytes[HEADER_SIZE..]).ops == s.ops + ScanAll(c, version, bytes[pos..]).ops
              && (pos == |bytes| ==> ScanAll(c, version, bytes[pos..]).ops == [] && bytes[HEADER_SIZE..] == bytes[HEADER_SIZE..pos])
  {
    hide ScanAll, Over;
    NoFrames(c);
    NothingOver(bytes, pos);
    AllBytes(bytes);
    if ScanAll(c, version, bytes[HEADER_SIZE..pos]).valid == pos - HEADER_SIZE {
      ReadInTwo(c, version, bytes, pos);
    }
  }

  /** What a failed write of `ops` leaves to be read. */
  lemma {:induction false} AfterFault(c: Codec, bytes: seq<Byte>, pos: nat, ops: seq<WalOp>, n: nat, cut: bool) returns (kept: nat)
    requires c.Valid() && AllFit(c, ops) && HEADER_SIZE <= pos <= |bytes| && n <= |Frames(c, ops)|
    ensures kept <= |ops|
    ensures var r := if cut then bytes[..pos] else Over(bytes, pos, Frames(c, ops)[..n]);
            var s := ScanAll(c, WAL_VERSION, bytes[HEADER_SIZE..pos]);
            && pos <= |r| && r[HEADER_SIZE..pos] == bytes[HEADER_SIZE..pos]
            && (s.valid == pos - HEADER_SIZE ==>
                  ScanAll(c, WAL_VERSION, r[HEADER_SIZE..]).ops == s.ops + ScanAll(c, WAL_VERSION, r[pos..]).ops)
            && (pos == |bytes| ==> ScanAll(c, WAL_VERSION, r[pos..]).ops == ops[..kept])
  {
    hide ScanAll, Frames, Over;
    var w := Frames(c, ops)[..n];
    Unwritten(bytes, pos, w);
    EmptyScan(c, WAL_VERSION);
    kept := 0;
    if !cut {
      kept := CutLog(c, ops, n);
    }
    var r := if cut then bytes[..pos] else Over(bytes, pos, w);
    if ScanAll(c, WAL_VERSION, bytes[HEADER_SIZE..pos]).valid == pos - HEADER_SIZE {
      ReadInTwo(c, WAL_VERSION, r, pos);
    }
  }

  /** What a whole write of `ops` leaves to be read. */
  lemma {:induction false} AfterWrite(c: Codec, bytes: seq<Byte>, pos: nat, ops: seq<WalOp>)
    requires c.Valid() && AllFit(c, ops) && HEADER_SIZE <= pos <= |bytes|
    ensures var r, p := Over(bytes, pos, Frames(c, ops)), pos + |Frames(c, ops)|;
            var s := ScanAll(c, WAL_VERSION, bytes[HEADER_SIZE..pos]);
            && p <= |r|
            && (s.valid == pos - HEADER_SIZE ==>
                  && ScanAll(c, WAL_VERSION, r[HEADER_SIZE..p]) == Scan(s.ops + ops, p - HEADER_SIZE)
                  && ScanAll(c, WAL_VERSION, r[HEADER_SIZE..]).ops == s.ops + ops + ScanAll(c, WAL_VERSION, r[p..]).ops
                  && (pos == |bytes| ==> p == |r| && ScanAll(c, WAL_VERSION, r[p..]).ops == []
                                         && r[HEADER_SIZE..] == r[HEADER_SIZE..p]))
  {
    hide ScanAll, Frames, Over;
    var r, p := Over(bytes, pos, Frames(c, ops)), pos + |Frames(c, ops)|;
    AllBytes(r);
    if ScanAll(c, WAL_VERSION, bytes[HEADER_SIZE..pos]).valid == pos - HEADER_SIZE {
      WrittenReads(c, bytes, pos, ops);
      ReadInTwo(c, WAL_VERSION, r, p);
    }
  }

  function Shorter(a: nat, b: nat): (r: nat)
  {
    if a < b then a else b
  }

  /** A write that fails after some bytes; `cut` says whether the file was then cut back. */
  datatype Fault = Fault(written: nat, cut: bool)

  class LogFile {
    var bytes: seq<Byte>
    var pos: nat
    var version: nat

    ghost predicate Valid()
      reads this
    {
      HEADER_SIZE <= pos <= |bytes| && (version == WAL_VERSION || version == WAL_VERSION_1)
    }

    /** The operations a replay of the file yields. */
    ghost function Ops(c: Codec): (ops: seq<WalOp>)
      requires Valid()
      reads this
    {
      ScanAll(c, version, bytes[HEADER_SIZE..]).ops
    }

    /** Nothing follows the last good frame. */
    ghost predicate Clean(c: Codec)
      requires Valid()
      reads this
    {
      ScanAll(c, version, bytes[HEADER_SIZE..]).valid == |bytes| - HEADER_SIZE
    }

    /** What the bytes before the write position hold. */
    ghost function Before(c: Codec): (s: Scan)
      requires Valid()
      reads this
    {
      ScanAll(c, version, bytes[HEADER_SIZE..pos])
    }

    /** The write position is the end of a good frame. */
    ghost predicate Sound(c: Codec)
      requires Valid()
      reads this
    {
      Before(c).valid == pos - HEADER_SIZE
    }

    /** What can be read behind the write position. */
    ghost function Left(c: Codec): (ops: seq<WalOp>)
      requires Valid()
      reads this
    {
      ScanAll(c, version, bytes[pos..]).ops
    }

    constructor (found: seq<Byte>, usable: (seq<Byte>, nat))
      requires Opened(found) == Ok(usable)
      ensures Valid() && bytes == usable.0 && version == usable.1 && pos == |bytes|
    {
      bytes, version, pos := usable.0, usable.1, |usable.0|;
    }

    /**
      `append_batch`: all frames in one write at the write position. A write that fails
      leaves the position where it was, so the next append overwrites what it left; unless
      the file could be cut back, that is read again behind the acknowledged operations.
     */
    method Append(c: Codec, ops: seq<WalOp>, fault: Option<Fault>) returns (ok: bool, ghost kept: nat)
      requires Valid() && c.Valid()
      modifies this
      ensures Valid() && version == old(version)
      ensures ok <==> ops == [] || (version == WAL_VERSION && AllFit(c, ops) && fault.None?)
      ensures ok ==> && AllFit(c, ops) && pos == old(pos) + |Frames(c, ops)|
                     && bytes == Over(old(bytes), old(pos), Frames(c, ops))
      ensures !ok ==> pos == old(pos)
      ensures !ok && (version != WAL_VERSION || !AllFit(c, ops)) ==> bytes == old(bytes)
      ensures !ok && version == WAL_VERSION && AllFit(c, ops) ==>
                && fault.Some?
                && bytes == if fault.value.cut then old(bytes)[..old(pos)]
                            else Over(old(bytes), old(pos), Frames(c, ops)[..Shorter(fault.value.written, |Frames(c, ops)|)])
      ensures version == WAL_VERSION && old(Sound(c)) ==>
                && Sound(c) && Before(c).ops == old(Before(c).ops) + (if ok then ops else [])
                && Ops(c) == Before(c).ops + Left(c)
      ensures version == WAL_VERSION && old(Sound(c)) && old(pos == |bytes|) ==>
                && kept <= |ops| && Left(c) == (if ok then [] else ops[..kept]) && (ok ==> Clean(c))
    {
      hide ScanAll, Frames, Over;
      kept := 0;
      NoneOf(Before(c).ops, ops);
      if ops == [] {
        AfterNothing(c, version, bytes, pos);
        return true, kept;
      }
      if version != WAL_VERSION {
        return false, kept;
      }
      var buf := Serialize(c, ops);
      if buf.None? {
        AfterNothing(c, version, bytes, pos);
        return false, kept;
      }
      if fault.Some? {
        var n := Shorter(fault.value.written, |buf.value|);
        kept := AfterFault(c, bytes, pos, ops, n, fault.value.cut);
        bytes := if fault.value.cut then bytes[..pos] else Over(bytes, pos, buf.value[..n]);
        return false, kept;
      }
      AfterWrite(c, bytes, pos, ops);
      bytes, pos := Over(bytes, pos, buf.value), pos + |buf.value|;
      return true, kept;
    }

    /** `iter` run to its end: the good prefix, where it stops, and how much follows it. */
    method Replay(c: Codec) returns (ops: seq<WalOp>, validEnd: nat, discarded: nat)
      requires Valid()
      ensures ops == Ops(c)
      ensures validEnd == HEADER_SIZE + ScanAll(c, version, bytes[HEADER_SIZE..]).valid
      ensures validEnd + discarded == |bytes|
      ensures discarded == 0 <==> Clean(c)
    {
      hide ReadFrame, ScanAll;
      ops, validEnd := [], HEADER_SIZE;
      ghost var all := ScanAll(c, version, bytes[HEADER_SIZE..]);
      while true
        invariant HEADER_SIZE <= validEnd <= |bytes|
        invariant var rest := ScanAll(c, version, bytes[validEnd..]);
                  all.ops == ops + rest.ops && HEADER_SIZE + all.valid == validEnd + rest.valid
        decreases |bytes| - validEnd
      {
        var next := ReadFrame(c, version, bytes[validEnd..]);
        ScanUnfold(c, version, bytes, validEnd);
        if next.None? {
          break;
        }
        ops := ops + [next.value.0];
        validEnd := validEnd + next.value.1;
      }
      discarded := |bytes| - validEnd;
    }

    /**
      `truncate_to`: never cuts into the header, and a length past the end pads with zeros.
      At the end of the good prefix it leaves exactly that.
     */
    method TruncateTo(c: Codec, end: nat)
      requires Valid()
      modifies this
      ensures Valid() && version == old(version) && pos == |bytes|
      ensures var e := if end < HEADER_SIZE then HEADER_SIZE else end;
              bytes == if e <= |old(bytes)| then old(bytes)[..e] else old(bytes) + seq(e - |old(bytes)|, _ => 0)
      ensures end == HEADER_SIZE + old(ScanAll(c, version, bytes[HEADER_SIZE..]).valid) ==> Clean(c) && Sound(c) && Ops(c) == old(Ops(c))
    {
      hide ScanAll;
      CutAtValid(c, version, bytes);
      var e := if end < HEADER_SIZE then HEADER_SIZE else end;
      if e <= |bytes| {
        bytes := bytes[..e];
      } else {
        bytes := bytes + seq(e - |bytes|, _ => 0);
      }
      pos := e;
      AllBytes(bytes);
    }

    method Clear(c: Codec)
      modifies this
      ensures Valid() && version == WAL_VERSION && bytes == Header(WAL_VERSION) && pos == |bytes|
      ensures Clean(c) && Sound(c) && Ops(c) == []
    {
      bytes, version, pos := Header(WAL_VERSION), WAL_VERSION, HEADER_SIZE;
    }
  }

  /**
    What a failed batch left behind can outlive the append that overwrites it: both frames
    were written, the cut failed, and the next append covers only the first. The second
    operation, whose append failed, is then read behind the one that succeeded.
   */
  method FailedFrameResurfaces(c: Codec, f: LogFile, first: WalOp, second: WalOp, retry: WalOp)
    requires c.Valid() && f.Valid() && f.version == WAL_VERSION && f.Sound(c) && f.pos == |f.bytes|
    requires c.Fits(first) && c.Fits(second) && c.Fits(retry) && |c.encode(first)| == |c.encode(retry)|
    modifies f
    ensures f.Valid() && f.Before(c).ops == old(f.Ops(c)) + [retry] && f.Ops(c) == old(f.Ops(c)) + [retry, second]
  {
    hide ScanAll, Frame;
    TwoFrames(c, first, second);
    TwoFrames(c, retry, second);
    ghost var a, b := Frame(c, first), Frame(c, second);
    ReadInTwo(c, WAL_VERSION, f.bytes, f.pos);
    NoneOf(f.Before(c).ops, []);
    ghost var was, at := f.bytes, f.pos;
    var ok;
    ghost var kept;
    ok, kept := f.Append(c, [first, second], Some(Fault(|c.encode(first)| + |c.encode(second)| + 2 * FRAME_OVERHEAD, false)));
    assert Frames(c, [first, second])[..|a + b|] == a + b;
    assert f.bytes == was[..at] + a + b;
    ok, kept := f.Append(c, [retry], None);
    assert f.bytes[f.pos..] == b;
    ScanOfFrames(c, [second]);
    assert old(f.Ops(c)) + [retry] + [second] == old(f.Ops(c)) + [retry, second];
  }

  lemma {:induction false} TwoFrames(c: Codec, a: WalOp, b: WalOp)
    requires c.Valid() && c.Fits(a) && c.Fits(b)
    ensures AllFit(c, [a, b]) && Frames(c, [a, b]) == Frame(c, a) + Frame(c, b)
    ensures Frames(c, [a]) == Frame(c, a) && Frames(c, [b]) == Frame(c, b)
  {
    hide Frame;
    assert [a, b][1..] == [b] && [b][1..] == [] && [a][1..] == [];
    assert Frames(c, []) == [];
  }
}
