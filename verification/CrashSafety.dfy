/** Every run of the engine keeps its invariant, so a killed process loses nothing it acknowledged. */
module CrashSafety {
  import opened Wrappers
  import opened Records
  import opened Wal
  import opened Recovery
  import opened Engine

  // ----- what a chain of admissible operations does ------------------------------

  lemma {:induction false} ChainPrefix(c: Codec, slots: Slots, mem: Cache, t: Table, ops: seq<WalOp>, lo: nat, ls: nat, k: nat)
    requires Chain(c, slots, mem, t, ops, lo, ls) && k <= |ops|
    ensures Chain(c, slots, mem, t, ops[..k], lo, ls)
    decreases |ops|
  {
    if k > 0 {
      ChainPrefix(c, slots, mem, Apply1(t, ops[0]), ops[1..], LowOffset(ops[0], lo), LowSeq(ops[0], ls), k - 1);
      assert ops[..k][1..] == ops[1..][..k - 1];
    }
  }

  lemma {:induction false} ChainOps(c: Codec, slots: Slots, mem: Cache, t: Table, ops: seq<WalOp>, lo: nat, ls: nat, op: WalOp)
    requires Chain(c, slots, mem, t, ops, lo, ls) && op in ops
    ensures !op.Flush?
    ensures Puts(op) ==> lo <= op.offset < mem.nextOffset && op.offset < mem.count
                         && ls <= op.number < mem.nextSeq && Present(c, slots, op)
    decreases |ops|
  {
    if op != ops[0] {
      ChainOps(c, slots, mem, Apply1(t, ops[0]), ops[1..], LowOffset(ops[0], lo), LowSeq(ops[0], ls), op);
    }
  }

  ghost predicate Below(t: Table, n: nat)
  {
    forall o :: o in t ==> o < n
  }

  /** Offsets are never reused: what is gone below the floor stays gone. */
  lemma {:induction false} ChainDead(c: Codec, slots: Slots, mem: Cache, t: Table, ops: seq<WalOp>, lo: nat, ls: nat, o: Offset)
    requires Chain(c, slots, mem, t, ops, lo, ls) && Below(t, lo) && o < lo && o !in t
    ensures o !in ApplyAll(t, ops)
    decreases |ops|
  {
    if ops != [] {
      ChainDead(c, slots, mem, Apply1(t, ops[0]), ops[1..], LowOffset(ops[0], lo), LowSeq(ops[0], ls), o);
    }
  }

  lemma {:induction false} ChainDeletes(c: Codec, slots: Slots, mem: Cache, t: Table, ops: seq<WalOp>, lo: nat, ls: nat, op: WalOp)
    requires Chain(c, slots, mem, t, ops, lo, ls) && Below(t, lo) && lo <= mem.nextOffset
    requires op in ops && op.Delete?
    ensures op.offset !in ApplyAll(t, ops) && op.offset < mem.nextOffset
    decreases |ops|
  {
    var u := Apply1(t, ops[0]);
    if op == ops[0] {
      ChainDead(c, slots, mem, u, ops[1..], lo, ls, op.offset);
    } else {
      ChainDeletes(c, slots, mem, u, ops[1..], LowOffset(ops[0], lo), LowSeq(ops[0], ls), op);
    }
  }

  lemma {:induction false} ChainKeeps(c: Codec, slots: Slots, mem: Cache, t: Table, ops: seq<WalOp>, lo: nat, ls: nat)
    requires Chain(c, slots, mem, t, ops, lo, ls) && Below(t, lo) && IdsUnique(t) && lo <= mem.nextOffset && Below(t, mem.count)
    ensures Below(ApplyAll(t, ops), mem.nextOffset) && Below(ApplyAll(t, ops), mem.count)
    ensures IdsUnique(ApplyAll(t, ops))
    decreases |ops|
  {
    if ops != [] {
      var u := Apply1(t, ops[0]);
      UniqueStep(c, slots, mem, t, ops[0], lo, ls);
      ChainKeeps(c, slots, mem, u, ops[1..], LowOffset(ops[0], lo), LowSeq(ops[0], ls));
    }
  }

  lemma {:induction false} UniqueStep(c: Codec, slots: Slots, mem: Cache, t: Table, op: WalOp, lo: nat, ls: nat)
    requires OpOk(c, slots, mem, t, op, lo, ls) && Below(t, lo) && IdsUnique(t)
    ensures IdsUnique(Apply1(t, op))
  {
  }

  lemma {:induction false} ChainOfOne(c: Codec, slots: Slots, mem: Cache, t: Table, op: WalOp, lo: nat, ls: nat)
    requires OpOk(c, slots, mem, t, op, lo, ls)
    ensures Chain(c, slots, mem, t, [op], lo, ls)
  {
    assert [op][1..] == [];
  }

  lemma {:induction false} AppliedOnce(t: Table, op: WalOp)
    ensures ApplyAll(t, [op]) == Apply1(t, op)
  {
    assert [op][1..] == [];
  }

  /** Replaying an acknowledged log plus any part of an admissible batch is applying that part. */
  lemma {:induction false} ReplayChain(c: Codec, s: Sys, ops: seq<WalOp>)
    requires Inv(c, s) && Chain(c, s.disk.slots, s.mem, s.mem.records, ops, s.floorO, s.floorS)
    ensures ReplayAll(c, s.disk.slots, s.disk.snap.last, s.disk.snap.records, s.disk.log + ops)
            == ApplyAll(s.mem.records, ops)
  {
    hide Chain;
    var last := s.disk.snap.last;
    ReplayConcat(c, s.disk.slots, last, s.disk.snap.records, s.disk.log, ops);
    forall op | op in ops && Puts(op)
      ensures op.number > last && Present(c, s.disk.slots, op)
    {
      ChainOps(c, s.disk.slots, s.mem, s.mem.records, ops, s.floorO, s.floorS, op);
    }
    ReplayIsApply(c, s.disk.slots, last, s.mem.records, ops);
  }

  // ----- the main crash theorem ------------------------------------------------------

  /**
    Kill the process in any reachable state, with any part of the in-flight batch in the
    log: the next open rebuilds exactly the acknowledged records with that part applied.
   */
  lemma {:induction false} KillLosesNothing(c: Codec, s: Sys, k: nat)
    requires Inv(c, s) && k <= |s.pending|
    ensures Loaded(c, Crashed(s, k)).records == ApplyAll(s.mem.records, s.pending[..k])
  {
    hide Inv;
    ChainPrefix(c, s.disk.slots, s.mem, s.mem.records, s.pending, s.floorO, s.floorS, k) by { InvChain(c, s); }
    ReplayChain(c, s, s.pending[..k]);
  }

  lemma {:induction false} InvChain(c: Codec, s: Sys)
    requires Inv(c, s)
    ensures Chain(c, s.disk.slots, s.mem, s.mem.records, s.pending, s.floorO, s.floorS)
  {
  }

  // ----- every event keeps the invariant ----------------------------------------------

  lemma {:induction false} InvEmpty(c: Codec)
    ensures Inv(c, EmptyStore)
  {
  }

  lemma {:induction false} ReserveKeeps(c: Codec, s: Sys)
    requires Inv(c, s) && Enabled(c, s, Reserve)
    ensures Inv(c, Next(c, s, Reserve))
  {
  }

  lemma {:induction false} PutKeeps(c: Codec, s: Sys, o: Offset, v: seq<Byte>)
    requires Inv(c, s) && Enabled(c, s, Put(o, v))
    ensures Inv(c, Next(c, s, Put(o, v)))
  {
    hide ReplayAll, ApplyAll;
    var r := Next(c, s, Put(o, v));
    assert forall op :: op in s.disk.log && Newer(op, s.disk.snap.last) ==> op.offset < o;
    ReplaySlots(c, s.disk.slots, r.disk.slots, s.disk.snap.last, s.disk.snap.records, s.disk.log);
  }

  lemma {:induction false} StampKeeps(c: Codec, s: Sys)
    requires Inv(c, s)
    ensures Inv(c, Next(c, s, Stamp))
  {
  }

  lemma {:induction false} CommitKeeps(c: Codec, s: Sys)
    requires Inv(c, s) && Enabled(c, s, Commit)
    ensures Inv(c, Next(c, s, Commit))
  {
    hide ReplayAll, ApplyAll, Chain, Touched, Present;
    var r := Next(c, s, Commit);
    var t := s.mem.records;
    ReplayChain(c, s, s.pending);
    ApplyConcat(map[], s.journal, s.pending);
    ChainKeeps(c, s.disk.slots, s.mem, t, s.pending, s.floorO, s.floorS);
    CommitLog(c, s);
    CommitDirty(c, s);
    EmptyChain(c, r);
  }

  lemma {:induction false} EmptyChain(c: Codec, s: Sys)
    requires s.pending == []
    ensures Chain(c, s.disk.slots, s.mem, s.mem.records, s.pending, s.floorO, s.floorS)
  {
  }

  lemma {:induction false} CommitLog(c: Codec, s: Sys)
    requires Inv(c, s) && Enabled(c, s, Commit)
    ensures LogOk(c, Next(c, s, Commit))
  {
    hide ReplayAll, ApplyAll, Chain, Touched, Present;
    var r := Next(c, s, Commit);
    forall op | op in r.disk.log
      ensures Puts(op) ==> 1 <= op.number < r.floorS
      ensures Newer(op, r.disk.snap.last) ==> op.offset < r.floorO && Present(c, r.disk.slots, op)
      ensures op.Delete? ==> op.offset !in r.mem.records && op.offset < r.floorO
      ensures !op.Flush?
    {
      if op in s.pending {
        ChainOps(c, s.disk.slots, s.mem, s.mem.records, s.pending, s.floorO, s.floorS, op);
        if op.Delete? {
          ChainDeletes(c, s.disk.slots, s.mem, s.mem.records, s.pending, s.floorO, s.floorS, op);
        }
      } else {
        assert op in s.disk.log;
        if op.Delete? {
          ChainDead(c, s.disk.slots, s.mem, s.mem.records, s.pending, s.floorO, s.floorS, op.offset);
        }
      }
    }
  }

  lemma {:induction false} CommitDirty(c: Codec, s: Sys)
    requires Inv(c, s) && Enabled(c, s, Commit)
    ensures var r := Next(c, s, Commit);
            forall o :: o !in r.mem.dirty ==> Agree(r.disk.snap.records, r.mem.records, o)
  {
    hide ReplayAll, ApplyAll, Chain, Touched, Present;
    var r := Next(c, s, Commit);
    forall op | op in s.pending && Puts(op)
      ensures op.number > 0 && Present(c, s.disk.slots, op)
    {
      ChainOps(c, s.disk.slots, s.mem, s.mem.records, s.pending, s.floorO, s.floorS, op);
    }
    ReplayIsApply(c, s.disk.slots, 0, s.mem.records, s.pending);
    forall o | o !in r.mem.dirty
      ensures Agree(r.disk.snap.records, r.mem.records, o)
    {
      ReplayTouchesOnly(c, s.disk.slots, 0, s.mem.records, s.pending, o);
    }
  }

  /** The incremental snapshot is the whole table: nothing that is not dirty differs. */
  lemma {:induction false} MergedIsLive(stored: Table, live: Table, dirty: set<Offset>)
    requires forall o :: o !in dirty ==> Agree(stored, live, o)
    ensures Merged(stored, live, dirty) == live
  {
    var m := Merged(stored, live, dirty);
    forall o
      ensures Agree(m, live, o)
    {
      assert o !in dirty ==> Agree(stored, live, o);
    }
    assert m.Keys == live.Keys;
  }

  lemma {:induction false} SaveKeeps(c: Codec, s: Sys, upTo: nat)
    requires Inv(c, s) && Enabled(c, s, Save(upTo))
    ensures var r := Next(c, s, Save(upTo)); Inv(c, r) && r.disk.snap.records == r.mem.records && r.disk.snap.written
  {
    hide ReplayAll, ApplyAll, Present, Merged;
    var r := Next(c, s, Save(upTo));
    MergedIsLive(s.disk.snap.records, s.mem.records, s.mem.dirty);
    if NothingToSave(s, upTo) {
      forall o
        ensures o !in s.disk.snap.records
      {
        assert Agree(s.disk.snap.records, s.mem.records, o);
      }
      assert s.disk.snap.records == map[];
    } else {
      ReplayOfStale(c, r.disk.slots, upTo, r.disk.snap.records, r.disk.log);
    }
  }

  lemma {:induction false} ClearKeeps(c: Codec, s: Sys)
    requires Inv(c, s) && Enabled(c, s, Clear)
    ensures Inv(c, Next(c, s, Clear))
  {
  }

  /** A flush's and a recovery's choice of last applied number are both admissible to `Save`. */
  lemma {:induction false} FlushMaySave(c: Codec, s: Sys)
    requires Inv(c, s) && s.pending == []
    ensures var r := Next(c, s, Stamp);
            Enabled(c, r, Save(s.mem.nextSeq - 1)) &&
            (MaxSeq(s.disk.log, s.disk.snap.last) < s.mem.nextSeq ==>
              Enabled(c, r, Save(MaxSeq(s.disk.log, s.disk.snap.last))))
  {
  }

  lemma {:induction false} RebootKeeps(c: Codec, s: Sys, k: nat)
    requires Inv(c, s) && Enabled(c, s, Reboot(k))
    ensures Inv(c, Next(c, s, Reboot(k)))
  {
    hide ReplayAll, ApplyAll, Chain, Touched, Present, MaxOffset, MaxSeq, RecoveredCount;
    var r := Next(c, s, Reboot(k));
    KillLosesNothing(c, s, k);
    ApplyConcat(map[], s.journal, s.pending[..k]);
    RebootChain(c, s, k);
    RebootCounters(c, s, k);
    RebootLog(c, s, k);
    forall o | o !in r.mem.dirty
      ensures Agree(r.disk.snap.records, r.mem.records, o)
    {
      ReplayTouchesOnly(c, r.disk.slots, r.disk.snap.last, r.disk.snap.records, r.disk.log, o);
    }
    EmptyChain(c, r);
  }

  lemma {:induction false} RebootChain(c: Codec, s: Sys, k: nat)
    requires Inv(c, s) && k <= |s.pending|
    ensures Chain(c, s.disk.slots, s.mem, s.mem.records, s.pending[..k], s.floorO, s.floorS)
    ensures IdsUnique(ApplyAll(s.mem.records, s.pending[..k]))
  {
    hide ReplayAll, ApplyAll;
    ChainPrefix(c, s.disk.slots, s.mem, s.mem.records, s.pending, s.floorO, s.floorS, k);
    ChainKeeps(c, s.disk.slots, s.mem, s.mem.records, s.pending[..k], s.floorO, s.floorS);
  }

  lemma {:induction false} RebootCounters(c: Codec, s: Sys, k: nat)
    requires Inv(c, s) && k <= |s.pending| && OpenCheck(c, Crashed(s, k)).Ok?
    ensures CountersOk(Next(c, s, Reboot(k)))
  {
    hide ReplayAll, ApplyAll, Chain, Touched, Present, MaxOffset, MaxSeq, RecoveredCount;
    var r := Next(c, s, Reboot(k));
    forall o | o in r.mem.records
      ensures o < r.floorO && o < r.mem.count
    {
      LoadedBounds(c, s, k, o);
    }
  }

  lemma {:induction false} LoadedBounds(c: Codec, s: Sys, k: nat, o: Offset)
    requires Inv(c, s) && k <= |s.pending|
    requires o in Loaded(c, Crashed(s, k)).records
    ensures var m := Loaded(c, Crashed(s, k)); o < m.nextOffset && o < m.count
  {
    hide ReplayAll, ApplyAll, Chain, Touched, Present, MaxOffset, MaxSeq, RecoveredCount;
    var d := Crashed(s, k);
    ReplaySource(c, d.slots, d.snap.last, d.snap.records, d.log, o);
    if o !in d.snap.records {
      var op :| op in d.log && Newer(op, d.snap.last) && Present(c, d.slots, op) && op.offset == o;
      assert Replays(op, d.snap.last);
    }
  }

  lemma {:induction false} RebootLog(c: Codec, s: Sys, k: nat)
    requires Inv(c, s) && k <= |s.pending| && OpenCheck(c, Crashed(s, k)).Ok?
    ensures LogOk(c, Next(c, s, Reboot(k)))
  {
    hide ReplayAll, ApplyAll, Chain, Touched, Present, MaxOffset, MaxSeq, RecoveredCount;
    var r := Next(c, s, Reboot(k));
    var ops := s.pending[..k];
    KillLosesNothing(c, s, k);
    RebootChain(c, s, k);
    forall op | op in r.disk.log
      ensures Puts(op) ==> 1 <= op.number < r.floorS
      ensures Newer(op, r.disk.snap.last) ==> op.offset < r.floorO && Present(c, r.disk.slots, op)
      ensures op.Delete? ==> op.offset !in r.mem.records && r.recovering
      ensures !op.Flush?
    {
      if op in ops {
        ChainOps(c, s.disk.slots, s.mem, s.mem.records, ops, s.floorO, s.floorS, op);
        if op.Delete? {
          ChainDeletes(c, s.disk.slots, s.mem, s.mem.records, ops, s.floorO, s.floorS, op);
        }
      } else {
        assert op in s.disk.log;
        if op.Delete? && !s.recovering {
          ChainDead(c, s.disk.slots, s.mem, s.mem.records, ops, s.floorO, s.floorS, op.offset);
        } else if op.Delete? {
          NothingPending(s.mem.records, ops);
        }
      }
      assert Replays(op, r.disk.snap.last) ==> r.recovering;
    }
  }

  lemma {:induction false} NothingPending(t: Table, ops: seq<WalOp>)
    requires ops == []
    ensures ApplyAll(t, ops) == t
  {
  }

  // ----- opening, whole runs, and the log's bytes --------------------------------------

  /**
    After a kill the store opens if and only if something was ever acknowledged or
    flushed, or no vector was stamped: a store that only ever failed to append can be
    refused (see `FailedFirstWriteIsRefused`).
   */
  lemma {:induction false} OpensIff(c: Codec, s: Sys, k: nat)
    requires Inv(c, s) && k <= |s.pending|
    ensures OpenCheck(c, Crashed(s, k)).Ok?
            <==> s.disk.snap.written || s.disk.count == 0 || s.journal + s.pending[..k] != []
  {
    hide ReplayAll, ApplyAll, Chain, Touched, Present, MaxOffset, MaxSeq, RecoveredCount;
    var d := Crashed(s, k);
    forall o | o in Loaded(c, d).records
      ensures o < Loaded(c, d).count
    {
      LoadedBounds(c, s, k, o);
    }
    if !d.snap.written && d.log != [] {
      var op := d.log[0];
      RebootChain(c, s, k);
      if op !in s.disk.log {
        ChainOps(c, s.disk.slots, s.mem, s.mem.records, s.pending[..k], s.floorO, s.floorS, op);
      }
      assert op in d.log && Replays(op, d.snap.last);
    }
  }

  /** An opened store counts a vector for every record, and is refused exactly for what is missing. */
  lemma {:induction false} OpenChecks(c: Codec, d: Disk)
    ensures OpenCheck(c, d).Ok? ==> forall o :: o in OpenCheck(c, d).value.records ==> o < OpenCheck(c, d).value.count
    ensures OpenCheck(c, d) == Err(MetadataMissing) <==>
            !d.snap.written && d.count > 0 && forall op :: op in d.log ==> !op.Delete? && !(Puts(op) && op.number > d.snap.last)
    ensures OpenCheck(c, d) == Err(VectorsMissing) ==> exists o :: o in Loaded(c, d).records && o >= Loaded(c, d).count
  {
    hide ReplayAll, Touched, MaxOffset, MaxSeq, RecoveredCount;
  }

  lemma {:induction false} StepKeeps(c: Codec, s: Sys, e: Event)
    requires Inv(c, s) && Enabled(c, s, e)
    ensures Inv(c, Next(c, s, e)) && s.journal <= Next(c, s, e).journal
  {
    hide Inv;
    match e
    case Reserve => ReserveKeeps(c, s);
    case Put(o, v) => PutKeeps(c, s, o, v);
    case Append(ops) => AppendKeeps(c, s, ops);
    case Commit => CommitKeeps(c, s);
    case Stamp => StampKeeps(c, s);
    case Save(upTo) => SaveKeeps(c, s, upTo);
    case Clear => ClearKeeps(c, s);
    case Reboot(k) => RebootKeeps(c, s, k);
  }

  lemma {:induction false} AppendKeeps(c: Codec, s: Sys, ops: seq<WalOp>)
    requires Inv(c, s) && Enabled(c, s, Append(ops))
    ensures Inv(c, Next(c, s, Append(ops)))
  {
  }

  /** `s` can go through the events `es` and end in `t`. */
  ghost predicate Run(c: Codec, s: Sys, es: seq<Event>, t: Sys)
    decreases |es|
  {
    if es == [] then s == t else Enabled(c, s, es[0]) && Run(c, Next(c, s, es[0]), es[1..], t)
  }

  /**
    Durability over every run, with a kill possible between any two steps, during a flush
    and during a recovery: the live records are always the ones the journal of
    acknowledged operations describes, an operation that entered the journal never leaves
    it, and no two live records share an id.
   */
  lemma {:induction false} EveryRunIsDurable(c: Codec, s: Sys, es: seq<Event>, t: Sys)
    requires Inv(c, s) && Run(c, s, es, t)
    ensures Inv(c, t) && s.journal <= t.journal
    ensures t.mem.records == ApplyAll(map[], t.journal) && IdsUnique(t.mem.records)
    decreases |es|
  {
    if es != [] {
      StepKeeps(c, s, es[0]);
      EveryRunIsDurable(c, Next(c, s, es[0]), es[1..], t);
    }
  }

  /**
    The same at the level of bytes: cut the log file anywhere past the acknowledged
    frames, and reading it back gives the log of some `Reboot`.
   */
  lemma {:induction false} CutFileIsSomeReboot(c: Codec, s: Sys, n: nat) returns (k: nat)
    requires c.Valid() && AllFit(c, s.disk.log + s.pending)
    requires AllFit(c, s.disk.log) && |Frames(c, s.disk.log)| <= n <= |Frames(c, s.disk.log + s.pending)|
    ensures k <= |s.pending|
    ensures ScanAll(c, WAL_VERSION, Frames(c, s.disk.log + s.pending)[..n]).ops == Crashed(s, k).log
  {
    hide Frames, ScanAll;
    var all := s.disk.log + s.pending;
    var m := CutLog(c, all, n);
    if m < |s.disk.log| {
      assert s.disk.log == all[..m + 1] + s.disk.log[m + 1..];
      FramesConcat(c, all[..m + 1], s.disk.log[m + 1..]);
    }
    k := m - |s.disk.log|;
    assert all[..m] == s.disk.log + s.pending[..k];
  }

  /** A first insert whose append failed, then a flush killed before its snapshot: the next open is refused. */
  lemma {:induction false} FailedFirstWriteIsRefused(c: Codec, v: seq<Byte>)
    ensures exists s :: Run(c, EmptyStore, [Reserve, Put(0, v), Stamp], s)
                        && OpenCheck(c, Crashed(s, 0)) == Err(MetadataMissing)
  {
    var s1 := Next(c, EmptyStore, Reserve);
    var s2 := Next(c, s1, Put(0, v));
    var s3 := Next(c, s2, Stamp);
    assert Run(c, s3, [], s3);
    assert [Put(0, v), Stamp][1..] == [Stamp] && [Stamp][1..] == [];
    assert Run(c, s2, [Stamp], s3);
    assert Run(c, s1, [Put(0, v), Stamp], s3);
    var es := [Reserve, Put(0, v), Stamp];
    assert es[1..] == [Put(0, v), Stamp];
    assert Run(c, EmptyStore, es, s3);
    assert Crashed(s3, 0).log == [];
  }
}
