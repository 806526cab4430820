/**
  Frames that reach the log while their write fails (crates/turbomemory_storage/src/engine/
  write.rs `log`: the append succeeds, then the sync or the index update raises). The caller
  is told the write failed and the record is not live, but the next open replays the frame,
  and the store goes on from what it found.
 */
module Strays {
  import opened Wrappers
  import opened Records
  import opened Wal
  import opened Recovery
  import opened Engine
  import opened CrashSafety

  /**
    What the running process made of a logged write: it was applied and acknowledged, it
    failed and changed nothing, or it was an update that failed after the old record had
    left memory.
   */
  datatype Fate = Done | Undone | Half

  /** A frame on disk and its fate. */
  datatype Entry = Entry(op: WalOp, fate: Fate)

  /** The engine's machine, with the log as it is on disk. */
  datatype Store = Store(sys: Sys, log: seq<Entry>)

  /**
    An event of the machine, a write that fails after its frame was logged, an update that
    fails half way, or a kill with `survived` frames of the write in flight and the next
    open. What was replayed is live from
    then on, stray or not; `history` is a history of that store.
   */
  datatype Step = Do(event: Event) | Fail(op: WalOp) | FailHalf(op: WalOp) | Restart(survived: nat, history: seq<WalOp>)

  function Ops(log: seq<Entry>): (ops: seq<WalOp>)
  {
    if log == [] then [] else Ops(log[..|log| - 1]) + [log[|log| - 1].op]
  }

  /** What an entry did to the live records. */
  function Effect(e: Entry): (ops: seq<WalOp>)
  {
    if e.fate.Done? then [e.op] else if e.fate.Half? && e.op.Replace? then [Delete(e.op.from)] else []
  }

  /** The operations that took effect in the running process. */
  function Acknowledged(log: seq<Entry>): (ops: seq<WalOp>)
  {
    if log == [] then [] else Acknowledged(log[..|log| - 1]) + Effect(log[|log| - 1])
  }

  function Entries(ops: seq<WalOp>): (log: seq<Entry>)
    ensures |log| == |ops| && forall i :: 0 <= i < |ops| ==> log[i] == Entry(ops[i], Done)
  {
    seq(|ops|, i requires 0 <= i < |ops| => Entry(ops[i], Done))
  }

  function Failed(ops: seq<WalOp>): (log: seq<Entry>)
    ensures |log| == |ops| && forall i :: 0 <= i < |ops| ==> log[i] == Entry(ops[i], Undone)
  {
    seq(|ops|, i requires 0 <= i < |ops| => Entry(ops[i], Undone))
  }

  /** A stray frame that replay looks at. */
  predicate StrayPut(e: Entry, last: nat)
  {
    !e.fate.Done? && Newer(e.op, last)
  }

  /** The records stray frames put. */
  function Extra(log: seq<Entry>, last: nat): (t: Table)
  {
    if log == [] then map[]
    else
      var front, e := Extra(log[..|log| - 1], last), log[|log| - 1];
      if StrayPut(e, last) then front[e.op.offset := e.op.meta] else front
  }

  /** The offsets stray frames remove. */
  function Gone(log: seq<Entry>, last: nat): (s: set<Offset>)
  {
    if log == [] then {}
    else
      var front, e := Gone(log[..|log| - 1], last), log[|log| - 1];
      if !e.fate.Done? && e.op.Delete? then front + {e.op.offset}
      else if StrayPut(e, last) && e.op.Replace? then front + {e.op.from}
      else front
  }

  // ----- the machine ------------------------------------------------------------------------

  ghost predicate Can(c: Codec, st: Store, x: Step)
  {
    var s := st.sys;
    match x
    case Do(e) =>
      && Enabled(c, s, e) && !e.Reboot?
      && (e.Save? ==> forall y :: y in st.log && Puts(y.op) ==> y.op.number <= e.upTo)
    case Fail(op) =>
      !s.recovering && s.pending == [] && OpOk(c, s.disk.slots, s.mem, s.mem.records, op, s.floorO, s.floorS)
    case FailHalf(op) =>
      && !s.recovering && s.pending == [] && op.Replace?
      && OpOk(c, s.disk.slots, s.mem, s.mem.records, op, s.floorO, s.floorS)
    case Restart(k, h) =>
      && k <= |s.pending| && OpenCheck(c, OnDisk(st, k)).Ok? && IdsUnique(Reopened(c, st, k))
      && ApplyAll(map[], h) == Reopened(c, st, k) && (!s.disk.snap.written ==> h == OnDisk(st, k).log)
  }

  /** A record leaves memory. */
  function Removed(c: Codec, s: Sys, o: Offset): (r: Sys)
    requires !s.recovering && s.pending == [] && o in s.mem.records
  {
    var d := Append([Delete(o)]);
    assert Enabled(c, s, d) by { ChainOfOne(c, s.disk.slots, s.mem, s.mem.records, Delete(o), s.floorO, s.floorS); }
    Next(c, Next(c, s, d), Commit)
  }

  /** The disk after a kill. */
  function OnDisk(st: Store, k: nat): (d: Disk)
    requires k <= |st.sys.pending|
  {
    st.sys.disk.(log := Ops(st.log) + st.sys.pending[..k])
  }

  function After(c: Codec, st: Store, x: Step): (r: Store)
    requires Can(c, st, x)
  {
    var s := st.sys;
    match x
    case Do(Commit) => Store(Next(c, s, Commit), st.log + Entries(s.pending))
    case Do(Clear) => Store(Next(c, s, Clear), [])
    case Do(e) => Store(Next(c, s, e), st.log)
    case Fail(op) => Store(s.(floorO := LowOffset(op, s.floorO), floorS := LowSeq(op, s.floorS)), st.log + [Entry(op, Undone)])
    case FailHalf(op) => Store(Removed(c, s, op.from), st.log + [Entry(op, Half)])
    case Restart(k, h) =>
      var d := OnDisk(st, k);
      var m := Loaded(c, d);
      Store(Sys(d, m, [], m.nextOffset, m.nextSeq, h, AnyReplays(d.log, d.snap.last)), Entries(d.log))
  }

  /** The records the next open finds, killed with `k` frames of the write in flight in the log. */
  function Reopened(c: Codec, st: Store, k: nat): (t: Table)
    requires k <= |st.sys.pending|
  {
    var d := st.sys.disk;
    ReplayAll(c, d.slots, d.snap.last, d.snap.records, Ops(st.log) + st.sys.pending[..k])
  }

  ghost predicate StraysOk(c: Codec, st: Store)
  {
    forall e :: e in st.log && !e.fate.Done? ==>
      && !e.op.Flush? && e.op.offset < st.sys.floorO
      && (Puts(e.op) ==> 1 <= e.op.number < st.sys.floorS && Present(c, st.sys.disk.slots, e.op))
  }

  /** Strays name only offsets already used, and put nothing where a live record is. */
  ghost predicate Apart(gone: set<Offset>, extra: Table, live: Table, lo: nat)
  {
    && (forall o :: o in gone ==> o < lo)
    && (forall o :: o in extra ==> o < lo && o !in live)
  }

  /** No deletion names a record that a stray put. */
  ghost predicate DeadApart(log: seq<Entry>, extra: Table)
  {
    forall e :: e in log && e.op.Delete? ==> e.op.offset !in extra
  }

  ghost predicate StoreInv(c: Codec, st: Store)
  {
    var s, last := st.sys, st.sys.disk.snap.last;
    && Inv(c, s) && Acknowledged(st.log) == s.disk.log && StraysOk(c, st)
    && Apart(Gone(st.log, last), Extra(st.log, last), s.mem.records, s.floorO) && DeadApart(st.log, Extra(st.log, last))
    && ReplayAll(c, s.disk.slots, last, s.disk.snap.records, Ops(st.log))
       == (s.mem.records - Gone(st.log, last)) + Extra(st.log, last)
  }

  // ----- lists of frames ------------------------------------------------------------------------

  lemma {:induction false} Snoc(log: seq<Entry>, e: Entry, last: nat)
    ensures var all := log + [e];
            && Ops(all) == Ops(log) + [e.op]
            && Acknowledged(all) == Acknowledged(log) + Effect(e)
            && Extra(all, last) == (if StrayPut(e, last) then Extra(log, last)[e.op.offset := e.op.meta] else Extra(log, last))
            && Gone(all, last) == Gone(log, last) + (if !e.fate.Done? && e.op.Delete? then {e.op.offset}
                                                     else if StrayPut(e, last) && e.op.Replace? then {e.op.from} else {})
  {
    assert (log + [e])[..|log + [e]| - 1] == log;
  }

  lemma {:induction false} Appended(log: seq<Entry>, ops: seq<WalOp>, last: nat)
    ensures var all := log + Entries(ops);
            && Ops(all) == Ops(log) + ops && Acknowledged(all) == Acknowledged(log) + ops
            && Extra(all, last) == Extra(log, last) && Gone(all, last) == Gone(log, last)
    decreases |ops|
  {
    hide Ops, Acknowledged, Extra, Gone;
    if ops == [] {
      assert log + Entries(ops) == log && Ops(log) + ops == Ops(log) && Acknowledged(log) + ops == Acknowledged(log);
    } else {
      var front, op := ops[..|ops| - 1], ops[|ops| - 1];
      Appended(log, front, last);
      Snoc(log + Entries(front), Entry(op, Done), last);
      assert ops == front + [op];
      assert log + Entries(ops) == log + Entries(front) + [Entry(op, Done)];
      assert Ops(log) + front + [op] == Ops(log) + ops && Acknowledged(log) + front + [op] == Acknowledged(log) + ops;
    }
  }

  lemma {:induction false} OpsAreLogged(log: seq<Entry>, op: WalOp)
    requires op in Ops(log)
    ensures exists e :: e in log && e.op == op
  {
    var front, e := log[..|log| - 1], log[|log| - 1];
    assert log == front + [e];
    if op != e.op {
      OpsAreLogged(front, op);
      var f :| f in front && f.op == op;
      assert f in log;
    } else {
      assert e in log;
    }
  }

  lemma {:induction false} AckedAreLogged(log: seq<Entry>, e: Entry)
    requires e in log && e.fate.Done?
    ensures e.op in Acknowledged(log)
  {
    var front, l := log[..|log| - 1], log[|log| - 1];
    assert log == front + [l];
    if e in front {
      AckedAreLogged(front, e);
    }
  }

  // ----- one write over a log with strays -----------------------------------------------------------

  /** Replaying one acknowledged operation does to the recovered table what it did to the live one. */
  lemma {:induction false} OneMore(c: Codec, slots: Slots, mem: Cache, last: nat, live: Table, gone: set<Offset>, extra: Table,
                                   op: WalOp, lo: nat, ls: nat)
    requires OpOk(c, slots, mem, live, op, lo, ls) && Apart(gone, extra, live, lo) && last < ls
    ensures Replay1(c, slots, last, (live - gone) + extra, op) == (Apply1(live, op) - gone) + extra
    ensures Apart(gone, extra, Apply1(live, op), LowOffset(op, lo))
  {
    hide Present;
  }

  lemma {:induction false} ManyMore(c: Codec, slots: Slots, mem: Cache, last: nat, live: Table, gone: set<Offset>, extra: Table,
                                    ops: seq<WalOp>, lo: nat, ls: nat)
    requires Chain(c, slots, mem, live, ops, lo, ls) && Apart(gone, extra, live, lo) && last < ls && lo <= mem.nextOffset
    ensures ReplayAll(c, slots, last, (live - gone) + extra, ops) == (ApplyAll(live, ops) - gone) + extra
    ensures Apart(gone, extra, ApplyAll(live, ops), mem.nextOffset)
    decreases |ops|
  {
    hide OpOk, Apart, Replay1, Apply1;
    if ops == [] {
      ApartLater(gone, extra, live, lo, mem.nextOffset);
    } else {
      OneMore(c, slots, mem, last, live, gone, extra, ops[0], lo, ls);
      LowKept(c, slots, mem, live, ops[0], lo, ls);
      ManyMore(c, slots, mem, last, Apply1(live, ops[0]), gone, extra, ops[1..], LowOffset(ops[0], lo), LowSeq(ops[0], ls));
    }
  }

  lemma {:induction false} PendingDeletes(c: Codec, slots: Slots, mem: Cache, last: nat, live: Table, gone: set<Offset>,
                                          extra: Table, ops: seq<WalOp>, lo: nat, ls: nat, op: WalOp)
    requires Chain(c, slots, mem, live, ops, lo, ls) && Apart(gone, extra, live, lo) && last < ls && lo <= mem.nextOffset
    requires op in ops && op.Delete?
    ensures op.offset !in extra
    decreases |ops|
  {
    hide Replay1, Apply1;
    if op != ops[0] {
      OneMore(c, slots, mem, last, live, gone, extra, ops[0], lo, ls);
      LowKept(c, slots, mem, live, ops[0], lo, ls);
      PendingDeletes(c, slots, mem, last, Apply1(live, ops[0]), gone, extra, ops[1..], LowOffset(ops[0], lo),
                     LowSeq(ops[0], ls), op);
    }
  }

  lemma {:induction false} LowKept(c: Codec, slots: Slots, mem: Cache, t: Table, op: WalOp, lo: nat, ls: nat)
    requires OpOk(c, slots, mem, t, op, lo, ls) && lo <= mem.nextOffset
    ensures LowOffset(op, lo) <= mem.nextOffset && ls <= LowSeq(op, ls)
  {
  }

  lemma {:induction false} ApartLater(gone: set<Offset>, extra: Table, live: Table, lo: nat, hi: nat)
    requires Apart(gone, extra, live, lo) && lo <= hi
    ensures Apart(gone, extra, live, hi)
  {
  }

  /** What the next open finds: the acknowledged records, less what strays removed, and what strays put. */
  lemma {:induction false} ReopenedIs(c: Codec, st: Store, k: nat)
    requires StoreInv(c, st) && k <= |st.sys.pending|
    ensures var s, last := st.sys, st.sys.disk.snap.last;
            && Reopened(c, st, k) == (ApplyAll(s.mem.records, s.pending[..k]) - Gone(st.log, last)) + Extra(st.log, last)
            && Apart(Gone(st.log, last), Extra(st.log, last), ApplyAll(s.mem.records, s.pending[..k]), s.mem.nextOffset)
  {
    hide ReplayAll, ApplyAll, Chain, Apart, Ops, Gone, Extra, Acknowledged, StraysOk;
    var s, last := st.sys, st.sys.disk.snap.last;
    ChainPrefix(c, s.disk.slots, s.mem, s.mem.records, s.pending, s.floorO, s.floorS, k);
    ReplayConcat(c, s.disk.slots, last, s.disk.snap.records, Ops(st.log), s.pending[..k]);
    ManyMore(c, s.disk.slots, s.mem, last, s.mem.records, Gone(st.log, last), Extra(st.log, last), s.pending[..k],
             s.floorO, s.floorS);
  }

  // ----- every step keeps it ------------------------------------------------------------------------

  lemma {:induction false} EmptyOk(c: Codec)
    ensures StoreInv(c, Store(EmptyStore, []))
  {
    InvEmpty(c);
  }

  lemma {:induction false} CommitOk(c: Codec, st: Store)
    requires StoreInv(c, st) && Can(c, st, Do(Commit))
    ensures StoreInv(c, After(c, st, Do(Commit)))
  {
    hide ReplayAll, ApplyAll, Chain, Apart, Ops, Gone, Extra, Acknowledged, Inv, Present, Touched;
    var s, last := st.sys, st.sys.disk.snap.last;
    StepKeeps(c, s, Commit);
    Counters(c, s);
    assert s.pending[..|s.pending|] == s.pending;
    ReopenedIs(c, st, |s.pending|);
    Appended(st.log, s.pending, last);
    InvChain(c, s);
    forall op | op in s.pending && op.Delete?
      ensures op.offset !in Extra(st.log, last)
    {
      PendingDeletes(c, s.disk.slots, s.mem, last, s.mem.records, Gone(st.log, last), Extra(st.log, last), s.pending,
                     s.floorO, s.floorS, op);
    }
  }

  lemma {:induction false} Counters(c: Codec, s: Sys)
    requires Inv(c, s)
    ensures s.floorO <= s.mem.nextOffset && s.floorS <= s.mem.nextSeq && s.disk.snap.last < s.floorS
  {
  }

  lemma {:induction false} PutOk(c: Codec, st: Store, o: Offset, v: seq<Byte>)
    requires StoreInv(c, st) && Can(c, st, Do(Put(o, v)))
    ensures StoreInv(c, After(c, st, Do(Put(o, v))))
  {
    hide ReplayAll, ApplyAll, Chain, Apart, Ops, Gone, Extra, Acknowledged;
    var s := st.sys;
    var r := Next(c, s, Put(o, v));
    PutKeeps(c, s, o, v);
    forall op | op in Ops(st.log) && Newer(op, s.disk.snap.last)
      ensures Present(c, s.disk.slots, op) == Present(c, r.disk.slots, op)
    {
      OpsAreLogged(st.log, op);
      var e :| e in st.log && e.op == op;
      if e.fate.Done? {
        AckedAreLogged(st.log, e);
      }
      assert op.offset < o;
    }
    ReplaySlots(c, s.disk.slots, r.disk.slots, s.disk.snap.last, s.disk.snap.records, Ops(st.log));
  }

  /** A log the snapshot covers replays as the stray deletions in it. */
  lemma {:induction false} CoveredLog(c: Codec, slots: Slots, last: nat, t: Table, log: seq<Entry>)
    requires forall e :: e in log && Puts(e.op) ==> e.op.number <= last
    requires forall e :: e in log && e.fate.Done? && e.op.Delete? ==> e.op.offset !in t
    ensures Extra(log, last) == map[] && ReplayAll(c, slots, last, t, Ops(log)) == t - Gone(log, last)
  {
    if log == [] {
      assert t - {} == t;
    } else {
      hide ReplayAll, Ops, Gone, Extra;
      var front, e := log[..|log| - 1], log[|log| - 1];
      assert log == front + [e];
      CoveredLog(c, slots, last, t, front);
      Snoc(front, e, last);
      ReplayConcat(c, slots, last, t, Ops(front), [e.op]);
      OneFrame(c, slots, last, t - Gone(front, last), e.op);
    }
  }

  lemma {:induction false} OneFrame(c: Codec, slots: Slots, last: nat, t: Table, op: WalOp)
    ensures ReplayAll(c, slots, last, t, [op]) == Replay1(c, slots, last, t, op)
  {
    assert [op][1..] == [];
  }

  lemma {:induction false} SaveOk(c: Codec, st: Store, upTo: nat)
    requires StoreInv(c, st) && Can(c, st, Do(Save(upTo)))
    ensures StoreInv(c, After(c, st, Do(Save(upTo))))
  {
    hide ReplayAll, ApplyAll, Chain, Ops, Gone, Extra, Acknowledged, Merged, Present;
    var s := st.sys;
    var r := Next(c, s, Save(upTo));
    SaveKeeps(c, s, upTo);
    if !NothingToSave(s, upTo) {
      forall e | e in st.log && e.fate.Done? && e.op.Delete?
        ensures e.op.offset !in s.mem.records
      {
        AckedAreLogged(st.log, e);
      }
      CoveredLog(c, s.disk.slots, upTo, s.mem.records, st.log);
      GoneBelow(c, st, upTo);
      NothingExtra(s.mem.records - Gone(st.log, upTo));
    }
  }

  lemma {:induction false} NothingExtra(t: Table)
    ensures t + map[] == t
  {
  }

  /** What strays remove once nothing they put counts: offsets already used. */
  lemma {:induction false} GoneBelow(c: Codec, st: Store, last: nat)
    requires StraysOk(c, st) && forall e :: e in st.log && Puts(e.op) ==> e.op.number <= last
    ensures forall o :: o in Gone(st.log, last) ==> o < st.sys.floorO
  {
    hide Present;
    forall o | o in Gone(st.log, last)
      ensures o < st.sys.floorO
    {
      StrayDeletes(st.log, last, o);
    }
  }

  lemma {:induction false} StrayDeletes(log: seq<Entry>, last: nat, o: Offset)
    requires o in Gone(log, last) && forall e :: e in log && Puts(e.op) ==> e.op.number <= last
    ensures exists e :: e in log && !e.fate.Done? && e.op.Delete? && e.op.offset == o
  {
    var front, e := log[..|log| - 1], log[|log| - 1];
    assert log == front + [e];
    if o in Gone(front, last) {
      StrayDeletes(front, last, o);
      var f :| f in front && !f.fate.Done? && f.op.Delete? && f.op.offset == o;
      assert f in log;
    } else {
      assert e in log;
    }
  }

  /** A frame found after a kill: where its vector is, and that what it deletes is gone. */
  lemma {:induction false} FoundFrame(c: Codec, st: Store, k: nat, op: WalOp)
    requires StoreInv(c, st) && k <= |st.sys.pending| && op in OnDisk(st, k).log
    ensures !op.Flush? && (Puts(op) ==> op.number >= 1)
    ensures Newer(op, st.sys.disk.snap.last) ==> Present(c, st.sys.disk.slots, op)
    ensures op.Delete? ==> op.offset !in Reopened(c, st, k)
  {
    hide ReplayAll, ApplyAll, Chain, Ops, Gone, Extra, Acknowledged, Reopened, Present;
    var s := st.sys;
    ReopenedIs(c, st, k);
    ChainPrefix(c, s.disk.slots, s.mem, s.mem.records, s.pending, s.floorO, s.floorS, k);
    if op in s.pending[..k] {
      ChainOps(c, s.disk.slots, s.mem, s.mem.records, s.pending[..k], s.floorO, s.floorS, op);
      if op.Delete? {
        ChainDeletes(c, s.disk.slots, s.mem, s.mem.records, s.pending[..k], s.floorO, s.floorS, op);
        PendingDeletes(c, s.disk.slots, s.mem, s.disk.snap.last, s.mem.records, Gone(st.log, s.disk.snap.last),
                       Extra(st.log, s.disk.snap.last), s.pending[..k], s.floorO, s.floorS, op);
      }
    } else {
      OpsAreLogged(st.log, op);
      var e :| e in st.log && e.op == op;
      if e.fate.Done? {
        AckedAreLogged(st.log, e);
        if op.Delete? {
          StaysDead(c, s, k, op.offset);
        }
      } else {
        StrayShows(st.log, s.disk.snap.last, e);
      }
    }
  }

  lemma {:induction false} StaysDead(c: Codec, s: Sys, k: nat, o: Offset)
    requires Inv(c, s) && k <= |s.pending| && o !in s.mem.records && (!s.recovering ==> o < s.floorO)
    ensures o !in ApplyAll(s.mem.records, s.pending[..k])
  {
    hide ReplayAll, Chain;
    if s.pending == [] {
      assert s.pending[..k] == [];
    } else {
      ChainPrefix(c, s.disk.slots, s.mem, s.mem.records, s.pending, s.floorO, s.floorS, k);
      ChainDead(c, s.disk.slots, s.mem, s.mem.records, s.pending[..k], s.floorO, s.floorS, o);
    }
  }

  lemma {:induction false} RestartLog(c: Codec, st: Store, k: nat, h: seq<WalOp>)
    requires StoreInv(c, st) && Can(c, st, Restart(k, h))
    ensures LogOk(c, After(c, st, Restart(k, h)).sys)
  {
    hide StoreInv, Ops, ReplayAll, ApplyAll, Touched, MaxOffset, MaxSeq, RecoveredCount, Present, IdsUnique;
    var r := After(c, st, Restart(k, h)).sys;
    LastBelow(c, st);
    forall op | op in r.disk.log
      ensures Puts(op) ==> 1 <= op.number < r.floorS
      ensures Newer(op, r.disk.snap.last) ==> op.offset < r.floorO && Present(c, r.disk.slots, op)
      ensures op.Delete? ==> op.offset !in r.mem.records && (!r.recovering ==> op.offset < r.floorO)
      ensures !op.Flush?
    {
      FoundFrame(c, st, k, op);
    }
  }

  lemma {:induction false} LastBelow(c: Codec, st: Store)
    requires StoreInv(c, st)
    ensures var d := st.sys.disk; d.snap.last < d.snap.nextSeq && d.count <= st.sys.mem.count
    ensures forall o :: o in st.sys.disk.snap.records ==> o < st.sys.disk.snap.nextOffset && o < st.sys.disk.count
    ensures !st.sys.disk.snap.written ==> st.sys.disk.snap.records == map[] && st.sys.disk.snap.last == 0
  {
  }

  lemma {:induction false} RestartCounters(c: Codec, st: Store, k: nat, h: seq<WalOp>)
    requires StoreInv(c, st) && Can(c, st, Restart(k, h))
    ensures CountersOk(After(c, st, Restart(k, h)).sys)
  {
    hide StoreInv, Ops, ReplayAll, ApplyAll, Touched, MaxOffset, MaxSeq, RecoveredCount, Present, IdsUnique;
    var r := After(c, st, Restart(k, h)).sys;
    var d := r.disk;
    LastBelow(c, st);
    forall o | o in r.mem.records
      ensures o < r.floorO && o < r.mem.count
    {
      ReplaySource(c, d.slots, d.snap.last, d.snap.records, d.log, o);
      if o !in d.snap.records {
        var op :| op in d.log && Newer(op, d.snap.last) && Present(c, d.slots, op) && op.offset == o;
        assert Replays(op, d.snap.last);
      }
    }
  }

  lemma {:induction false} RestartOk(c: Codec, st: Store, k: nat, h: seq<WalOp>)
    requires StoreInv(c, st) && Can(c, st, Restart(k, h))
    ensures StoreInv(c, After(c, st, Restart(k, h)))
  {
    hide Ops, Gone, Extra, Acknowledged, ReplayAll, ApplyAll, Touched, MaxOffset, MaxSeq, RecoveredCount, Present, IdsUnique,
         LogOk, CountersOk, Chain, StraysOk;
    var r := After(c, st, Restart(k, h));
    var d := r.sys.disk;
    RestartLog(c, st, k, h);
    RestartCounters(c, st, k, h);
    LastBelow(c, st);
    EmptyChain(c, r.sys);
    forall o | o !in r.sys.mem.dirty
      ensures Agree(d.snap.records, r.sys.mem.records, o)
    {
      ReplayTouchesOnly(c, d.slots, d.snap.last, d.snap.records, d.log, o);
    }
    AllFound(d.log, d.snap.last);
    NothingStray(r.sys.mem.records, r.sys.floorO);
    assert StraysOk(c, r) by { NoStrays(c, r); }
  }

  lemma {:induction false} NoStrays(c: Codec, st: Store)
    requires forall e :: e in st.log ==> e.fate.Done?
    ensures StraysOk(c, st)
  {
  }

  lemma {:induction false} AllFound(ops: seq<WalOp>, last: nat)
    ensures var log := Entries(ops);
            && Ops(log) == ops == Acknowledged(log) && Gone(log, last) == {} && Extra(log, last) == map[]
  {
    hide Ops, Gone, Extra, Acknowledged;
    NoneLogged(last);
    Appended([], ops, last);
    assert [] + Entries(ops) == Entries(ops) && [] + ops == ops;
  }

  lemma {:induction false} NoneLogged(last: nat)
    ensures Ops([]) == [] == Acknowledged([]) && Gone([], last) == {} && Extra([], last) == map[]
  {
  }

  /** The next open is a step of the machine exactly when it accepts the disk and finds no id twice. */
  lemma {:induction false} RestartsIff(c: Codec, st: Store, k: nat)
    requires StoreInv(c, st) && k <= |st.sys.pending|
    ensures (exists h :: Can(c, st, Restart(k, h))) <==> OpenCheck(c, OnDisk(st, k)).Ok? && IdsUnique(Reopened(c, st, k))
  {
    hide StoreInv, OpenCheck, IdsUnique, Reopened;
    if OpenCheck(c, OnDisk(st, k)).Ok? && IdsUnique(Reopened(c, st, k)) {
      var h;
      if st.sys.disk.snap.written {
        h := SomeHistory(Reopened(c, st, k));
      } else {
        h := OnDisk(st, k).log;
        FreshHistory(c, st, k);
      }
      assert Can(c, st, Restart(k, h));
    }
  }

  lemma {:induction false} FreshHistory(c: Codec, st: Store, k: nat)
    requires StoreInv(c, st) && k <= |st.sys.pending| && !st.sys.disk.snap.written
    ensures ApplyAll(map[], OnDisk(st, k).log) == Reopened(c, st, k)
  {
    hide StoreInv, Ops, ReplayAll, ApplyAll, Present;
    var d := OnDisk(st, k);
    LastBelow(c, st);
    forall op | op in d.log && Puts(op)
      ensures op.number > 0 && Present(c, d.slots, op)
    {
      FoundFrame(c, st, k, op);
    }
    ReplayIsApply(c, d.slots, 0, map[], d.log);
  }

  /** Every table is what some operations lead to. */
  lemma {:induction false} SomeHistory(t: Table) returns (h: seq<WalOp>)
    ensures ApplyAll(map[], h) == t
    decreases |t|
  {
    if t == map[] {
      h := [];
    } else {
      var o :| o in t;
      var op := Insert(o, 0, t[o], None);
      var front := SomeHistory(t - {o});
      h := front + [op];
      ApplyConcat(map[], front, [op]);
      AppliedOnce(t - {o}, op);
      assert (t - {o})[o := t[o]] == t;
    }
  }

  lemma {:induction false} NothingStray(t: Table, lo: nat)
    ensures Apart({}, map[], t, lo) && (t - {}) + map[] == t
  {
  }

  lemma {:induction false} FailOk(c: Codec, st: Store, op: WalOp)
    requires StoreInv(c, st) && Can(c, st, Fail(op))
    ensures StoreInv(c, After(c, st, Fail(op)))
  {
    hide ReplayAll, ApplyAll, Ops, Gone, Extra, Acknowledged, Chain, Apart, Present;
    var s, last := st.sys, st.sys.disk.snap.last;
    var r := After(c, st, Fail(op)).sys;
    EmptyChain(c, r);
    FailApart(c, st, op, Undone);
    Snoc(st.log, Entry(op, Undone), last);
    ReplayConcat(c, s.disk.slots, last, s.disk.snap.records, Ops(st.log), [op]);
    OneFrame(c, s.disk.slots, last, (s.mem.records - Gone(st.log, last)) + Extra(st.log, last), op);
    OneStray(c, s.disk.slots, s.mem, last, s.mem.records, Gone(st.log, last), Extra(st.log, last), op, s.floorO, s.floorS);
  }

  lemma {:induction false} FailApart(c: Codec, st: Store, op: WalOp, fate: Fate)
    requires StoreInv(c, st) && Can(c, st, Fail(op)) && !fate.Done?
    ensures var log := st.log + [Entry(op, fate)]; DeadApart(log, Extra(log, st.sys.disk.snap.last))
  {
    hide ReplayAll, ApplyAll, Ops, Gone, Extra, Acknowledged, Chain, Present;
    var s, last := st.sys, st.sys.disk.snap.last;
    Snoc(st.log, Entry(op, fate), last);
    forall e | e in st.log && e.op.Delete?
      ensures e.op.offset < s.floorO
    {
      if e.fate.Done? {
        AckedAreLogged(st.log, e);
      }
    }
  }

  lemma {:induction false} HalfOk(c: Codec, st: Store, op: WalOp)
    requires StoreInv(c, st) && Can(c, st, FailHalf(op))
    ensures StoreInv(c, After(c, st, FailHalf(op)))
  {
    hide ReplayAll, ApplyAll, Ops, Gone, Extra, Acknowledged, Chain, Apart, Present, Touched, Inv;
    var s, last := st.sys, st.sys.disk.snap.last;
    var live, gone, extra := s.mem.records, Gone(st.log, last), Extra(st.log, last);
    RemovedIs(c, s, op.from);
    Counters(c, s);
    FailApart(c, st, op, Half);
    Snoc(st.log, Entry(op, Half), last);
    ReplayConcat(c, s.disk.slots, last, s.disk.snap.records, Ops(st.log), [op]);
    OneFrame(c, s.disk.slots, last, (live - gone) + extra, op);
    HalfStray(c, s.disk.slots, s.mem, last, live, gone, extra, op, s.floorO, s.floorS);
  }

  lemma {:induction false} RemovedIs(c: Codec, s: Sys, o: Offset)
    requires Inv(c, s) && !s.recovering && s.pending == [] && o in s.mem.records
    ensures var r := Removed(c, s, o);
            && Inv(c, r) && r.mem.records == s.mem.records - {o} && r.disk.log == s.disk.log + [Delete(o)]
            && r.disk.snap == s.disk.snap && r.disk.slots == s.disk.slots && r.journal == s.journal + [Delete(o)]
            && r.pending == [] && !r.recovering && r.mem.nextOffset == s.mem.nextOffset && r.mem.nextSeq == s.mem.nextSeq
            && r.floorO == s.mem.nextOffset && r.floorS == s.mem.nextSeq
            && forall a :: a in s.mem.records ==> a < s.floorO
  {
    hide ReplayAll, Chain, Touched;
    ChainOfOne(c, s.disk.slots, s.mem, s.mem.records, Delete(o), s.floorO, s.floorS);
    StepKeeps(c, s, Append([Delete(o)]));
    StepKeeps(c, Next(c, s, Append([Delete(o)])), Commit);
    AppliedOnce(s.mem.records, Delete(o));
  }

  lemma {:induction false} HalfStray(c: Codec, slots: Slots, mem: Cache, last: nat, live: Table, gone: set<Offset>, extra: Table,
                                     op: WalOp, lo: nat, ls: nat)
    requires OpOk(c, slots, mem, live, op, lo, ls) && op.Replace? && Apart(gone, extra, live, lo) && last < ls
    requires lo <= mem.nextOffset && forall o :: o in live ==> o < lo
    ensures var g, x := gone + {op.from}, extra[op.offset := op.meta];
            && Replay1(c, slots, last, (live - gone) + extra, op) == ((live - {op.from}) - g) + x
            && Apart(g, x, live - {op.from}, mem.nextOffset)
  {
    hide Present;
  }

  lemma {:induction false} OneStray(c: Codec, slots: Slots, mem: Cache, last: nat, live: Table, gone: set<Offset>, extra: Table,
                                    op: WalOp, lo: nat, ls: nat)
    requires OpOk(c, slots, mem, live, op, lo, ls) && Apart(gone, extra, live, lo) && last < ls && lo <= mem.nextOffset
    requires forall o :: o in live ==> o < lo
    ensures var g := gone + (if op.Delete? then {op.offset} else if op.Replace? then {op.from} else {});
            var x := if Puts(op) then extra[op.offset := op.meta] else extra;
            && Replay1(c, slots, last, (live - gone) + extra, op) == (live - g) + x
            && Apart(g, x, live, LowOffset(op, lo))
  {
    hide Present;
  }

  /** Every step of the machine, failing writes included. */
  lemma {:induction false} StepOk(c: Codec, st: Store, x: Step)
    requires StoreInv(c, st) && Can(c, st, x)
    ensures StoreInv(c, After(c, st, x))
  {
    match x
    case Fail(op) => FailOk(c, st, op);
    case FailHalf(op) => HalfOk(c, st, op);
    case Restart(k, h) => RestartOk(c, st, k, h);
    case Do(e) =>
      match e
      case Commit => CommitOk(c, st);
      case Put(o, v) => PutOk(c, st, o, v);
      case Save(upTo) => SaveOk(c, st, upTo);
      case Clear => ClearOk(c, st);
      case _ => QuietOk(c, st, e);
  }

  lemma {:induction false} ClearOk(c: Codec, st: Store)
    requires StoreInv(c, st) && Can(c, st, Do(Clear))
    ensures StoreInv(c, After(c, st, Do(Clear)))
  {
    hide Inv;
    StepKeeps(c, st.sys, Clear);
    NothingStray(st.sys.mem.records, st.sys.floorO);
  }

  lemma {:induction false} QuietOk(c: Codec, st: Store, e: Event)
    requires StoreInv(c, st) && Can(c, st, Do(e)) && (e.Reserve? || e.Append? || e.Stamp?)
    ensures StoreInv(c, After(c, st, Do(e)))
  {
    hide Inv, Ops, Gone, Extra, Acknowledged, ReplayAll, Chain;
    StepKeeps(c, st.sys, e);
  }

  ghost predicate StoreRun(c: Codec, st: Store, xs: seq<Step>, end: Store)
    decreases |xs|
  {
    if xs == [] then st == end else Can(c, st, xs[0]) && StoreRun(c, After(c, st, xs[0]), xs[1..], end)
  }

  // ----- what a reopened store holds ----------------------------------------------------------------

  /** Every stray is a deletion of something gone anyway, or covered by the snapshot. */
  ghost predicate Harmless(log: seq<Entry>, last: nat, live: Table)
  {
    forall e :: e in log && !e.fate.Done? ==> if e.op.Delete? then e.op.offset !in live else !Newer(e.op, last)
  }

  /**
    Over every run, with writes failing after their frame was logged wherever they like, and
    restarts: killed anywhere, the reopened store is the live one with the surviving part of
    the write in flight, if and only if every stray is harmless.
   */
  lemma {:induction false} ReopensAsAcknowledgedIff(c: Codec, xs: seq<Step>, st: Store, k: nat)
    requires StoreRun(c, Store(EmptyStore, []), xs, st) && k <= |st.sys.pending|
    ensures var live := ApplyAll(st.sys.mem.records, st.sys.pending[..k]);
            Reopened(c, st, k) == live <==> Harmless(st.log, st.sys.disk.snap.last, live)
  {
    hide StoreInv, Reopened, Harmless, ApplyAll, StoreRun;
    EmptyOk(c);
    RunOk(c, Store(EmptyStore, []), xs, st);
    ReopenedIff(c, st, k);
  }

  lemma {:induction false} ReopenedIff(c: Codec, st: Store, k: nat)
    requires StoreInv(c, st) && k <= |st.sys.pending|
    ensures var live := ApplyAll(st.sys.mem.records, st.sys.pending[..k]);
            Reopened(c, st, k) == live <==> Harmless(st.log, st.sys.disk.snap.last, live)
  {
    hide StoreInv, Reopened, Apart, Gone, Extra, Harmless, ApplyAll;
    ReopenedIs(c, st, k);
    HarmlessIff(st.log, st.sys.disk.snap.last, ApplyAll(st.sys.mem.records, st.sys.pending[..k]), st.sys.mem.nextOffset);
  }

  lemma {:induction false} RunOk(c: Codec, st: Store, xs: seq<Step>, end: Store)
    requires StoreInv(c, st) && StoreRun(c, st, xs, end)
    ensures StoreInv(c, end)
    decreases |xs|
  {
    hide StoreInv, Can, After;
    if xs != [] {
      StepOk(c, st, xs[0]);
      RunOk(c, After(c, st, xs[0]), xs[1..], end);
    }
  }

  lemma {:induction false} HarmlessIff(log: seq<Entry>, last: nat, live: Table, lo: nat)
    requires Apart(Gone(log, last), Extra(log, last), live, lo)
    ensures (live - Gone(log, last)) + Extra(log, last) == live <==> Harmless(log, last, live)
  {
    hide Gone, Extra;
    var gone, extra := Gone(log, last), Extra(log, last);
    var found := (live - gone) + extra;
    if Harmless(log, last, live) {
      HarmlessIs(log, last, live);
      assert found == live;
    } else {
      var e :| e in log && !e.fate.Done? && !(if e.op.Delete? then e.op.offset !in live else !Newer(e.op, last));
      StrayShows(log, last, e);
      assert (e.op.offset in live) != (e.op.offset in found);
    }
  }

  lemma {:induction false} HarmlessIs(log: seq<Entry>, last: nat, live: Table)
    requires Harmless(log, last, live)
    ensures Extra(log, last) == map[] && forall o :: o in Gone(log, last) ==> o !in live
  {
    if log != [] {
      var front, e := log[..|log| - 1], log[|log| - 1];
      assert log == front + [e];
      HarmlessIs(front, last, live);
    }
  }

  lemma {:induction false} StrayShows(log: seq<Entry>, last: nat, e: Entry)
    requires e in log && !e.fate.Done?
    ensures e.op.Delete? ==> e.op.offset in Gone(log, last)
    ensures Newer(e.op, last) ==> e.op.offset in Extra(log, last)
  {
    var front, l := log[..|log| - 1], log[|log| - 1];
    assert log == front + [l];
    if e in front {
      StrayShows(front, last, e);
    }
  }

  // ----- two runs ---------------------------------------------------------------------------------------

  lemma {:induction false} RunSnoc(c: Codec, st: Store, xs: seq<Step>, mid: Store, x: Step)
    requires StoreRun(c, st, xs, mid) && Can(c, mid, x)
    ensures StoreRun(c, st, xs + [x], After(c, mid, x))
    decreases |xs|
  {
    hide Can, After;
    if xs == [] {
      assert (xs + [x])[1..] == [];
      assert StoreRun(c, After(c, mid, x), [], After(c, mid, x));
    } else {
      RunSnoc(c, After(c, st, xs[0]), xs[1..], mid, x);
      assert (xs + [x])[1..] == xs[1..] + [x];
    }
  }

  /** A run from the empty store so far. */
  ghost predicate Reached(c: Codec, xs: seq<Step>, st: Store)
  {
    StoreRun(c, Store(EmptyStore, []), xs, st) && StoreInv(c, st)
  }

  lemma {:induction false} OneStep(c: Codec, xs: seq<Step>, mid: Store, x: Step) returns (ys: seq<Step>, st: Store)
    requires Reached(c, xs, mid) && Can(c, mid, x)
    ensures Reached(c, ys, st) && ys == xs + [x] && st == After(c, mid, x)
  {
    hide Can, After, StoreInv, StoreRun;
    ys, st := xs + [x], After(c, mid, x);
    RunSnoc(c, Store(EmptyStore, []), xs, mid, x);
    StepOk(c, mid, x);
  }

  /** Idle, with nothing flushed yet. */
  ghost predicate Unflushed(st: Store)
  {
    && st.sys.pending == [] && !st.sys.recovering && st.sys.disk.snap.last == 0
    && st.sys.floorO == st.sys.mem.nextOffset && st.sys.floorS == st.sys.mem.nextSeq
  }

  /** The next number and a stored vector, up to the log append. */
  lemma {:induction false} Prepared(c: Codec, xs: seq<Step>, mid: Store, v: seq<Byte>) returns (ys: seq<Step>, st: Store)
    requires Reached(c, xs, mid) && Unflushed(mid)
    ensures Reached(c, ys, st) && st.log == mid.log && st.sys.mem.records == mid.sys.mem.records
    ensures st.sys.pending == [] && !st.sys.recovering && st.sys.disk.snap.last == 0
    ensures st.sys.floorO == mid.sys.floorO && st.sys.floorS == mid.sys.floorS
    ensures st.sys.mem.nextOffset == mid.sys.mem.nextOffset + 1 && st.sys.mem.nextSeq == mid.sys.mem.nextSeq + 1
    ensures var o := mid.sys.mem.nextOffset; o in st.sys.disk.slots && st.sys.disk.slots[o] == v && st.sys.mem.count > o
  {
    hide Reached;
    ys, st := OneStep(c, xs, mid, Do(Reserve));
    ys, st := OneStep(c, ys, st, Do(Put(mid.sys.mem.nextOffset, v)));
  }

  /** An acknowledged write of one operation. */
  lemma {:induction false} Written(c: Codec, xs: seq<Step>, mid: Store, op: WalOp) returns (ys: seq<Step>, st: Store)
    requires Reached(c, xs, mid) && mid.sys.pending == [] && !mid.sys.recovering && mid.sys.disk.snap.last == 0
    requires OpOk(c, mid.sys.disk.slots, mid.sys.mem, mid.sys.mem.records, op, mid.sys.floorO, mid.sys.floorS)
    ensures Reached(c, ys, st) && Unflushed(st) && st.log == mid.log + [Entry(op, Done)]
    ensures st.sys.mem.records == Apply1(mid.sys.mem.records, op)
    ensures st.sys.mem.nextOffset == mid.sys.mem.nextOffset && st.sys.mem.nextSeq == mid.sys.mem.nextSeq
  {
    hide Reached, OpOk, Touched, Apply1;
    ChainOfOne(c, mid.sys.disk.slots, mid.sys.mem, mid.sys.mem.records, op, mid.sys.floorO, mid.sys.floorS);
    ys, st := OneStep(c, xs, mid, Do(Append([op])));
    ys, st := OneStep(c, ys, st, Do(Commit));
    AppliedOnce(mid.sys.mem.records, op);
    assert Entries([op]) == [Entry(op, Done)];
  }

  /**
    A write whose frame was logged but whose sync failed, then retried: the live store has
    one record, the reopened one has two under one id, with no vector missing.
   */
  lemma {:induction false} FailedSyncCanDuplicate(c: Codec, m: Meta, n: Meta, v: seq<Byte>) returns (xs: seq<Step>, st: Store)
    requires m.id == n.id && m.insertSeq == 1 && n.insertSeq == 2
    ensures StoreRun(c, Store(EmptyStore, []), xs, st) && st.sys.pending == [] && st.sys.mem.records == map[1 := n]
    ensures var r := Reopened(c, st, 0); r == map[0 := m, 1 := n] && !IdsUnique(r)
  {
    hide Reopened, StoreInv, Gone, Extra, StoreRun;
    var a, b := Insert(0, 1, m, Some(c.crc(v))), Insert(1, 2, n, Some(c.crc(v)));
    EmptyOk(c);
    assert StoreRun(c, Store(EmptyStore, []), [], Store(EmptyStore, [])) by { NoSteps(c); }
    xs, st := Prepared(c, [], Store(EmptyStore, []), v);
    xs, st := OneStep(c, xs, st, Fail(a));
    xs, st := Prepared(c, xs, st, v);
    xs, st := Written(c, xs, st, b);
    assert st.log == [Entry(a, Undone), Entry(b, Done)];
    StrayThen(a, b);
    FoundAfter(c, st);
    var r: Table := map[0 := m, 1 := n];
    assert Reopened(c, st, 0) == r;
    assert 0 in r && 1 in r && r[0].id == r[1].id;
  }

  /** An update that failed after it was logged, then a deletion that succeeded: the update is live when the store is reopened. */
  lemma {:induction false} FailedUpdateOutlivesDelete(c: Codec, m: Meta, n: Meta, v: seq<Byte>) returns (xs: seq<Step>, st: Store)
    requires m.id == n.id && m.insertSeq == 1 && n.insertSeq == 2
    ensures StoreRun(c, Store(EmptyStore, []), xs, st) && st.sys.pending == [] && st.sys.mem.records == map[]
    ensures Reopened(c, st, 0) == map[1 := n]
  {
    hide Reopened, StoreInv, Gone, Extra, StoreRun;
    var a, b := Insert(0, 1, m, Some(c.crc(v))), Replace(0, 1, 2, n, c.crc(v));
    EmptyOk(c);
    assert StoreRun(c, Store(EmptyStore, []), [], Store(EmptyStore, [])) by { NoSteps(c); }
    xs, st := Prepared(c, [], Store(EmptyStore, []), v);
    xs, st := Written(c, xs, st, a);
    xs, st := Prepared(c, xs, st, v);
    xs, st := OneStep(c, xs, st, Fail(b));
    xs, st := Written(c, xs, st, Delete(0));
    assert st.log == [Entry(a, Done), Entry(b, Undone), Entry(Delete(0), Done)];
    StrayBetween(a, b, Delete(0));
    FoundAfter(c, st);
  }

  /** An update that fails half way: the memory is gone while the process lives, its new version is there after a restart. */
  lemma {:induction false} HalfUpdateComesBack(c: Codec, m: Meta, n: Meta, v: seq<Byte>) returns (xs: seq<Step>, st: Store)
    requires m.id == n.id && m.insertSeq == 1 && n.insertSeq == 2
    ensures StoreRun(c, Store(EmptyStore, []), xs, st) && st.sys.pending == [] && st.sys.mem.records == map[]
    ensures Reopened(c, st, 0) == map[1 := n]
  {
    hide Reopened, StoreInv, Gone, Extra, StoreRun, Removed;
    var a, b := Insert(0, 1, m, Some(c.crc(v))), Replace(0, 1, 2, n, c.crc(v));
    EmptyOk(c);
    assert StoreRun(c, Store(EmptyStore, []), [], Store(EmptyStore, [])) by { NoSteps(c); }
    xs, st := Prepared(c, [], Store(EmptyStore, []), v);
    xs, st := Written(c, xs, st, a);
    xs, st := Prepared(c, xs, st, v);
    StoreHasInv(c, st);
    RemovedIs(c, st.sys, 0);
    xs, st := OneStep(c, xs, st, FailHalf(b));
    assert st.log == [Entry(a, Done), Entry(b, Half)];
    HalfThen(a, b);
    FoundAfter(c, st);
  }

  lemma {:induction false} StoreHasInv(c: Codec, st: Store)
    requires StoreInv(c, st)
    ensures Inv(c, st.sys)
  {
  }

  lemma {:induction false} HalfThen(a: WalOp, b: WalOp)
    requires b.Replace? && b.number > 0
    ensures var log := [Entry(a, Done), Entry(b, Half)]; Gone(log, 0) == {b.from} && Extra(log, 0) == map[b.offset := b.meta]
  {
    hide Gone, Extra, Ops, Acknowledged;
    NoneLogged(0);
    Snoc([], Entry(a, Done), 0);
    Snoc([] + [Entry(a, Done)], Entry(b, Half), 0);
    assert [] + [Entry(a, Done)] + [Entry(b, Half)] == [Entry(a, Done), Entry(b, Half)];
  }

  lemma {:induction false} NoSteps(c: Codec)
    ensures StoreRun(c, Store(EmptyStore, []), [], Store(EmptyStore, []))
  {
  }

  lemma {:induction false} FoundAfter(c: Codec, st: Store)
    requires StoreInv(c, st) && st.sys.pending == []
    ensures Reopened(c, st, 0)
            == (st.sys.mem.records - Gone(st.log, st.sys.disk.snap.last)) + Extra(st.log, st.sys.disk.snap.last)
  {
    hide StoreInv, Reopened, Gone, Extra;
    ReopenedIs(c, st, 0);
  }

  lemma {:induction false} StrayThen(a: WalOp, b: WalOp)
    requires a.Insert? && a.number > 0
    ensures var log := [Entry(a, Undone), Entry(b, Done)]; Gone(log, 0) == {} && Extra(log, 0) == map[a.offset := a.meta]
  {
    hide Gone, Extra, Ops, Acknowledged;
    NoneLogged(0);
    Snoc([], Entry(a, Undone), 0);
    Snoc([] + [Entry(a, Undone)], Entry(b, Done), 0);
    assert [] + [Entry(a, Undone)] + [Entry(b, Done)] == [Entry(a, Undone), Entry(b, Done)];
  }

  lemma {:induction false} StrayBetween(a: WalOp, b: WalOp, d: WalOp)
    requires b.Replace? && b.number > 0
    ensures var log := [Entry(a, Done), Entry(b, Undone), Entry(d, Done)];
            Gone(log, 0) == {b.from} && Extra(log, 0) == map[b.offset := b.meta]
  {
    hide Gone, Extra, Ops, Acknowledged;
    NoneLogged(0);
    Snoc([], Entry(a, Done), 0);
    Snoc([] + [Entry(a, Done)], Entry(b, Undone), 0);
    Snoc([] + [Entry(a, Done)] + [Entry(b, Undone)], Entry(d, Done), 0);
    assert [] + [Entry(a, Done)] + [Entry(b, Undone)] + [Entry(d, Done)] == [Entry(a, Done), Entry(b, Undone), Entry(d, Done)];
  }

}
