/**
  Every log the engine can reach is one the power-loss results speak about: frames the
  snapshot covers, then the operations of a run since
  (crates/turbomemory_storage/src/engine/mod.rs `open`, `flush`).
 */
module LoggedRuns {
  import opened Records
  import opened Wal
  import opened Recovery
  import opened Engine
  import opened CrashSafety
  import opened PowerLoss
  import opened LostVectors

  /**
    The log of `s` is `k` covered operations followed by those since, which lead to the live
    records; the history is `h`, which the snapshot holds, followed by those since.
   */
  ghost predicate LogShape(s: Sys, k: nat, h: seq<WalOp>)
  {
    var snap := s.disk.snap;
    && LogAfter(snap.records, s.disk.log, k, snap.nextOffset, snap.last)
    && ApplyAll(snap.records, s.disk.log[k..]) == s.mem.records
    && snap.nextOffset <= s.floorO
    && s.journal == h + s.disk.log[k..] && ApplyAll(map[], h) == snap.records
  }

  ghost predicate Shaped(s: Sys)
  {
    exists k: nat, h :: LogShape(s, k, h)
  }

  // ----- growing a log ------------------------------------------------------------------------

  lemma {:induction false} LoggedConcat(t: Table, a: seq<WalOp>, b: seq<WalOp>, lo: nat, last: nat)
    requires WellLogged(t, a, lo, last) && WellLogged(ApplyAll(t, a), b, LowAt(a, lo, |a|), last)
    ensures WellLogged(t, a + b, lo, last)
    decreases |a|
  {
    hide Apply1, LowOffset, WellLogged1;
    if a == [] {
      assert a + b == b;
    } else {
      LowFront(a, lo, |a|);
      LoggedConcat(Apply1(t, a[0]), a[1..], b, LowOffset(a[0], lo), last);
      assert (a + b)[1..] == a[1..] + b;
    }
  }

  lemma {:induction false} LoggedLower(t: Table, ops: seq<WalOp>, hi: nat, lo: nat, last: nat)
    requires WellLogged(t, ops, hi, last) && lo <= hi
    ensures WellLogged(t, ops, lo, last)
    decreases |ops|
  {
    if ops != [] {
      LoggedLower(Apply1(t, ops[0]), ops[1..], LowOffset(ops[0], hi), LowOffset(ops[0], lo), last);
    }
  }

  lemma {:induction false} LoggedPrefix(t: Table, ops: seq<WalOp>, lo: nat, last: nat, n: nat)
    requires WellLogged(t, ops, lo, last) && n <= |ops|
    ensures WellLogged(t, ops[..n], lo, last)
    decreases |ops|
  {
    if n > 0 {
      LoggedPrefix(Apply1(t, ops[0]), ops[1..], LowOffset(ops[0], lo), last, n - 1);
      assert ops[..n][1..] == ops[1..][..n - 1];
    }
  }

  /** What the write path appends is well logged. */
  lemma {:induction false} ChainLogged(c: Codec, slots: Slots, mem: Cache, t: Table, ops: seq<WalOp>, lo: nat, ls: nat, last: nat)
    requires Chain(c, slots, mem, t, ops, lo, ls) && last < ls
    ensures WellLogged(t, ops, lo, last)
    decreases |ops|
  {
    if ops != [] {
      ChainLogged(c, slots, mem, Apply1(t, ops[0]), ops[1..], LowOffset(ops[0], lo), LowSeq(ops[0], ls), last);
    }
  }

  lemma {:induction false} LowBound(ops: seq<WalOp>, lo: nat, n: nat, f: nat)
    requires n <= |ops| && lo <= f && forall op :: op in ops && Puts(op) ==> op.offset < f
    ensures LowAt(ops, lo, n) <= f
  {
    if n > 0 {
      LowBound(ops, lo, n - 1, f);
      assert ops[n - 1] in ops;
    }
  }

  lemma {:induction false} LoggedNewer(t: Table, ops: seq<WalOp>, lo: nat, last: nat, op: WalOp)
    requires WellLogged(t, ops, lo, last) && op in ops && Puts(op)
    ensures op.number > last
    decreases |ops|
  {
    if op != ops[0] {
      LoggedNewer(Apply1(t, ops[0]), ops[1..], LowOffset(ops[0], lo), last, op);
    }
  }

  /** Appending admissible operations keeps the shape of a log. */
  lemma {:induction false} ShapeGrows(c: Codec, s: Sys, k: nat, h: seq<WalOp>, more: seq<WalOp>)
    requires Inv(c, s) && LogShape(s, k, h)
    requires Chain(c, s.disk.slots, s.mem, s.mem.records, more, s.floorO, s.floorS)
    ensures var snap, log := s.disk.snap, s.disk.log + more;
            && LogAfter(snap.records, log, k, snap.nextOffset, snap.last)
            && ApplyAll(snap.records, log[k..]) == ApplyAll(s.mem.records, more)
            && s.journal + more == h + log[k..]
  {
    hide Chain, WellLogged, ApplyAll, IdsUnique, Covered;
    var snap, since := s.disk.snap, s.disk.log[k..];
    var log := s.disk.log + more;
    assert log[..k] == s.disk.log[..k] && log[k..] == since + more;
    ApplyConcat(snap.records, since, more);
    LastBelowFloor(c, s);
    ChainLogged(c, s.disk.slots, s.mem, s.mem.records, more, s.floorO, s.floorS, snap.last);
    SinceBelowFloor(c, s, k, h);
    LowBound(since, snap.nextOffset, |since|, s.floorO);
    LoggedLower(s.mem.records, more, s.floorO, LowAt(since, snap.nextOffset, |since|), snap.last);
    LoggedConcat(snap.records, since, more, snap.nextOffset, snap.last);
  }

  lemma {:induction false} LastBelowFloor(c: Codec, s: Sys)
    requires Inv(c, s)
    ensures s.disk.snap.last < s.floorS
  {
  }

  lemma {:induction false} SinceBelowFloor(c: Codec, s: Sys, k: nat, h: seq<WalOp>)
    requires Inv(c, s) && LogShape(s, k, h)
    ensures forall op :: op in s.disk.log[k..] && Puts(op) ==> op.offset < s.floorO
  {
    hide WellLogged, ApplyAll, ReplayAll, Chain, Covered, IdsUnique, Present;
    forall op | op in s.disk.log[k..] && Puts(op)
      ensures op.offset < s.floorO
    {
      LoggedNewer(s.disk.snap.records, s.disk.log[k..], s.disk.snap.nextOffset, s.disk.snap.last, op);
      assert op in s.disk.log;
    }
  }

  // ----- every step ----------------------------------------------------------------------------------

  lemma {:induction false} EmptyShaped()
    ensures Shaped(EmptyStore)
  {
    assert EmptyStore.disk.log[0..] == [] && EmptyStore.disk.log[..0] == [];
    NoOpsApplied(map[]);
    assert LogShape(EmptyStore, 0, []);
  }

  lemma {:induction false} CommitShapes(c: Codec, s: Sys)
    requires Inv(c, s) && Shaped(s) && Enabled(c, s, Commit)
    ensures Shaped(Next(c, s, Commit))
  {
    hide Chain, ApplyAll, LogAfter, Touched;
    var k: nat, h :| LogShape(s, k, h);
    InvChain(c, s);
    FloorBelowNext(c, s);
    ShapeGrows(c, s, k, h, s.pending) by { PendingChain(c, s); }
    assert LogShape(Next(c, s, Commit), k, h);
  }

  lemma {:induction false} PendingChain(c: Codec, s: Sys)
    requires Inv(c, s)
    ensures Chain(c, s.disk.slots, s.mem, s.mem.records, s.pending, s.floorO, s.floorS)
  {
  }

  lemma {:induction false} FloorBelowNext(c: Codec, s: Sys)
    requires Inv(c, s)
    ensures s.floorO <= s.mem.nextOffset
  {
  }

  lemma {:induction false} RebootShapes(c: Codec, s: Sys, n: nat)
    requires Inv(c, s) && Shaped(s) && Enabled(c, s, Reboot(n))
    ensures Shaped(Next(c, s, Reboot(n)))
  {
    hide Inv, Chain, ApplyAll, LogAfter, Touched, ReplayAll, MaxOffset, MaxSeq, RecoveredCount, AnyReplays;
    var k: nat, h :| LogShape(s, k, h);
    KillLosesNothing(c, s, n);
    RebootChain(c, s, n);
    ShapeGrows(c, s, k, h, s.pending[..n]);
    assert LogShape(Next(c, s, Reboot(n)), k, h);
  }

  lemma {:induction false} SaveShapes(c: Codec, s: Sys, upTo: nat)
    requires Inv(c, s) && Shaped(s) && Enabled(c, s, Save(upTo))
    ensures Shaped(Next(c, s, Save(upTo)))
  {
    hide ReplayAll, ApplyAll, Present, Merged, Chain, WellLogged;
    if !NothingToSave(s, upTo) {
      var r := Next(c, s, Save(upTo));
      MergedIsLive(s.disk.snap.records, s.mem.records, s.mem.dirty);
      AllCovered(r);
    }
  }

  lemma {:induction false} AllCovered(s: Sys)
    requires s.disk.snap.records == s.mem.records && s.disk.snap.nextOffset <= s.floorO
    requires Covered(s.mem.records, s.disk.log, s.disk.snap.last) && IdsUnique(s.mem.records)
    requires forall o :: o in s.mem.records ==> o < s.disk.snap.nextOffset
    requires ApplyAll(map[], s.journal) == s.mem.records
    ensures Shaped(s)
  {
    var log := s.disk.log;
    assert log[|log|..] == [] && log[..|log|] == log;
    assert s.journal == s.journal + [];
    assert LogShape(s, |log|, s.journal);
  }

  lemma {:induction false} ClearShapes(c: Codec, s: Sys)
    requires Inv(c, s) && Shaped(s) && Enabled(c, s, Clear)
    ensures Shaped(Next(c, s, Clear))
  {
    hide ReplayAll, ApplyAll, Present, Chain, WellLogged;
    AllCovered(Next(c, s, Clear));
  }

  lemma {:induction false} StepShapes(c: Codec, s: Sys, e: Event)
    requires Inv(c, s) && Shaped(s) && Enabled(c, s, e)
    ensures Shaped(Next(c, s, e))
  {
    hide Inv, LogAfter, ApplyAll, Chain;
    match e
    case Commit => CommitShapes(c, s);
    case Save(upTo) => SaveShapes(c, s, upTo);
    case Clear => ClearShapes(c, s);
    case Reboot(n) => RebootShapes(c, s, n);
    case _ =>
      var k: nat, h :| LogShape(s, k, h);
      assert LogShape(Next(c, s, e), k, h);
  }

  /** Every reachable log has the shape. */
  lemma {:induction false} EveryLogIsShaped(c: Codec, s: Sys, es: seq<Event>, t: Sys)
    requires Inv(c, s) && Shaped(s) && Run(c, s, es, t)
    ensures Inv(c, t) && Shaped(t)
    decreases |es|
  {
    hide Inv, Shaped, Enabled, Next;
    if es != [] {
      StepKeeps(c, s, es[0]);
      StepShapes(c, s, es[0]);
      EveryLogIsShaped(c, Next(c, s, es[0]), es[1..], t);
    }
  }

  // ----- a power loss anywhere in a run ------------------------------------------------------------------

  lemma {:induction false} AfterPrefix(t: Table, ops: seq<WalOp>, k: nat, lo: nat, last: nat, n: nat) returns (m: nat)
    requires LogAfter(t, ops, k, lo, last) && n <= |ops|
    ensures m == (if k < n then k else n) && LogAfter(t, ops[..n], m, lo, last)
    ensures ops[..n][m..] == if k < n then ops[k..n] else []
  {
    hide WellLogged;
    m := if k < n then k else n;
    if k < n {
      LoggedPrefix(t, ops[k..], lo, last, n - k);
      assert ops[..n][..k] == ops[..k] && ops[..n][k..] == ops[k..][..n - k];
    } else {
      NoneLogged(t, lo, last);
      assert ops[..n][..n] == ops[..n] && ops[..n][n..] == [];
      assert forall op :: op in ops[..n] ==> op in ops[..k];
    }
  }

  lemma {:induction false} NoneLogged(t: Table, lo: nat, last: nat)
    ensures WellLogged(t, [], lo, last)
  {
  }

  /** What the next open recovers from the first `n` operations of the log, with the surviving `slots`. */
  ghost function Recovered(c: Codec, s: Sys, n: nat, slots: Slots): (t: Table)
    requires n <= |s.disk.log + s.pending|
  {
    ReplayAll(c, slots, s.disk.snap.last, s.disk.snap.records, (s.disk.log + s.pending)[..n])
  }

  /** The live records after the first `j` operations of the run's history, the one in flight included. */
  ghost function MomentOf(s: Sys, j: nat): (t: Table)
    requires j <= |s.journal + s.pending|
  {
    ApplyAll(map[], (s.journal + s.pending)[..j])
  }

  /**
    Lose power at any point of any run, keep any prefix of the log and any vectors. `w` is
    the part of that prefix behind what the snapshot covers, and moment `j` of the run is
    where its operations lead: as many operations before the end of the history as the cut
    takes off the log, or the snapshot when that covers all that is left; if the whole
    acknowledged log survives, it is the live store.
    Then what the next open recovers holds nothing that is gone at that moment, has unique
    ids, and is that moment, each exactly under its condition on the log.
   */
  lemma {:induction false} PowerCut(c: Codec, es: seq<Event>, s: Sys, n: nat, slots: Slots) returns (w: Loss, m: nat, j: nat)
    requires Run(c, EmptyStore, es, s) && n <= |s.disk.log + s.pending|
    ensures m <= n && Covered(s.disk.snap.records, (s.disk.log + s.pending)[..m], s.disk.snap.last)
    ensures j <= |s.journal + s.pending| && (n == |s.disk.log| ==> MomentOf(s, j) == s.mem.records)
    ensures if m < n then j + |s.disk.log| == |s.journal| + n else MomentOf(s, j) == s.disk.snap.records
    ensures w == Loss(c, slots, s.disk.snap.last, s.disk.snap.records, (s.disk.log + s.pending)[..n][m..], s.disk.snap.nextOffset)
    ensures w.Valid() && w.Found(|w.ops|) == Recovered(c, s, n, slots) && w.Meant(|w.ops|) == MomentOf(s, j)
    ensures (forall o :: o in Recovered(c, s, n, slots) ==> o in MomentOf(s, j)) <==> forall i: nat :: i < |w.ops| ==> !w.Reviving(i)
    ensures IdsUnique(Recovered(c, s, n, slots)) <==> forall a: nat, b: nat :: a < b < |w.ops| ==> !Doubled(w, a, b)
    ensures Recovered(c, s, n, slots) == MomentOf(s, j) <==> Repaired(w) && forall i: nat :: i < |w.ops| ==> !w.Reviving(i)
  {
    hide Inv, Shaped, LogAfter, Loss.Valid, Loss.Found, Loss.Meant, Loss.Reviving, Doubled, Repaired, Recovered, MomentOf, IdsUnique, Run;
    w, m, j := CutLoss(c, es, s, n, slots);
    NothingReturnsIff(w);
    IdsUniqueIff(w);
    PointInTimeRead(w);
  }

  lemma {:induction false} CutLoss(c: Codec, es: seq<Event>, s: Sys, n: nat, slots: Slots) returns (w: Loss, m: nat, j: nat)
    requires Run(c, EmptyStore, es, s) && n <= |s.disk.log + s.pending|
    ensures m <= n && Covered(s.disk.snap.records, (s.disk.log + s.pending)[..m], s.disk.snap.last)
    ensures j <= |s.journal + s.pending| && (n == |s.disk.log| ==> MomentOf(s, j) == s.mem.records)
    ensures if m < n then j + |s.disk.log| == |s.journal| + n else MomentOf(s, j) == s.disk.snap.records
    ensures w == Loss(c, slots, s.disk.snap.last, s.disk.snap.records, (s.disk.log + s.pending)[..n][m..], s.disk.snap.nextOffset)
    ensures w.Valid() && w.Found(|w.ops|) == Recovered(c, s, n, slots) && w.Meant(|w.ops|) == MomentOf(s, j)
  {
    hide Inv, Shaped, Chain, LogAfter, ReplayAll, ApplyAll, Loss.Valid, Loss.Found, Loss.Meant, LogShape, Run;
    InvEmpty(c);
    EmptyShaped();
    EveryLogIsShaped(c, EmptyStore, es, s);
    var k, h := ShapeOf(s);
    PendingChain(c, s);
    ShapeGrows(c, s, k, h, s.pending);
    ShapeSince(s, k, h);
    var snap, log := s.disk.snap, s.disk.log + s.pending;
    m := AfterPrefix(snap.records, log, k, snap.nextOffset, snap.last, n);
    w := LossOf(c, slots, snap.records, log[..n], m, snap.nextOffset, snap.last);
    j := |h| + if k < n then n - k else 0;
    CoveredCut(snap.records, log, k, snap.nextOffset, snap.last, n, m);
    CutHistory(s.journal + s.pending, h, log, k, n);
    ApplyConcat(map[], h, if k < n then log[k..n] else []);
    NoOpsApplied(snap.records);
    if n == |s.disk.log| {
      assert (s.journal + s.pending)[..|s.journal|] == s.journal;
      JournalIs(c, s);
    }
  }

  lemma {:induction false} CoveredCut(t: Table, ops: seq<WalOp>, k: nat, lo: nat, last: nat, n: nat, m: nat)
    requires LogAfter(t, ops, k, lo, last) && n <= |ops| && m == if k < n then k else n
    ensures Covered(t, ops[..m], last)
  {
    hide WellLogged;
    assert ops[..m] <= ops[..k];
  }

  lemma {:induction false} NoOpsApplied(t: Table)
    ensures ApplyAll(t, []) == t
  {
  }

  lemma {:induction false} JournalIs(c: Codec, s: Sys)
    requires Inv(c, s)
    ensures ApplyAll(map[], s.journal) == s.mem.records
  {
  }

  lemma {:induction false} CutHistory(all: seq<WalOp>, h: seq<WalOp>, log: seq<WalOp>, k: nat, n: nat)
    requires k <= |log| && n <= |log| && all == h + log[k..]
    ensures var j := |h| + if k < n then n - k else 0;
            j <= |all| && all[..j] == h + if k < n then log[k..n] else []
  {
  }

  lemma {:induction false} ShapeOf(s: Sys) returns (k: nat, h: seq<WalOp>)
    requires Shaped(s)
    ensures LogShape(s, k, h)
  {
    k, h :| LogShape(s, k, h);
  }

  lemma {:induction false} ShapeSince(s: Sys, k: nat, h: seq<WalOp>)
    requires LogShape(s, k, h)
    ensures k <= |s.disk.log| && s.journal == h + s.disk.log[k..] && ApplyAll(map[], h) == s.disk.snap.records
  {
  }
}
