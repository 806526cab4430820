/**
  A compaction pass seen from the log (tsm/memory.py `_compact_user` over
  crates/turbomemory_storage): its gists are inserted as one batch, then each folded memory
  is deleted by a call of its own. Wherever the process dies, nothing is lost.
 */
module PassCrash {
  import opened Records
  import opened Wal
  import opened Recovery
  import opened Engine
  import opened CrashSafety
  import opened EngineApi

  function Deletes(gone: seq<Offset>): (ops: seq<WalOp>)
    ensures |ops| == |gone|
  {
    if gone == [] then [] else [Delete(gone[0])] + Deletes(gone[1..])
  }

  /** The operations of one pass. */
  function PassOps(c: Codec, gists: seq<Input>, o: Offset, n: nat, gone: seq<Offset>): (ops: seq<WalOp>)
  {
    InsertOps(c, gists, o, n) + Deletes(gone)
  }

  /** Every entry of `t` is in `r`, unchanged. */
  ghost predicate Extends(t: Table, r: Table)
  {
    forall a :: a in t ==> a in r && r[a] == t[a]
  }

  /** `r` holds nothing but entries of `t` and records of the batch `xs`, which starts at `o`. */
  ghost predicate Within(t: Table, r: Table, xs: seq<Input>, o: Offset, n: nat)
  {
    forall a :: a in r ==> (a in t && r[a] == t[a]) || (o <= a < o + |xs| && r[a] == MetaOf(xs[a - o], n + (a - o)))
  }

  /** The first `k` records of the batch are live. */
  ghost predicate LiveUpTo(r: Table, xs: seq<Input>, k: nat, o: Offset, n: nat)
    requires k <= |xs|
  {
    forall a :: o <= a < o + k ==> a in r && r[a] == MetaOf(xs[a - o], n + (a - o))
  }

  lemma {:induction false} InsertsExtend(c: Codec, t: Table, xs: seq<Input>, o: Offset, n: nat, k: nat)
    requires Below(t, o) && k <= |xs|
    ensures var r := ApplyAll(t, InsertOps(c, xs, o, n)[..k]);
            Extends(t, r) && Within(t, r, xs, o, n) && LiveUpTo(r, xs, k, o, n)
  {
    hide InsertOps, ApplyAll;
    var ops := InsertOps(c, xs, o, n);
    if k == 0 {
      assert ops[..0] == [];
      NoOps(t);
    } else {
      InsertsExtend(c, t, xs, o, n, k - 1);
      assert ops[..k] == ops[..k - 1] + [ops[k - 1]];
      InsertOpsAt(c, xs, o, n, k - 1);
      ApplyConcat(t, ops[..k - 1], [ops[k - 1]]);
      OneOp(ApplyAll(t, ops[..k - 1]), ops[k - 1]);
    }
  }

  lemma {:induction false} NoOps(t: Table)
    ensures ApplyAll(t, []) == t
  {
  }

  lemma {:induction false} OneOp(t: Table, op: WalOp)
    ensures ApplyAll(t, [op]) == Apply1(t, op)
  {
    assert [op][1..] == [];
  }

  lemma {:induction false} DeletesKeepRest(t: Table, gone: seq<Offset>, k: nat)
    requires k <= |gone|
    ensures var r := ApplyAll(t, Deletes(gone)[..k]);
            Extends(r, t) && forall a :: a in t && a !in gone ==> a in r
    decreases |gone|
  {
    if k > 0 {
      assert Deletes(gone)[..k][1..] == Deletes(gone[1..])[..k - 1];
      DeletesKeepRest(t - {gone[0]}, gone[1..], k - 1);
    }
  }

  /**
    Where a pass may be cut short: every memory it does not fold is as it was, nothing but
    its gists is new, and either every folded memory is still live or every gist is.
   */
  ghost predicate NothingLost(t: Table, r: Table, gists: seq<Input>, o: Offset, n: nat, gone: seq<Offset>)
  {
    && (forall a :: a in t && a !in gone ==> a in r)
    && Within(t, r, gists, o, n)
    && ((forall a :: a in gone ==> a in r) || LiveUpTo(r, gists, |gists|, o, n))
  }

  lemma {:induction false} AnyPrefixLosesNothing(c: Codec, t: Table, gists: seq<Input>, o: Offset, n: nat, gone: seq<Offset>, k: nat)
    requires Below(t, o) && (forall a :: a in gone ==> a in t) && k <= |PassOps(c, gists, o, n, gone)|
    ensures NothingLost(t, ApplyAll(t, PassOps(c, gists, o, n, gone)[..k]), gists, o, n, gone)
  {
    hide ApplyAll, Deletes, InsertOps, MetaOf;
    var ins, dels := InsertOps(c, gists, o, n), Deletes(gone);
    if k <= |gists| {
      assert (ins + dels)[..k] == ins[..k];
      InsertsExtend(c, t, gists, o, n, k);
    } else {
      var j := k - |gists|;
      assert (ins + dels)[..k] == ins + dels[..j];
      assert ins[..|gists|] == ins;
      ApplyConcat(t, ins, dels[..j]);
      InsertsExtend(c, t, gists, o, n, |gists|);
      DeletesKeepRest(ApplyAll(t, ins), gone, j);
    }
  }

  // ----- the pass as calls on the engine ----------------------------------------------------

  /** One delete call per folded memory. */
  function DeleteCalls(gone: seq<Offset>): (calls: seq<seq<WalOp>>)
  {
    if gone == [] then [] else [[Delete(gone[0])]] + DeleteCalls(gone[1..])
  }

  /** The log appends of a pass: its gists as one batch, if there are any, then the deletes. */
  function PassCalls(c: Codec, gists: seq<Input>, o: Offset, n: nat, gone: seq<Offset>): (calls: seq<seq<WalOp>>)
  {
    (if gists == [] then [] else [InsertOps(c, gists, o, n)]) + DeleteCalls(gone)
  }

  function Flat(calls: seq<seq<WalOp>>): (ops: seq<WalOp>)
  {
    if calls == [] then [] else calls[0] + Flat(calls[1..])
  }

  lemma {:induction false} FlatDeletes(gone: seq<Offset>)
    ensures Flat(DeleteCalls(gone)) == Deletes(gone)
  {
    if gone != [] {
      FlatDeletes(gone[1..]);
      assert DeleteCalls(gone)[1..] == DeleteCalls(gone[1..]);
    }
  }

  lemma {:induction false} FlatPass(c: Codec, gists: seq<Input>, o: Offset, n: nat, gone: seq<Offset>)
    ensures Flat(PassCalls(c, gists, o, n, gone)) == PassOps(c, gists, o, n, gone)
  {
    FlatDeletes(gone);
    var calls := PassCalls(c, gists, o, n, gone);
    if gists == [] {
      assert calls == DeleteCalls(gone);
    } else {
      assert calls[1..] == DeleteCalls(gone);
    }
  }

  /**
    A run of the engine in which the only appends are `calls`, in order; flush steps come
    anywhere, and once the process has died nothing of the pass is appended any more.
   */
  ghost predicate PassRun(c: Codec, s: Sys, es: seq<Event>, t: Sys, calls: seq<seq<WalOp>>)
    decreases |es|
  {
    if es == [] then s == t
    else
      && Enabled(c, s, es[0])
      && match es[0]
         case Append(ops) => calls != [] && ops == calls[0] && PassRun(c, Next(c, s, es[0]), es[1..], t, calls[1..])
         case Reboot(_) => PassRun(c, Next(c, s, es[0]), es[1..], t, [])
         case _ => PassRun(c, Next(c, s, es[0]), es[1..], t, calls)
  }

  /** Such a run has logged a prefix of the pass, in flight or applied, and kept the invariant. */
  lemma {:induction false} PassLogsPrefix(c: Codec, s: Sys, es: seq<Event>, t: Sys, calls: seq<seq<WalOp>>) returns (m: nat)
    requires Inv(c, s) && PassRun(c, s, es, t, calls)
    ensures Inv(c, t) && m <= |s.pending + Flat(calls)|
    ensures t.journal + t.pending == s.journal + (s.pending + Flat(calls))[..m]
    decreases |es|
  {
    hide Inv, Chain, OpenCheck;
    if es == [] {
      m := |s.pending|;
      assert (s.pending + Flat(calls))[..m] == s.pending;
    } else {
      var e, r := es[0], Next(c, s, es[0]);
      StepKeeps(c, s, e);
      var rest := match e case Append(_) => calls[1..] case Reboot(_) => [] case _ => calls;
      var i := PassLogsPrefix(c, r, es[1..], t, rest);
      if e.Reboot? {
        m := e.survived + i;
        Regroup(s.journal, s.pending[..e.survived], [], i);
        assert (s.pending + Flat(calls))[..e.survived] == s.pending[..e.survived];
      } else if e.Commit? {
        m := |s.pending| + i;
        Regroup(s.journal, s.pending, Flat(calls), i);
      } else {
        m := i;
        PendingThen(c, s, e, calls);
      }
    }
  }

  lemma {:induction false} Regroup(journal: seq<WalOp>, p: seq<WalOp>, rest: seq<WalOp>, i: nat)
    requires i <= |[] + rest|
    ensures journal + p + ([] + rest)[..i] == journal + (p + rest)[..|p| + i]
  {
    assert [] + rest == rest;
    assert (p + rest)[..|p| + i] == p + rest[..i];
  }

  lemma {:induction false} PendingThen(c: Codec, s: Sys, e: Event, calls: seq<seq<WalOp>>)
    requires Enabled(c, s, e) && !e.Reboot? && !e.Commit? && (e.Append? ==> calls != [] && e.ops == calls[0])
    ensures Next(c, s, e).journal == s.journal
    ensures Next(c, s, e).pending + Flat(if e.Append? then calls[1..] else calls) == s.pending + Flat(calls)
  {
    if e.Append? {
      assert s.pending == [];
    }
  }

  /**
    Kill the process at any point of a pass, with any part of the in-flight append in the
    log, flushes and restarts included: the reopened store is what some first operations of
    the pass lead to, and has lost no memory.
   */
  lemma {:induction false} KilledPassLosesNothing(c: Codec, start: Sys, es: seq<Event>, s: Sys, k: nat, gists: seq<Input>,
                                                  o: Offset, n: nat, gone: seq<Offset>) returns (j: nat)
    requires Inv(c, start) && start.pending == [] && k <= |s.pending|
    requires PassRun(c, start, es, s, PassCalls(c, gists, o, n, gone))
    requires Below(start.mem.records, o) && forall a :: a in gone ==> a in start.mem.records
    ensures j <= |PassOps(c, gists, o, n, gone)|
    ensures Loaded(c, Crashed(s, k)).records == ApplyAll(start.mem.records, PassOps(c, gists, o, n, gone)[..j])
    ensures NothingLost(start.mem.records, Loaded(c, Crashed(s, k)).records, gists, o, n, gone)
  {
    hide NothingLost, PassOps, PassCalls, PassRun, Flat, Loaded, ApplyAll, Inv;
    var ops := PassOps(c, gists, o, n, gone);
    FlatPass(c, gists, o, n, gone);
    var m := PassLogsPrefix(c, start, es, s, PassCalls(c, gists, o, n, gone));
    assert start.pending + ops == ops;
    KeptHistory(c, start, es, s, PassCalls(c, gists, o, n, gone));
    j := CutPrefix(start.journal, ops, m, s.journal, s.pending, k);
    KillLosesNothing(c, s, k);
    JournalSays(c, start);
    JournalSays(c, s);
    ApplyConcat(map[], s.journal, s.pending[..k]);
    ApplyConcat(map[], start.journal, ops[..j]);
    AnyPrefixLosesNothing(c, start.mem.records, gists, o, n, gone, j);
  }

  /** The history before the pass is never lost. */
  lemma {:induction false} KeptHistory(c: Codec, s: Sys, es: seq<Event>, t: Sys, calls: seq<seq<WalOp>>)
    requires Inv(c, s) && PassRun(c, s, es, t, calls)
    ensures s.journal <= t.journal
    decreases |es|
  {
    hide Inv, Enabled, Next;
    if es != [] {
      StepKeeps(c, s, es[0]);
      KeptHistory(c, Next(c, s, es[0]), es[1..], t,
                  match es[0] case Append(_) => calls[1..] case Reboot(_) => [] case _ => calls);
    }
  }

  lemma {:induction false} CutPrefix(before: seq<WalOp>, ops: seq<WalOp>, m: nat, journal: seq<WalOp>, pending: seq<WalOp>, k: nat)
    returns (j: nat)
    requires m <= |ops| && journal + pending == before + ops[..m] && before <= journal && k <= |pending|
    ensures j <= |ops| && journal + pending[..k] == before + ops[..j]
  {
    j := m - (|pending| - k);
    var all := before + ops[..m];
    assert journal + pending[..k] == all[..|journal| + k];
    assert before + ops[..j] == all[..|before| + j];
  }

  lemma {:induction false} JournalSays(c: Codec, s: Sys)
    requires Inv(c, s)
    ensures s.mem.records == ApplyAll(map[], s.journal)
  {
  }
}
