/**
  Runs of the engine from an empty store, one lost vector, and what the next open then
  recovers (crates/turbomemory_storage/src/engine/mod.rs, write.rs).
 */
module PowerScenarios {
  import opened Wrappers
  import opened Records
  import opened Wal
  import opened Recovery
  import opened Engine
  import opened CrashSafety
  import opened LoggedRuns

  /** Open and idle, every number handed out used. */
  ghost predicate Idle(c: Codec, s: Sys)
  {
    Inv(c, s) && s.pending == [] && !s.recovering && s.floorO == s.mem.nextOffset && s.floorS == s.mem.nextSeq
  }

  lemma {:induction false} RunConcat(c: Codec, s: Sys, a: seq<Event>, m: Sys, b: seq<Event>, t: Sys)
    requires Run(c, s, a, m) && Run(c, m, b, t)
    ensures Run(c, s, a + b, t)
    decreases |a|
  {
    hide Enabled, Next;
    if a == [] {
      assert a + b == b;
    } else {
      RunConcat(c, Next(c, s, a[0]), a[1..], m, b, t);
      assert (a + b)[1..] == a[1..] + b;
    }
  }

  lemma {:induction false} RunOne(c: Codec, s: Sys, e: Event)
    requires Enabled(c, s, e)
    ensures Run(c, s, [e], Next(c, s, e))
  {
    hide Enabled, Next;
    assert [e][1..] == [];
    assert Run(c, Next(c, s, e), [], Next(c, s, e));
  }

  lemma {:induction false} Then(c: Codec, s: Sys, es: seq<Event>, m: Sys, e: Event) returns (all: seq<Event>, t: Sys)
    requires Run(c, s, es, m) && Enabled(c, m, e)
    ensures all == es + [e] && t == Next(c, m, e) && Run(c, s, all, t)
  {
    hide Enabled, Next, Run;
    all, t := es + [e], Next(c, m, e);
    RunOne(c, m, e);
    RunConcat(c, s, es, m, [e], t);
  }

  /** One whole write: number, vector, log, index. */
  lemma {:induction false} WriteRuns(c: Codec, s: Sys, op: WalOp, v: seq<Byte>) returns (es: seq<Event>, t: Sys)
    requires Idle(c, s) && Puts(op) && op.offset == s.mem.nextOffset && op.number == s.mem.nextSeq && op.meta.insertSeq == op.number
    requires op.Insert? ==> op.crc == Some(c.crc(v)) && forall a :: a in s.mem.records ==> s.mem.records[a].id != op.meta.id
    requires op.Replace? ==> op.newCrc == c.crc(v) && op.from in s.mem.records && s.mem.records[op.from].id == op.meta.id
    ensures Run(c, s, es, t) && Idle(c, t)
    ensures t.disk.snap == s.disk.snap && t.disk.log == s.disk.log + [op] && t.disk.slots == s.disk.slots[op.offset := v]
    ensures t.mem.records == Apply1(s.mem.records, op)
    ensures t.mem.nextOffset == s.mem.nextOffset + 1 && t.mem.nextSeq == s.mem.nextSeq + 1
  {
    hide Run, Inv, Touched, Apply1;
    es := [];
    StartRun(c, s);
    es, t := Then(c, s, es, s, Reserve);
    es, t := Then(c, s, es, t, Put(op.offset, v));
    ChainOfOne(c, t.disk.slots, t.mem, t.mem.records, op, t.floorO, t.floorS);
    es, t := Then(c, s, es, t, Append([op]));
    es, t := Then(c, s, es, t, Commit);
    EveryRunIsDurable(c, s, es, t);
    AppliedOnce(s.mem.records, op);
  }

  lemma {:induction false} StartRun(c: Codec, s: Sys)
    ensures Run(c, s, [], s)
  {
  }

  lemma {:induction false} DeleteRuns(c: Codec, s: Sys, o: Offset) returns (es: seq<Event>, t: Sys)
    requires Idle(c, s) && o in s.mem.records
    ensures Run(c, s, es, t) && Idle(c, t)
    ensures t.disk.snap == s.disk.snap && t.disk.log == s.disk.log + [Delete(o)] && t.disk.slots == s.disk.slots
    ensures t.mem.records == s.mem.records - {o}
  {
    hide Run, Inv, Touched;
    es := [];
    StartRun(c, s);
    ChainOfOne(c, s.disk.slots, s.mem, s.mem.records, Delete(o), s.floorO, s.floorS);
    es, t := Then(c, s, es, s, Append([Delete(o)]));
    es, t := Then(c, s, es, t, Commit);
    EveryRunIsDurable(c, s, es, t);
    AppliedOnce(s.mem.records, Delete(o));
  }

  lemma {:induction false} FlushRuns(c: Codec, s: Sys) returns (es: seq<Event>, t: Sys)
    requires Idle(c, s) && s.mem.records != map[]
    ensures Run(c, s, es, t) && Idle(c, t)
    ensures t.disk.log == [] && t.disk.slots == s.disk.slots && t.mem.records == s.mem.records
    ensures t.disk.snap.records == s.mem.records && t.disk.snap.last == s.mem.nextSeq - 1
    ensures t.mem.nextOffset == s.mem.nextOffset && t.mem.nextSeq == s.mem.nextSeq
  {
    hide Run, Inv, Merged;
    es := [];
    StartRun(c, s);
    FlushMaySave(c, s);
    es, t := Then(c, s, es, s, Stamp);
    var upTo := s.mem.nextSeq - 1;
    StampKeeps(c, s);
    SaveKeeps(c, t, upTo);
    es, t := Then(c, s, es, t, Save(upTo));
    es, t := Then(c, s, es, t, Clear);
    EveryRunIsDurable(c, s, es, t);
  }

  /** One memory, stored and flushed. */
  lemma {:induction false} FlushedMemory(c: Codec, m: Meta, v: seq<Byte>) returns (es: seq<Event>, s: Sys)
    requires m.insertSeq == 1
    ensures Run(c, EmptyStore, es, s) && Idle(c, s)
    ensures s.disk.log == [] && s.disk.slots == map[0 := v] && s.mem.records == s.disk.snap.records == map[0 := m]
    ensures s.disk.snap.last == 1 && s.mem.nextOffset == 1 && s.mem.nextSeq == 2
  {
    hide Run, Inv;
    InvEmpty(c);
    var a, t := WriteRuns(c, EmptyStore, Insert(0, 1, m, Some(c.crc(v))), v);
    assert 0 in t.mem.records;
    var b;
    b, s := FlushRuns(c, t);
    es := a + b;
    RunConcat(c, EmptyStore, a, t, b, s);
  }

  /**
    The recovered store can be one that never existed. Update a flushed memory twice and
    lose power with only the first new vector missing: the original and the second update
    are both live, under one id.
   */
  lemma {:induction false} TwoUpdatesCanLeaveTwoRecords(c: Codec, m0: Meta, m1: Meta, m2: Meta, v: seq<Byte>)
    returns (es: seq<Event>, s: Sys)
    requires m0.id == m1.id == m2.id && m0.insertSeq == 1 && m1.insertSeq == 2 && m2.insertSeq == 3
    ensures Run(c, EmptyStore, es, s) && s.mem.records == map[2 := m2]
    ensures |s.disk.log| <= |s.disk.log + s.pending|
    ensures var r := Recovered(c, s, |s.disk.log|, s.disk.slots - {1}); r == map[0 := m0, 2 := m2] && !IdsUnique(r)
  {
    hide Run, Inv, Recovered;
    var first, second := Replace(0, 1, 2, m1, c.crc(v)), Replace(1, 2, 3, m2, c.crc(v));
    var a, p := FlushedMemory(c, m0, v);
    var b, q := WriteRuns(c, p, first, v);
    assert q.mem.records == map[1 := m1];
    var d;
    d, s := WriteRuns(c, q, second, v);
    assert s.mem.records == map[2 := m2];
    es := a + b + d;
    RunConcat(c, EmptyStore, a, p, b, q);
    RunConcat(c, EmptyStore, a + b, q, d, s);
    var r := Recovered(c, s, |s.disk.log|, s.disk.slots - {1});
    assert s.disk.log == [first, second];
    RecoveredPair(c, s, first, second);
    var slots: Slots := map[0 := v, 2 := v];
    assert s.disk.slots - {1} == slots;
    assert Replay1(c, slots, 1, map[0 := m0], first) == map[0 := m0];
    assert Replay1(c, slots, 1, map[0 := m0], second) == map[0 := m0, 2 := m2];
    assert 0 in r && 2 in r && r[0].id == r[2].id;
  }

  lemma {:induction false} RecoveredOne(c: Codec, s: Sys, op: WalOp, slots: Slots)
    requires s.disk.log == [op] && s.pending == []
    ensures Recovered(c, s, 1, slots) == Replay1(c, slots, s.disk.snap.last, s.disk.snap.records, op)
  {
    hide Replay1;
    var snap := s.disk.snap;
    assert (s.disk.log + s.pending)[..1] == [op] && [op][1..] == [];
    assert ReplayAll(c, slots, snap.last, snap.records, [op]) == Replay1(c, slots, snap.last, snap.records, op);
  }

  lemma {:induction false} RecoveredPair(c: Codec, s: Sys, a: WalOp, b: WalOp)
    requires s.disk.log == [a, b] && s.pending == []
    ensures forall slots :: Recovered(c, s, 2, slots)
              == Replay1(c, slots, s.disk.snap.last, Replay1(c, slots, s.disk.snap.last, s.disk.snap.records, a), b)
  {
    hide Replay1;
    assert (s.disk.log + s.pending)[..2] == [a, b] && [a, b][1..] == [b] && [b][1..] == [];
    forall slots
      ensures Recovered(c, s, 2, slots)
              == Replay1(c, slots, s.disk.snap.last, Replay1(c, slots, s.disk.snap.last, s.disk.snap.records, a), b)
    {
      var t := Replay1(c, slots, s.disk.snap.last, s.disk.snap.records, a);
      assert ReplayAll(c, slots, s.disk.snap.last, t, [b]) == Replay1(c, slots, s.disk.snap.last, t, b);
    }
  }

  /**
    A vector that never reached its slot of the file is noticed by its checksum: with any
    other bytes there, the memory is not recovered.
   */
  lemma {:induction false} OtherBytesAreRefused(c: Codec, m: Meta, v: seq<Byte>, other: seq<Byte>) returns (es: seq<Event>, s: Sys)
    requires m.insertSeq == 1 && c.crc(other) != c.crc(v)
    ensures Run(c, EmptyStore, es, s) && s.mem.records == map[0 := m]
    ensures |s.disk.log| <= |s.disk.log + s.pending| && 0 in s.disk.slots
    ensures Recovered(c, s, |s.disk.log|, s.disk.slots[0 := other]) == map[]
    ensures Recovered(c, s, |s.disk.log|, s.disk.slots) == map[0 := m]
  {
    hide Run, Inv;
    InvEmpty(c);
    var op := Insert(0, 1, m, Some(c.crc(v)));
    es, s := WriteRuns(c, EmptyStore, op, v);
    assert s.mem.records == map[0 := m];
    assert s.disk.log == [op];
    RecoveredOne(c, s, op, s.disk.slots);
    RecoveredOne(c, s, op, s.disk.slots[0 := other]);
  }

  /** And a memory can outlive its own deletion: the update is lost, the deletion names only the lost version. */
  lemma {:induction false} DeletedMemoryCanReturn(c: Codec, m0: Meta, m1: Meta, v: seq<Byte>) returns (es: seq<Event>, s: Sys)
    requires m0.id == m1.id && m0.insertSeq == 1 && m1.insertSeq == 2
    ensures Run(c, EmptyStore, es, s) && s.mem.records == map[]
    ensures |s.disk.log| <= |s.disk.log + s.pending| && Recovered(c, s, |s.disk.log|, s.disk.slots - {1}) == map[0 := m0]
  {
    hide Run, Inv, Recovered;
    var first := Replace(0, 1, 2, m1, c.crc(v));
    var a, p := FlushedMemory(c, m0, v);
    var b, q := WriteRuns(c, p, first, v);
    assert q.mem.records == map[1 := m1];
    var d;
    d, s := DeleteRuns(c, q, 1);
    es := a + b + d;
    RunConcat(c, EmptyStore, a, p, b, q);
    RunConcat(c, EmptyStore, a + b, q, d, s);
    assert s.disk.log == [first, Delete(1)];
    RecoveredPair(c, s, first, Delete(1));
    var slots: Slots := map[0 := v];
    assert s.disk.slots - {1} == slots;
    assert Replay1(c, slots, 1, map[0 := m0], first) == map[0 := m0];
    assert Replay1(c, slots, 1, map[0 := m0], Delete(1)) == map[0 := m0];
  }
}
