/**
  The engine's write API over the durability protocol (crates/turbomemory_storage/src/
  engine/write.rs): insert, batch insert, delete, update and flush, by record id.
 */
module EngineApi {
  import opened Wrappers
  import opened Records
  import opened Wal
  import opened Recovery
  import opened Engine
  import opened CrashSafety
  import opened Strays

  /** A record as the caller hands it in. */
  datatype Input = Input(id: string, text: string, scope: Option<string>, role: Option<string>, vector: seq<Byte>)

  datatype WriteError = Invalid | DuplicateId | LogFailed

  /**
    How logging a write ends: its frames are there and it is applied; the append failed and
    was rolled back; or the frames are there, but the call failed after that.
   */
  datatype Outcome = Acked | RolledBack | Stray

  function Logged(ops: seq<WalOp>, how: Outcome): (log: seq<Entry>)
  {
    match how
    case Acked => Entries(ops)
    case RolledBack => []
    case Stray => Failed(ops)
  }

  function MetaOf(x: Input, n: nat): (m: Meta)
  {
    Meta(x.id, n, x.text, x.scope, x.role)
  }

  function InsertOp(c: Codec, x: Input, o: Offset, n: nat): (op: WalOp)
  {
    Insert(o, n, MetaOf(x, n), Some(c.crc(x.vector)))
  }

  function InsertOps(c: Codec, xs: seq<Input>, o: Offset, n: nat): (ops: seq<WalOp>)
    ensures |ops| == |xs|
  {
    if xs == [] then [] else [InsertOp(c, xs[0], o, n)] + InsertOps(c, xs[1..], o + 1, n + 1)
  }

  /** What is logged for the `i`-th record of a batch. */
  lemma {:induction false} InsertOpsAt(c: Codec, xs: seq<Input>, o: Offset, n: nat, i: nat)
    requires i < |xs|
    ensures var x := xs[i];
            InsertOps(c, xs, o, n)[i] == Insert(o + i, n + i, Meta(x.id, n + i, x.text, x.scope, x.role), Some(c.crc(x.vector)))
    decreases |xs|
  {
    if i > 0 {
      InsertOpsAt(c, xs[1..], o + 1, n + 1, i - 1);
    }
  }

  ghost predicate DistinctIds(xs: seq<Input>)
  {
    forall i, j :: 0 <= i < j < |xs| ==> xs[i].id != xs[j].id
  }

  ghost predicate NewIds(t: Table, xs: seq<Input>)
  {
    forall o, i :: o in t && 0 <= i < |xs| ==> t[o].id != xs[i].id
  }

  /** Slots `o..` hold the vectors of `xs`. */
  ghost predicate Stored(slots: Slots, xs: seq<Input>, o: Offset)
  {
    xs == [] || (o in slots && slots[o] == xs[0].vector && Stored(slots, xs[1..], o + 1))
  }

  /** A batch of new records at consecutive fresh offsets is admissible. */
  lemma {:induction false} InsertsChain(c: Codec, slots: Slots, mem: Cache, t: Table, xs: seq<Input>, o: Offset, n: nat)
    requires DistinctIds(xs) && NewIds(t, xs) && Stored(slots, xs, o)
    requires o + |xs| <= mem.nextOffset && (xs != [] ==> o + |xs| <= mem.count) && n + |xs| <= mem.nextSeq
    ensures Chain(c, slots, mem, t, InsertOps(c, xs, o, n), o, n)
    decreases |xs|
  {
    if xs != [] {
      InsertsChain(c, slots, mem, Apply1(t, InsertOp(c, xs[0], o, n)), xs[1..], o + 1, n + 1);
    }
  }

  /** The records of a batch, numbered from `n`. */
  function Metas(xs: seq<Input>, n: nat): (r: set<Meta>)
  {
    if xs == [] then {} else {MetaOf(xs[0], n)} + Metas(xs[1..], n + 1)
  }

  lemma {:induction false} MetasIff(xs: seq<Input>, n: nat, m: Meta)
    ensures m in Metas(xs, n) <==> exists i :: 0 <= i < |xs| && m == Meta(xs[i].id, n + i, xs[i].text, xs[i].scope, xs[i].role)
    decreases |xs|
  {
    if xs != [] {
      var rest := xs[1..];
      MetasIff(rest, n + 1, m);
      if i :| 0 <= i < |rest| && m == Meta(rest[i].id, n + 1 + i, rest[i].text, rest[i].scope, rest[i].role) {
        assert xs[i + 1] == rest[i];
      }
      if i :| 0 < i < |xs| && m == Meta(xs[i].id, n + i, xs[i].text, xs[i].scope, xs[i].role) {
        assert rest[i - 1] == xs[i];
      }
    }
  }

  lemma {:induction false} InsertAdds(t: Table, o: Offset, m: Meta)
    requires o !in t
    ensures t[o := m].Values == t.Values + {m}
  {
    var u := t[o := m];
    forall x | x in t.Values + {m}
      ensures x in u.Values
    {
      if x in t.Values {
        var a :| a in t && t[a] == x;
        assert u[a] == x;
      } else {
        assert u[o] == x;
      }
    }
  }

  lemma {:induction false} RemoveTakes(t: Table, o: Offset)
    requires o in t && IdsUnique(t)
    ensures (t - {o}).Values == t.Values - {t[o]}
  {
    var u := t - {o};
    forall x | x in t.Values - {t[o]}
      ensures x in u.Values
    {
      var a :| a in t && t[a] == x;
      assert u[a] == x;
    }
  }

  lemma {:induction false} InsertsAdd(c: Codec, t: Table, xs: seq<Input>, o: Offset, n: nat)
    requires Below(t, o)
    ensures ApplyAll(t, InsertOps(c, xs, o, n)).Values == t.Values + Metas(xs, n)
    decreases |xs|
  {
    if xs != [] {
      var m := MetaOf(xs[0], n);
      InsertAdds(t, o, m);
      InsertsAdd(c, t[o := m], xs[1..], o + 1, n + 1);
    }
  }

  // ----- the object --------------------------------------------------------------------

  class StorageEngine {
    const codec: Codec
    const vectorBytes: nat
    var sys: Sys
    var frames: seq<Entry>

    /** Open, idle, and consistent with its disk; `frames` is the log as it is there. */
    ghost predicate Valid()
      reads this
    {
      codec.Valid() && StoreInv(codec, Store(sys, frames)) && sys.pending == [] && !sys.recovering
    }

    /** The live records. */
    ghost function Live(): (r: set<Meta>)
      reads this
    {
      sys.mem.records.Values
    }

    ghost predicate HasId(id: string)
      reads this
    {
      exists m :: m in Live() && m.id == id
    }

    /** `id_index`: the offset an id refers to. */
    function Find(id: string): (r: Option<Offset>)
      requires IdsUnique(sys.mem.records)
      reads this
      ensures r.Some? ==> r.value in sys.mem.records && sys.mem.records[r.value].id == id
      ensures r.None? ==> forall o :: o in sys.mem.records ==> sys.mem.records[o].id != id
    {
      if exists o :: o in sys.mem.records && sys.mem.records[o].id == id then
        var o :| o in sys.mem.records && sys.mem.records[o].id == id;
        Some(o)
      else None
    }

    /** The part of `prepare` that can fail here: an empty id or a vector of the wrong size. */
    predicate Acceptable(x: Input)
    {
      x.id != "" && |x.vector| == vectorBytes
    }

    constructor Create(codec: Codec, vectorBytes: nat)
      requires codec.Valid()
      ensures Valid() && Live() == {} && sys == EmptyStore && frames == []
    {
      this.codec, this.vectorBytes, sys, frames := codec, vectorBytes, EmptyStore, [];
      new;
      EmptyOk(codec);
    }

    /**
      The commit section shared by `insert` and `insert_batch`. When it fails, offsets and
      numbers are used up and vectors may be stored, but no record is live; a rolled-back
      append leaves no frame, any other failure all of them.
     */
    method WriteNew(xs: seq<Input>, how: Outcome)
      requires Valid() && DistinctIds(xs) && NewIds(sys.mem.records, xs)
      modifies this
      ensures Valid() && sys.mem.nextSeq == old(sys.mem.nextSeq) + |xs|
      ensures var ops := InsertOps(codec, xs, old(sys.mem.nextOffset), old(sys.mem.nextSeq));
              && frames == old(frames) + Logged(ops, how)
              && sys.journal == old(sys.journal) + (if how.Acked? then ops else [])
      ensures Live() == old(Live()) + if how.Acked? then Metas(xs, old(sys.mem.nextSeq)) else {}
    {
      hide StoreInv, Chain, InsertOps;
      var o, n := sys.mem.nextOffset, sys.mem.nextSeq;
      ghost var t := sys.mem.records;
      ghost var floorO, floorS := sys.floorO, sys.floorS;
      var st := Reserved(codec, Store(sys, frames), |xs|);
      FloorsBelow(codec, Store(sys, frames));
      st := PutAll(codec, st, xs, o);
      var ops := InsertOps(codec, xs, o, n);
      var s := st.sys;
      InsertsChain(codec, s.disk.slots, s.mem, t, xs, o, n);
      ChainLower(codec, s.disk.slots, s.mem, t, ops, o, n, floorO, floorS);
      match how {
        case RolledBack =>
          NoFrames(frames, sys.journal);
        case Stray =>
          st := FailAll(codec, st, xs, o, n);
        case Acked =>
          StepOk(codec, st, Do(Append(ops)));
          st := After(codec, st, Do(Append(ops)));
          StepOk(codec, st, Do(Commit));
          st := After(codec, st, Do(Commit));
          BelowFloor(codec, Store(sys, frames));
          InsertsAdd(codec, t, xs, o, n);
      }
      sys, frames := st.sys, st.log;
    }

    method Insert(x: Input, how: Outcome) returns (r: Result<bool, WriteError>)
      requires Valid()
      modifies this
      ensures Valid()
      ensures r == if x.id == "" || |x.vector| != vectorBytes then Err(Invalid) else if old(HasId(x.id)) then Err(DuplicateId)
                   else if !how.Acked? then Err(LogFailed) else Ok(true)
      ensures r.Ok? ==> Live() == old(Live()) + {Meta(x.id, old(sys.mem.nextSeq), x.text, x.scope, x.role)}
      ensures r.Err? ==> Live() == old(Live()) && sys.journal == old(sys.journal)
      ensures r == Err(Invalid) || r == Err(DuplicateId) ==> sys == old(sys) && frames == old(frames)
      ensures r.Ok? || r == Err(LogFailed) ==>
                var ops := InsertOps(codec, [x], old(sys.mem.nextOffset), old(sys.mem.nextSeq));
                && frames == old(frames) + Logged(ops, how)
                && (r.Ok? ==> sys.journal == old(sys.journal) + ops)
    {
      hide StoreInv;
      IdsAreUnique(codec, Store(sys, frames));
      if !Acceptable(x) {
        return Err(Invalid);
      }
      if Find(x.id).Some? {
        assert HasId(x.id);
        return Err(DuplicateId);
      }
      assert Metas([x], sys.mem.nextSeq) == {MetaOf(x, sys.mem.nextSeq)};
      WriteNew([x], how);
      return if how.Acked? then Ok(true) else Err(LogFailed);
    }

    /**
      Validates everything first, then skips ids that exist and repeats inside the batch:
      `at` is the first position of every id that was not live.
     */
    method InsertBatch(xs: seq<Input>, how: Outcome) returns (r: Result<nat, WriteError>, ghost at: seq<nat>)
      requires Valid()
      modifies this
      ensures Valid()
      ensures r == Err(Invalid) <==> exists x :: x in xs && !Acceptable(x)
      ensures r == Err(Invalid) ==> sys == old(sys) && frames == old(frames)
      ensures r != Err(Invalid) ==>
                && FirstOfNew(old(sys.mem.records), xs, at)
                && var ops := InsertOps(codec, InputsAt(xs, at), old(sys.mem.nextOffset), old(sys.mem.nextSeq));
                   && r == (if at != [] && !how.Acked? then Err(LogFailed) else Ok(|at|))
                   && frames == old(frames) + Logged(ops, how)
                   && (r.Ok? ==> sys.journal == old(sys.journal) + ops)
      ensures r.Ok? ==> Grew(old(Live()), Live(), xs, at, old(sys.mem.nextSeq)) && AllLive(Live(), xs)
      ensures r.Err? ==> Live() == old(Live()) && sys.journal == old(sys.journal)
    {
      hide StoreInv, InsertOps, Metas, LiveId, FirstOfNew, Grew, AllLive, NewOnes;
      at := [];
      for i := 0 to |xs|
        invariant forall x :: x in xs[..i] ==> Acceptable(x)
        invariant sys == old(sys) && frames == old(frames)
      {
        if !Acceptable(xs[i]) {
          return Err(Invalid), at;
        }
        assert xs[..i + 1] == xs[..i] + [xs[i]];
      }
      assert xs[..|xs|] == xs;
      var news := NewOnes(sys.mem.records, xs, {});
      FreshIsNew(sys.mem.records, xs, {});
      at := NewOnesAt(sys.mem.records, xs, {});
      FirstIsNew(sys.mem.records, xs, at);
      assert InputsAt(xs, at) == news;
      if news != [] {
        WriteNew(news, how);
        if how.Acked? {
          AllHaveIds(old(sys.mem.records), xs, at, sys.mem.records, old(sys.mem.nextSeq));
          GrewBy(old(Live()), Live(), xs, at, old(sys.mem.nextSeq));
        }
        return if how.Acked? then Ok(|news|) else Err(LogFailed), at;
      }
      NoFrames(frames, sys.journal);
      NoInserts(codec, news, sys.mem.nextOffset, sys.mem.nextSeq);
      AllHaveIds(sys.mem.records, xs, at, sys.mem.records, sys.mem.nextSeq);
      GrewBy(Live(), Live(), xs, at, sys.mem.nextSeq);
      return Ok(0), at;
    }

    method Delete(id: string, how: Outcome) returns (r: Result<bool, WriteError>)
      requires Valid()
      modifies this
      ensures Valid() && r == if !old(HasId(id)) then Ok(false) else if !how.Acked? then Err(LogFailed) else Ok(true)
      ensures r == Ok(true) ==> forall m :: m in Live() <==> m in old(Live()) && m.id != id
      ensures r == Ok(false) ==> sys == old(sys) && frames == old(frames)
      ensures r == Err(LogFailed) ==> sys == old(sys)
      ensures r != Ok(false) ==>
                exists o :: o in old(sys.mem.records) && old(sys.mem.records)[o].id == id
                            && frames == old(frames) + Logged([Records.Delete(o)], how)
    {
      hide StoreInv;
      IdsAreUnique(codec, Store(sys, frames));
      var at := Find(id);
      if at.None? {
        return Ok(false);
      }
      ghost var t := sys.mem.records;
      assert t[at.value] in Live();
      RunOne(Records.Delete(at.value), how);
      if !how.Acked? {
        return Err(LogFailed);
      }
      RemoveTakes(t, at.value);
      return Ok(true);
    }

    /**
      The swap is one log record. `removed` says whether a call that fails after logging it
      had already taken the old record out of memory: then the id has no live record until
      the store is reopened.
     */
    method Update(x: Input, how: Outcome, removed: bool) returns (r: Result<bool, WriteError>)
      requires Valid()
      modifies this
      ensures Valid()
      ensures r == if !old(HasId(x.id)) then Ok(false) else if x.id == "" || |x.vector| != vectorBytes then Err(Invalid)
                   else if !how.Acked? then Err(LogFailed) else Ok(true)
      ensures r == Ok(true) ==>
                forall m :: m in Live() <==>
                  (m in old(Live()) && m.id != x.id) || m == Meta(x.id, old(sys.mem.nextSeq), x.text, x.scope, x.role)
      ensures r == Ok(false) || r == Err(Invalid) ==> sys == old(sys) && frames == old(frames)
      ensures r == Err(LogFailed) && !(how.Stray? && removed) ==> Live() == old(Live()) && sys.journal == old(sys.journal)
      ensures r == Err(LogFailed) && how.Stray? && removed ==> forall m :: m in Live() <==> m in old(Live()) && m.id != x.id
      ensures r == Ok(true) || r == Err(LogFailed) ==>
                var o, n := old(sys.mem.nextOffset), old(sys.mem.nextSeq);
                exists from :: from in old(sys.mem.records) && old(sys.mem.records)[from].id == x.id
                               && var op := Replace(from, o, n, Meta(x.id, n, x.text, x.scope, x.role), codec.crc(x.vector));
                                  frames == old(frames) + if how.Stray? && removed then [Entry(op, Half)] else Logged([op], how)
    {
      hide StoreInv;
      IdsAreUnique(codec, Store(sys, frames));
      var at := Find(x.id);
      if at.None? {
        return Ok(false);
      }
      ghost var t := sys.mem.records;
      assert t[at.value] in Live();
      if !Acceptable(x) {
        return Err(Invalid);
      }
      var o, n := sys.mem.nextOffset, sys.mem.nextSeq;
      FloorsBelow(codec, Store(sys, frames));
      BelowFloor(codec, Store(sys, frames));
      var st := Reserved(codec, Store(sys, frames), 1);
      st := PutAll(codec, st, [x], o);
      sys, frames := st.sys, st.log;
      var op := Replace(at.value, o, n, MetaOf(x, n), codec.crc(x.vector));
      if how.Stray? && removed {
        RunHalf(op);
        RemoveTakes(t, at.value);
        return Err(LogFailed);
      }
      RunOne(op, how);
      if !how.Acked? {
        return Err(LogFailed);
      }
      RemoveTakes(t, at.value);
      InsertAdds(t - {at.value}, o, MetaOf(x, n));
      return Ok(true);
    }

    /** Log one operation, then, if that succeeds, apply it. */
    method RunOne(op: WalOp, how: Outcome)
      requires Valid() && OpOk(codec, sys.disk.slots, sys.mem, sys.mem.records, op, sys.floorO, sys.floorS)
      modifies this
      ensures Valid() && frames == old(frames) + Logged([op], how)
      ensures sys.mem.records == if how.Acked? then Apply1(old(sys.mem.records), op) else old(sys.mem.records)
      ensures sys.mem.nextSeq == old(sys.mem.nextSeq)
      ensures sys.journal == old(sys.journal) + if how.Acked? then [op] else []
      ensures how.RolledBack? || (how.Stray? && !Puts(op)) ==> sys == old(sys)
    {
      hide StoreInv, Chain, OpOk;
      var st := Store(sys, frames);
      NoFrames(frames, sys.journal);
      match how {
        case RolledBack =>
        case Stray =>
          StepOk(codec, st, Fail(op));
          st := After(codec, st, Fail(op));
          assert Failed([op]) == [Entry(op, Undone)];
        case Acked =>
          ChainOfOne(codec, sys.disk.slots, sys.mem, sys.mem.records, op, sys.floorO, sys.floorS);
          AppliedOnce(sys.mem.records, op);
          StepOk(codec, st, Do(Append([op])));
          st := After(codec, st, Do(Append([op])));
          StepOk(codec, st, Do(Commit));
          st := After(codec, st, Do(Commit));
      }
      sys, frames := st.sys, st.log;
    }

    /** Log an update, take the old record out of memory, and fail. */
    method RunHalf(op: WalOp)
      requires Valid() && op.Replace? && OpOk(codec, sys.disk.slots, sys.mem, sys.mem.records, op, sys.floorO, sys.floorS)
      modifies this
      ensures Valid() && frames == old(frames) + [Entry(op, Half)]
      ensures sys.mem.records == old(sys.mem.records) - {op.from} && sys.mem.nextSeq == old(sys.mem.nextSeq)
      ensures sys.journal == old(sys.journal) + [Records.Delete(op.from)]
    {
      hide StoreInv, Chain, Inv, Removed;
      var st := Store(sys, frames);
      StepOk(codec, st, FailHalf(op));
      StoreHasInv(codec, st);
      RemovedIs(codec, sys, op.from);
      st := After(codec, st, FailHalf(op));
      sys, frames := st.sys, st.log;
    }

    /** Stamp the vector count, commit the snapshot, clear the log and every stray with it. */
    method Flush()
      requires Valid()
      modifies this
      ensures Valid() && Live() == old(Live()) && sys.journal == old(sys.journal)
      ensures frames == [] && sys.disk.log == [] && sys.disk.snap.records == sys.mem.records
    {
      hide StoreInv, Merged;
      var st := Store(sys, frames);
      var upTo := sys.mem.nextSeq - 1;
      MaySave(codec, st);
      StepOk(codec, st, Do(Stamp));
      st := After(codec, st, Do(Stamp));
      Saves(codec, st, upTo);
      StepOk(codec, st, Do(Save(upTo)));
      st := After(codec, st, Do(Save(upTo)));
      StepOk(codec, st, Do(Clear));
      st := After(codec, st, Do(Clear));
      sys, frames := st.sys, st.log;
    }
  }

  lemma {:induction false} IdsAreUnique(c: Codec, st: Store)
    requires StoreInv(c, st)
    ensures IdsUnique(st.sys.mem.records)
  {
  }

  lemma {:induction false} FloorsBelow(c: Codec, st: Store)
    requires StoreInv(c, st)
    ensures st.sys.floorO <= st.sys.mem.nextOffset && st.sys.floorS <= st.sys.mem.nextSeq
  {
  }

  lemma {:induction false} BelowFloor(c: Codec, st: Store)
    requires StoreInv(c, st)
    ensures Below(st.sys.mem.records, st.sys.mem.nextOffset)
  {
  }

  lemma {:induction false} NoFrames(log: seq<Entry>, journal: seq<WalOp>)
    ensures log + [] == log && log + Entries([]) == log && log + Failed([]) == log && journal + [] == journal
  {
  }

  /** The number a flush stamps covers every frame in the log, strays included. */
  lemma {:induction false} MaySave(c: Codec, st: Store)
    requires StoreInv(c, st) && st.sys.pending == []
    ensures st.sys.mem.nextSeq >= 1 && Can(c, st, Do(Stamp))
    ensures Can(c, After(c, st, Do(Stamp)), Do(Save(st.sys.mem.nextSeq - 1)))
  {
    hide Ops, Gone, Extra, Acknowledged, ReplayAll, ApplyAll, Chain, Present;
    var upTo := st.sys.mem.nextSeq - 1;
    FlushMaySave(c, st.sys);
    forall y | y in st.log && Puts(y.op)
      ensures y.op.number <= upTo
    {
      if y.fate.Done? {
        AckedAreLogged(st.log, y);
      }
    }
  }

  lemma {:induction false} Saves(c: Codec, st: Store, upTo: nat)
    requires StoreInv(c, st) && Can(c, st, Do(Save(upTo)))
    ensures var r := Next(c, st.sys, Save(upTo)); r.disk.snap.records == r.mem.records && r.disk.snap.written
  {
    hide Inv;
    SaveKeeps(c, st.sys, upTo);
  }

  /** A batch whose call fails after its frames were logged. */
  method FailAll(c: Codec, s: Store, xs: seq<Input>, o: Offset, n: nat) returns (r: Store)
    requires StoreInv(c, s) && s.sys.pending == [] && !s.sys.recovering
    requires DistinctIds(xs) && NewIds(s.sys.mem.records, xs) && Stored(s.sys.disk.slots, xs, o)
    requires s.sys.floorO <= o && s.sys.floorS <= n
    requires o + |xs| <= s.sys.mem.nextOffset && (xs != [] ==> o + |xs| <= s.sys.mem.count) && n + |xs| <= s.sys.mem.nextSeq
    ensures StoreInv(c, r) && r.log == s.log + Failed(InsertOps(c, xs, o, n))
    ensures r.sys == s.sys.(floorO := r.sys.floorO, floorS := r.sys.floorS)
  {
    hide StoreInv, InsertOps, Failed, Stored;
    r := s;
    var i := 0;
    assert xs[0..] == xs;
    NoFrames(s.log, []);
    while i < |xs|
      invariant 0 <= i <= |xs| && StoreInv(c, r) && Stored(r.sys.disk.slots, xs[i..], o + i)
      invariant r.sys == s.sys.(floorO := r.sys.floorO, floorS := r.sys.floorS)
      invariant r.sys.floorO <= o + i && r.sys.floorS <= n + i
      invariant r.log + Failed(InsertOps(c, xs[i..], o + i, n + i)) == s.log + Failed(InsertOps(c, xs, o, n))
    {
      var op := InsertOp(c, xs[i], o + i, n + i);
      StoredHead(c, r, xs, i, o, n);
      StepOk(c, r, Fail(op));
      FailedHead(c, r.log, xs, i, o, n);
      r := After(c, r, Fail(op));
      i := i + 1;
    }
    NoFrames(r.log, []);
    NoInserts(c, xs[i..], o + i, n + i);
  }

  lemma {:induction false} NoInserts(c: Codec, xs: seq<Input>, o: Offset, n: nat)
    requires xs == []
    ensures InsertOps(c, xs, o, n) == [] && Metas(xs, n) == {}
  {
  }

  /** The next insert of a batch is admissible. */
  lemma {:induction false} StoredHead(c: Codec, s: Store, xs: seq<Input>, i: nat, o: Offset, n: nat)
    requires i < |xs| && s.sys.pending == [] && !s.sys.recovering
    requires NewIds(s.sys.mem.records, xs) && Stored(s.sys.disk.slots, xs[i..], o + i)
    requires s.sys.floorO <= o + i && s.sys.floorS <= n + i
    requires o + |xs| <= s.sys.mem.nextOffset && o + |xs| <= s.sys.mem.count && n + |xs| <= s.sys.mem.nextSeq
    ensures Can(c, s, Fail(InsertOp(c, xs[i], o + i, n + i)))
    ensures Stored(s.sys.disk.slots, xs[i + 1..], o + i + 1)
  {
    assert xs[i..][0] == xs[i] && xs[i..][1..] == xs[i + 1..];
  }

  lemma {:induction false} FailedHead(c: Codec, log: seq<Entry>, xs: seq<Input>, i: nat, o: Offset, n: nat)
    requires i < |xs|
    ensures log + Failed(InsertOps(c, xs[i..], o + i, n + i))
            == log + [Entry(InsertOp(c, xs[i], o + i, n + i), Undone)] + Failed(InsertOps(c, xs[i + 1..], o + i + 1, n + i + 1))
  {
    assert xs[i..][1..] == xs[i + 1..];
    var rest := InsertOps(c, xs[i + 1..], o + i + 1, n + i + 1);
    assert InsertOps(c, xs[i..], o + i, n + i) == [InsertOp(c, xs[i], o + i, n + i)] + rest;
    assert Failed([InsertOp(c, xs[i], o + i, n + i)] + rest) == [Entry(InsertOp(c, xs[i], o + i, n + i), Undone)] + Failed(rest);
  }

  predicate LiveId(t: Table, id: string)
  {
    exists o :: o in t && t[o].id == id
  }

  /** The inputs a batch insert keeps: first occurrence of each id that is not live. */
  function NewOnes(t: Table, xs: seq<Input>, seen: set<string>): (r: seq<Input>)
  {
    if xs == [] then []
    else
      var x := xs[0];
      if x.id in seen || LiveId(t, x.id) then NewOnes(t, xs[1..], seen)
      else [x] + NewOnes(t, xs[1..], seen + {x.id})
  }

  /** `at` is, in order, the first position of every id that is not live. */
  ghost predicate FirstOfNew(t: Table, xs: seq<Input>, at: seq<nat>)
  {
    && (forall k :: 0 <= k < |at| ==> at[k] < |xs|)
    && (forall k, l :: 0 <= k < l < |at| ==> at[k] < at[l])
    && (forall i: nat :: i < |xs| ==>
          (i in at <==> !LiveId(t, xs[i].id) && forall j :: 0 <= j < i ==> xs[j].id != xs[i].id))
  }

  /** The live records grew by exactly those of the inputs at `at`, numbered from `n`. */
  ghost predicate Grew(before: set<Meta>, after: set<Meta>, xs: seq<Input>, at: seq<nat>, n: nat)
  {
    && (forall k :: 0 <= k < |at| ==> at[k] < |xs|)
    && (forall m :: m in before ==> m in after)
    && (forall k :: 0 <= k < |at| ==> Meta(xs[at[k]].id, n + k, xs[at[k]].text, xs[at[k]].scope, xs[at[k]].role) in after)
    && (forall m :: m in after && m !in before ==>
          exists k :: 0 <= k < |at| && m == Meta(xs[at[k]].id, n + k, xs[at[k]].text, xs[at[k]].scope, xs[at[k]].role))
  }

  /** Every id of the batch is live. */
  ghost predicate AllLive(live: set<Meta>, xs: seq<Input>)
  {
    forall x :: x in xs ==> exists m :: m in live && m.id == x.id
  }

  lemma {:induction false} GrewBy(before: set<Meta>, after: set<Meta>, xs: seq<Input>, at: seq<nat>, n: nat)
    requires (forall k :: 0 <= k < |at| ==> at[k] < |xs|) && after == before + Metas(InputsAt(xs, at), n)
    ensures Grew(before, after, xs, at, n)
  {
    hide Metas;
    var news := InputsAt(xs, at);
    forall k | 0 <= k < |at|
      ensures Meta(xs[at[k]].id, n + k, xs[at[k]].text, xs[at[k]].scope, xs[at[k]].role) in after
    {
      var x := news[k];
      MetasIff(news, n, Meta(x.id, n + k, x.text, x.scope, x.role));
    }
    forall m | m in after && m !in before
      ensures exists k :: 0 <= k < |at| && m == Meta(xs[at[k]].id, n + k, xs[at[k]].text, xs[at[k]].scope, xs[at[k]].role)
    {
      MetasIff(news, n, m);
      var k :| 0 <= k < |news| && m == Meta(news[k].id, n + k, news[k].text, news[k].scope, news[k].role);
      assert news[k] == xs[at[k]];
    }
  }

  function InputsAt(xs: seq<Input>, at: seq<nat>): (r: seq<Input>)
    requires forall k :: 0 <= k < |at| ==> at[k] < |xs|
    ensures |r| == |at| && forall k :: 0 <= k < |at| ==> r[k] == xs[at[k]]
  {
    seq(|at|, k requires 0 <= k < |at| => xs[at[k]])
  }

  /** Position `i` is the first of its id, which is neither live nor `seen`. */
  ghost predicate FirstAt(t: Table, xs: seq<Input>, seen: set<string>, i: nat)
    requires i < |xs|
  {
    xs[i].id !in seen && !LiveId(t, xs[i].id) && forall j :: 0 <= j < i ==> xs[j].id != xs[i].id
  }

  /** Which inputs a batch insert keeps, by position. */
  lemma {:induction false} NewOnesAt(t: Table, xs: seq<Input>, seen: set<string>) returns (at: seq<nat>)
    ensures forall k :: 0 <= k < |at| ==> at[k] < |xs|
    ensures NewOnes(t, xs, seen) == InputsAt(xs, at) && forall k, l :: 0 <= k < l < |at| ==> at[k] < at[l]
    ensures forall i: nat :: i < |xs| ==> (i in at <==> FirstAt(t, xs, seen, i))
    decreases |xs|
  {
    hide LiveId, FirstAt;
    at := [];
    if xs != [] {
      var x, rest := xs[0], xs[1..];
      var skip := x.id in seen || LiveId(t, x.id);
      var tail := NewOnesAt(t, rest, if skip then seen else seen + {x.id});
      at := (if skip then [] else [0]) + Later(tail);
      forall i: nat | i < |xs|
        ensures i in at <==> FirstAt(t, xs, seen, i)
      {
        FirstCons(t, xs, seen, i);
        if i > 0 {
          LaterIff(tail, i);
        }
      }
    }
  }

  lemma {:induction false} FirstCons(t: Table, xs: seq<Input>, seen: set<string>, i: nat)
    requires i < |xs|
    ensures var skip := xs[0].id in seen || LiveId(t, xs[0].id);
            FirstAt(t, xs, seen, i)
            <==> if i == 0 then !skip else FirstAt(t, xs[1..], if skip then seen else seen + {xs[0].id}, i - 1)
  {
    hide LiveId;
    if i > 0 {
      var rest := xs[1..];
      assert rest[i - 1] == xs[i] && forall j :: 0 <= j < i - 1 ==> rest[j] == xs[j + 1];
      assert (forall j :: 0 <= j < i ==> xs[j].id != xs[i].id)
             <==> xs[0].id != xs[i].id && forall j :: 0 <= j < i - 1 ==> rest[j].id != xs[i].id;
    }
  }

  /** Positions counted from one place further back. */
  function Later(at: seq<nat>): (r: seq<nat>)
    ensures |r| == |at| && forall k :: 0 <= k < |at| ==> r[k] == at[k] + 1
  {
    seq(|at|, k requires 0 <= k < |at| => at[k] + 1)
  }

  lemma {:induction false} LaterIff(at: seq<nat>, i: nat)
    requires i > 0
    ensures i in Later(at) <==> i - 1 in at
  {
    if i - 1 in at {
      var k :| 0 <= k < |at| && at[k] == i - 1;
      assert Later(at)[k] == i;
    }
  }

  lemma {:induction false} FirstIsNew(t: Table, xs: seq<Input>, at: seq<nat>)
    requires forall k :: 0 <= k < |at| ==> at[k] < |xs|
    requires forall k, l :: 0 <= k < l < |at| ==> at[k] < at[l]
    requires forall i: nat :: i < |xs| ==> (i in at <==> FirstAt(t, xs, {}, i))
    ensures FirstOfNew(t, xs, at)
  {
    hide LiveId;
  }

  /** After the new ones are stored, every id of the batch is live. */
  lemma {:induction false} AllHaveIds(t: Table, xs: seq<Input>, at: seq<nat>, after: Table, n: nat)
    requires FirstOfNew(t, xs, at) && after.Values == t.Values + Metas(InputsAt(xs, at), n)
    ensures AllLive(after.Values, xs)
  {
    hide LiveId, Metas;
    forall x | x in xs
      ensures exists m :: m in after.Values && m.id == x.id
    {
      var i :| 0 <= i < |xs| && xs[i] == x;
      HasItsId(t, xs, at, after, n, i);
    }
  }

  lemma {:induction false} HasItsId(t: Table, xs: seq<Input>, at: seq<nat>, after: Table, n: nat, i: nat)
    requires FirstOfNew(t, xs, at) && after.Values == t.Values + Metas(InputsAt(xs, at), n) && i < |xs|
    ensures exists m :: m in after.Values && m.id == xs[i].id
    decreases i
  {
    hide Metas;
    if LiveId(t, xs[i].id) {
      var o :| o in t && t[o].id == xs[i].id;
      assert t[o] in t.Values;
    } else if i in at {
      var k :| 0 <= k < |at| && at[k] == i;
      var x := InputsAt(xs, at)[k];
      MetasIff(InputsAt(xs, at), n, Meta(x.id, n + k, x.text, x.scope, x.role));
    } else {
      var j :| 0 <= j < i && xs[j].id == xs[i].id;
      HasItsId(t, xs, at, after, n, j);
    }
  }

  lemma {:induction false} FreshIsNew(t: Table, xs: seq<Input>, seen: set<string>)
    ensures var r := NewOnes(t, xs, seen);
            DistinctIds(r) && NewIds(t, r) && forall x :: x in r ==> x in xs && x.id !in seen
    decreases |xs|
  {
    if xs != [] {
      FreshIsNew(t, xs[1..], seen);
      FreshIsNew(t, xs[1..], seen + {xs[0].id});
    }
  }

  lemma {:induction false} ChainLower(c: Codec, slots: Slots, mem: Cache, t: Table, ops: seq<WalOp>, o: nat, n: nat, lo: nat, ls: nat)
    requires Chain(c, slots, mem, t, ops, o, n) && lo <= o && ls <= n
    ensures Chain(c, slots, mem, t, ops, lo, ls)
    decreases |ops|
  {
    if ops != [] && !Puts(ops[0]) {
      ChainLower(c, slots, mem, Apply1(t, ops[0]), ops[1..], o, n, lo, ls);
    }
  }

  /** `k` allocations of an offset and a sequence number. */
  method Reserved(c: Codec, s: Store, k: nat) returns (r: Store)
    requires StoreInv(c, s) && s.sys.pending == [] && !s.sys.recovering
    ensures StoreInv(c, r)
    ensures r == s.(sys := s.sys.(mem := s.sys.mem.(nextOffset := s.sys.mem.nextOffset + k, nextSeq := s.sys.mem.nextSeq + k)))
  {
    hide StoreInv;
    r := s;
    for i := 0 to k
      invariant StoreInv(c, r)
      invariant r == s.(sys := s.sys.(mem := s.sys.mem.(nextOffset := s.sys.mem.nextOffset + i, nextSeq := s.sys.mem.nextSeq + i)))
    {
      StepOk(c, r, Do(Reserve));
      r := After(c, r, Do(Reserve));
    }
  }

  /** The vector writes of a batch. */
  method PutAll(c: Codec, s: Store, xs: seq<Input>, o: Offset) returns (r: Store)
    requires StoreInv(c, s) && s.sys.pending == [] && !s.sys.recovering
    requires s.sys.floorO <= o && o + |xs| <= s.sys.mem.nextOffset
    ensures StoreInv(c, r) && Stored(r.sys.disk.slots, xs, o)
    ensures r == s.(sys := s.sys.(disk := s.sys.disk.(slots := r.sys.disk.slots), mem := s.sys.mem.(count := r.sys.mem.count)))
    ensures xs != [] ==> r.sys.mem.count >= o + |xs|
    ensures xs == [] ==> r == s
  {
    hide StoreInv;
    r := s;
    for i := 0 to |xs|
      invariant StoreInv(c, r) && Stored(r.sys.disk.slots, xs[..i], o)
      invariant r == s.(sys := s.sys.(disk := s.sys.disk.(slots := r.sys.disk.slots), mem := s.sys.mem.(count := r.sys.mem.count)))
      invariant i > 0 ==> r.sys.mem.count >= o + i
      invariant i == 0 ==> r == s
    {
      var x := Do(Put(o + i, xs[i].vector));
      StepOk(c, r, x);
      ghost var before := r.sys.disk.slots;
      r := After(c, r, x);
      StoredSnoc(before, xs[..i], o, xs[i]);
      assert xs[..i + 1] == xs[..i] + [xs[i]];
    }
    assert xs[..|xs|] == xs;
  }

  lemma {:induction false} StoredSnoc(slots: Slots, xs: seq<Input>, o: Offset, x: Input)
    requires Stored(slots, xs, o)
    ensures Stored(slots[o + |xs| := x.vector], xs + [x], o)
    decreases |xs|
  {
    if xs != [] {
      StoredSnoc(slots, xs[1..], o + 1, x);
      assert (xs + [x])[1..] == xs[1..] + [x];
    }
  }
}
