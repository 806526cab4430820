/**
  The storage engine's durability protocol as a state machine
  (crates/turbomemory_storage/src/engine/mod.rs `open`, `flush`; engine/write.rs;
  metadata_store.rs).

  A write reserves an offset and a sequence number, writes the vector, appends its log
  frames, and applies them to the in-memory table. A flush stamps the vector count,
  writes the dirty records to the snapshot in one transaction, and clears the log. The
  process may die between any two of these steps, and inside an append; `Reboot` is the
  next `open`, which replays the log.
 */
module Engine {
  import opened Wrappers
  import opened Records
  import opened Wal
  import opened Recovery

  /** The redb snapshot. `written` is false until the first one commits. */
  datatype Snapshot = Snapshot(records: Table, nextOffset: nat, nextSeq: nat, last: nat, written: bool)

  /** What survives the process: snapshot, vector slots, stamped vector count, acknowledged log. */
  datatype Disk = Disk(snap: Snapshot, slots: Slots, count: nat, log: seq<WalOp>)

  /** The metadata cache and counters of the running process. */
  datatype Cache = Cache(records: Table, nextOffset: nat, nextSeq: nat, dirty: set<Offset>, count: nat)

  /**
    `pending` is the in-flight batch that has been appended to the log but not applied.
    `floorO` and `floorS` bound the offsets and numbers used so far. `journal` is the
    history of every operation that took effect. `recovering` holds between a replay and
    the end of the flush that follows it, when no write is admitted.
   */
  datatype Sys = Sys(disk: Disk, mem: Cache, pending: seq<WalOp>, floorO: nat, floorS: nat,
                     journal: seq<WalOp>, recovering: bool)

  datatype Event =
    | Reserve
    | Put(offset: Offset, vector: seq<Byte>)
    | Append(ops: seq<WalOp>)
    | Commit
    | Stamp
    | Save(upTo: nat)
    | Clear
    | Reboot(survived: nat)

  const EmptyStore: Sys := Sys(
    Disk(Snapshot(map[], 0, 1, 0, false), map[], 0, []),
    Cache(map[], 0, 1, {}, 0), [], 0, 1, [], false)

  // ----- admissible writes ---------------------------------------------------------

  ghost predicate IdsUnique(t: Table)
  {
    forall a, b :: a in t && b in t && t[a].id == t[b].id ==> a == b
  }

  /** The write path's guarantees for one operation, given the table it is applied to. */
  ghost predicate OpOk(c: Codec, slots: Slots, mem: Cache, t: Table, op: WalOp, lo: nat, ls: nat)
  {
    match op
    case Insert(o, n, m, _) => FreshOp(c, slots, mem, op, lo, ls) && forall a :: a in t ==> t[a].id != m.id
    case Delete(o) => o in t
    case Flush(_) => false
    case Replace(from, o, n, m, _) => FreshOp(c, slots, mem, op, lo, ls) && from in t && t[from].id == m.id
  }

  ghost predicate FreshOp(c: Codec, slots: Slots, mem: Cache, op: WalOp, lo: nat, ls: nat)
    requires Puts(op)
  {
    && lo <= op.offset < mem.nextOffset && op.offset < mem.count
    && ls <= op.number < mem.nextSeq && op.meta.insertSeq == op.number
    && Present(c, slots, op)
  }

  function LowOffset(op: WalOp, lo: nat): (r: nat)
  {
    if Puts(op) then op.offset + 1 else lo
  }

  function LowSeq(op: WalOp, ls: nat): (r: nat)
  {
    if Puts(op) then op.number + 1 else ls
  }

  /** Each operation is admissible where the ones before it left off. */
  ghost predicate Chain(c: Codec, slots: Slots, mem: Cache, t: Table, ops: seq<WalOp>, lo: nat, ls: nat)
    decreases |ops|
  {
    ops == [] ||
    (OpOk(c, slots, mem, t, ops[0], lo, ls)
     && Chain(c, slots, mem, Apply1(t, ops[0]), ops[1..], LowOffset(ops[0], lo), LowSeq(ops[0], ls)))
  }

  // ----- open -----------------------------------------------------------------------

  predicate Replays(op: WalOp, last: nat)
  {
    op.Delete? || Newer(op, last)
  }

  predicate AnyReplays(ops: seq<WalOp>, last: nat)
  {
    exists op :: op in ops && Replays(op, last)
  }

  function MaxOffset(ops: seq<WalOp>, last: nat): (r: nat)
    ensures forall op :: op in ops && Newer(op, last) ==> op.offset <= r
  {
    if ops == [] then 0
    else
      var m := MaxOffset(ops[..|ops| - 1], last);
      var op := ops[|ops| - 1];
      assert ops == ops[..|ops| - 1] + [op];
      if Newer(op, last) && op.offset > m then op.offset else m
  }

  function MaxSeq(ops: seq<WalOp>, last: nat): (r: nat)
    ensures r >= last
    ensures forall op :: op in ops && Puts(op) ==> op.number <= r
  {
    if ops == [] then last
    else
      var m := MaxSeq(ops[..|ops| - 1], last);
      var op := ops[|ops| - 1];
      assert ops == ops[..|ops| - 1] + [op];
      if Puts(op) && op.number > m then op.number else m
  }

  function Max(a: nat, b: nat): (r: nat)
  {
    if a < b then b else a
  }

  /** The recovered slots count as populated. */
  function RecoveredCount(c: Codec, slots: Slots, last: nat, count: nat, ops: seq<WalOp>): (r: nat)
    ensures r >= count
    ensures forall op :: op in ops && Newer(op, last) && Present(c, slots, op) ==> op.offset < r
  {
    if ops == [] then count
    else
      var m := RecoveredCount(c, slots, last, count, ops[..|ops| - 1]);
      var op := ops[|ops| - 1];
      assert ops == ops[..|ops| - 1] + [op];
      if Newer(op, last) && Present(c, slots, op) then Max(m, op.offset + 1) else m
  }

  /** The in-memory state `open` builds from the disk. */
  function Loaded(c: Codec, d: Disk): (m: Cache)
  {
    var last := d.snap.last;
    var replayed := AnyReplays(d.log, last);
    Cache(ReplayAll(c, d.slots, last, d.snap.records, d.log),
          if replayed then Max(d.snap.nextOffset, MaxOffset(d.log, last) + 1) else d.snap.nextOffset,
          if replayed then Max(d.snap.nextSeq, MaxSeq(d.log, last) + 1) else d.snap.nextSeq,
          Touched(c, d.slots, last, d.log),
          RecoveredCount(c, d.slots, last, d.count, d.log))
  }

  datatype OpenError = MetadataMissing | VectorsMissing

  /** `open`'s verdict on the disk. */
  function OpenCheck(c: Codec, d: Disk): (r: Result<Cache, OpenError>)
  {
    var m := Loaded(c, d);
    if !d.snap.written && !AnyReplays(d.log, d.snap.last) && d.count > 0 then Err(MetadataMissing)
    else if exists o :: o in m.records && o >= m.count then Err(VectorsMissing)
    else Ok(m)
  }

  // ----- flush -----------------------------------------------------------------------

  /** `write_snapshot`: only dirty entries are written. */
  function Merged(stored: Table, live: Table, dirty: set<Offset>): (r: Table)
  {
    map o | o in stored.Keys + live.Keys && (if o in dirty then o in live else o in stored) ::
      if o in dirty then live[o] else stored[o]
  }

  predicate NothingToSave(s: Sys, upTo: nat)
  {
    s.mem.dirty == {} && s.disk.snap.written && s.disk.snap.last == upTo && s.mem.records == map[]
  }

  /** `MetadataStore::flush`, with its early return when there is nothing to write. */
  function Saved(s: Sys, upTo: nat): (r: Sys)
  {
    var snap := s.disk.snap;
    if NothingToSave(s, upTo) then s
    else
      s.(disk := s.disk.(snap := Snapshot(Merged(snap.records, s.mem.records, s.mem.dirty),
                                          s.mem.nextOffset, s.mem.nextSeq, upTo, true)),
         mem := s.mem.(dirty := {}), floorO := s.mem.nextOffset, floorS := s.mem.nextSeq)
  }

  // ----- the machine -------------------------------------------------------------------

  ghost predicate Enabled(c: Codec, s: Sys, e: Event)
  {
    match e
    case Reserve => !s.recovering && s.pending == []
    case Put(o, _) => !s.recovering && s.pending == [] && s.floorO <= o < s.mem.nextOffset
    case Append(ops) =>
      !s.recovering && s.pending == [] && Chain(c, s.disk.slots, s.mem, s.mem.records, ops, s.floorO, s.floorS)
    case Commit => !s.recovering
    case Stamp => true
    case Save(upTo) =>
      s.pending == [] && s.disk.count >= s.mem.count && s.disk.snap.last <= upTo < s.mem.nextSeq
      && (forall op :: op in s.disk.log && Puts(op) ==> op.number <= upTo)
    case Clear => s.pending == [] && s.disk.snap.written && s.disk.snap.records == s.mem.records
    case Reboot(k) => k <= |s.pending| && OpenCheck(c, Crashed(s, k)).Ok?
  }

  /** The disk after the process dies with `k` frames of the in-flight batch in the log. */
  function Crashed(s: Sys, k: nat): (d: Disk)
    requires k <= |s.pending|
  {
    s.disk.(log := s.disk.log + s.pending[..k])
  }

  function Next(c: Codec, s: Sys, e: Event): (r: Sys)
    requires Enabled(c, s, e)
  {
    match e
    case Reserve => s.(mem := s.mem.(nextOffset := s.mem.nextOffset + 1, nextSeq := s.mem.nextSeq + 1))
    case Put(o, v) =>
      s.(disk := s.disk.(slots := s.disk.slots[o := v]), mem := s.mem.(count := Max(s.mem.count, o + 1)))
    case Append(ops) => s.(pending := ops)
    case Commit =>
      s.(disk := s.disk.(log := s.disk.log + s.pending),
         mem := s.mem.(records := ApplyAll(s.mem.records, s.pending),
                       dirty := s.mem.dirty + Touched(c, s.disk.slots, 0, s.pending)),
         pending := [], floorO := s.mem.nextOffset, floorS := s.mem.nextSeq,
         journal := s.journal + s.pending)
    case Stamp => s.(disk := s.disk.(count := s.mem.count))
    case Save(upTo) => Saved(s, upTo)
    case Clear => s.(disk := s.disk.(log := []), recovering := false)
    case Reboot(k) =>
      var d := Crashed(s, k);
      var m := Loaded(c, d);
      Sys(d, m, [], m.nextOffset, m.nextSeq, s.journal + s.pending[..k], AnyReplays(d.log, d.snap.last))
  }

  // ----- the invariant --------------------------------------------------------------------

  ghost predicate LogOk(c: Codec, s: Sys)
  {
    forall op :: op in s.disk.log ==>
      && (Puts(op) ==> 1 <= op.number < s.floorS)
      && (Newer(op, s.disk.snap.last) ==> op.offset < s.floorO && Present(c, s.disk.slots, op))
      && (op.Delete? ==> op.offset !in s.mem.records && (!s.recovering ==> op.offset < s.floorO))
      && !op.Flush?
  }

  ghost predicate CountersOk(s: Sys)
  {
    && s.floorO <= s.mem.nextOffset && s.floorS <= s.mem.nextSeq
    && s.disk.snap.last < s.floorS && s.disk.snap.last < s.disk.snap.nextSeq
    && 1 <= s.floorS && s.disk.count <= s.mem.count
    && (forall o :: o in s.mem.records ==> o < s.floorO && o < s.mem.count)
    && (forall o :: o in s.disk.snap.records ==> o < s.disk.snap.nextOffset && o < s.disk.count)
  }

  ghost predicate FreshDisk(s: Sys)
  {
    !s.disk.snap.written ==>
      s.disk.snap.records == map[] && s.disk.snap.last == 0 && s.disk.log == s.journal
  }

  ghost predicate Inv(c: Codec, s: Sys)
  {
    && ReplayAll(c, s.disk.slots, s.disk.snap.last, s.disk.snap.records, s.disk.log) == s.mem.records
    && Chain(c, s.disk.slots, s.mem, s.mem.records, s.pending, s.floorO, s.floorS)
    && LogOk(c, s) && CountersOk(s) && FreshDisk(s)
    && (forall o :: o !in s.mem.dirty ==> Agree(s.disk.snap.records, s.mem.records, o))
    && IdsUnique(s.mem.records)
    && ApplyAll(map[], s.journal) == s.mem.records
    && (s.recovering ==> s.pending == [])
  }
}
