/**
  Replaying the log over a snapshot (crates/turbomemory_storage/src/engine/mod.rs, the
  replay loop of `open`) against what the running engine does with the same operations.
 */
module Recovery {
  import opened Wrappers
  import opened Records
  import opened Wal

  type Table = map<Offset, Meta>
  type Slots = map<Offset, seq<Byte>>

  predicate Puts(op: WalOp)
  {
    op.Insert? || op.Replace?
  }

  /** What a logged operation does to the live records. */
  function Apply1(t: Table, op: WalOp): (r: Table)
  {
    match op
    case Insert(o, _, m, _) => t[o := m]
    case Delete(o) => t - {o}
    case Flush(_) => t
    case Replace(from, o, _, m, _) => (t - {from})[o := m]
  }

  function ApplyAll(t: Table, ops: seq<WalOp>): (r: Table)
    decreases |ops|
  {
    if ops == [] then t else ApplyAll(Apply1(t, ops[0]), ops[1..])
  }

  /** `VectorStore::recover` accepts the slot the operation points at. */
  predicate Present(c: Codec, slots: Slots, op: WalOp)
    requires Puts(op)
  {
    && op.offset in slots
    && var slot := slots[op.offset];
       match op
       case Insert(_, _, _, Some(crc)) => c.crc(slot) == crc
       case Insert(_, _, _, None) => c.plausible(slot)
       case Replace(_, _, _, _, crc) => c.crc(slot) == crc
  }

  /** Newer than the snapshot, so replay looks at it. */
  predicate Newer(op: WalOp, last: nat)
  {
    Puts(op) && op.number > last
  }

  function Replay1(c: Codec, slots: Slots, last: nat, t: Table, op: WalOp): (r: Table)
  {
    if Puts(op) then
      if op.number > last && Present(c, slots, op) then Apply1(t, op) else t
    else Apply1(t, op)
  }

  function ReplayAll(c: Codec, slots: Slots, last: nat, t: Table, ops: seq<WalOp>): (r: Table)
    decreases |ops|
  {
    if ops == [] then t
    else ReplayAll(c, slots, last, Replay1(c, slots, last, t, ops[0]), ops[1..])
  }

  /** The offsets replay marks dirty. */
  function Touches(c: Codec, slots: Slots, last: nat, op: WalOp): (r: set<Offset>)
  {
    match op
    case Insert(o, n, _, _) => if n > last && Present(c, slots, op) then {o} else {}
    case Delete(o) => {o}
    case Flush(_) => {}
    case Replace(from, o, n, _, _) => if n > last && Present(c, slots, op) then {from, o} else {}
  }

  function Touched(c: Codec, slots: Slots, last: nat, ops: seq<WalOp>): (r: set<Offset>)
  {
    if ops == [] then {} else Touches(c, slots, last, ops[0]) + Touched(c, slots, last, ops[1..])
  }

  ghost predicate Agree(t: Table, u: Table, o: Offset)
  {
    (o in t <==> o in u) && (o in t ==> t[o] == u[o])
  }

  lemma {:induction false} ReplayTouchesOnly(c: Codec, slots: Slots, last: nat, t: Table, ops: seq<WalOp>, o: Offset)
    requires o !in Touched(c, slots, last, ops)
    ensures Agree(t, ReplayAll(c, slots, last, t, ops), o)
    decreases ops
  {
    if ops != [] {
      ReplayTouchesOnly(c, slots, last, Replay1(c, slots, last, t, ops[0]), ops[1..], o);
    }
  }

  lemma {:induction false} ApplyConcat(t: Table, a: seq<WalOp>, b: seq<WalOp>)
    ensures ApplyAll(t, a + b) == ApplyAll(ApplyAll(t, a), b)
    decreases a
  {
    if a == [] {
      assert a + b == b;
    } else {
      assert (a + b)[1..] == a[1..] + b;
      ApplyConcat(Apply1(t, a[0]), a[1..], b);
    }
  }

  lemma {:induction false} ReplayConcat(c: Codec, slots: Slots, last: nat, t: Table, a: seq<WalOp>, b: seq<WalOp>)
    ensures ReplayAll(c, slots, last, t, a + b)
            == ReplayAll(c, slots, last, ReplayAll(c, slots, last, t, a), b)
    decreases a
  {
    if a == [] {
      assert a + b == b;
    } else {
      assert (a + b)[1..] == a[1..] + b;
      ReplayConcat(c, slots, last, Replay1(c, slots, last, t, a[0]), a[1..], b);
    }
  }

  /** Where every vector is present and newer than the snapshot, replay is what the engine did. */
  lemma {:induction false} ReplayIsApply(c: Codec, slots: Slots, last: nat, t: Table, ops: seq<WalOp>)
    requires forall op :: op in ops && Puts(op) ==> op.number > last && Present(c, slots, op)
    ensures ReplayAll(c, slots, last, t, ops) == ApplyAll(t, ops)
    decreases ops
  {
    if ops != [] {
      assert ops[0] in ops;
      ReplayIsApply(c, slots, last, Apply1(t, ops[0]), ops[1..]);
    }
  }

  /** Operations the snapshot already covers, and deletions of absent records, replay as nothing. */
  lemma {:induction false} ReplayOfStale(c: Codec, slots: Slots, last: nat, t: Table, ops: seq<WalOp>)
    requires forall op :: op in ops ==> if Puts(op) then op.number <= last else op.Delete? ==> op.offset !in t
    ensures ReplayAll(c, slots, last, t, ops) == t
    decreases ops
  {
    if ops != [] {
      assert ops[0] in ops;
      assert Replay1(c, slots, last, t, ops[0]) == t;
      ReplayOfStale(c, slots, last, t, ops[1..]);
    }
  }

  /** A record that replay leaves behind was in the snapshot or was put by a newer operation. */
  lemma {:induction false} ReplaySource(c: Codec, slots: Slots, last: nat, t: Table, ops: seq<WalOp>, o: Offset)
    requires o in ReplayAll(c, slots, last, t, ops)
    ensures o in t || exists op :: op in ops && Newer(op, last) && Present(c, slots, op) && op.offset == o
    decreases ops
  {
    if ops != [] {
      var u := Replay1(c, slots, last, t, ops[0]);
      ReplaySource(c, slots, last, u, ops[1..], o);
      if o !in u {
        var op :| op in ops[1..] && Newer(op, last) && Present(c, slots, op) && op.offset == o;
        assert op in ops;
      } else if o !in t {
        assert ops[0] in ops && Newer(ops[0], last) && Present(c, slots, ops[0]) && ops[0].offset == o;
      }
    }
  }

  /**
    A record that replay adds to the snapshot, or changes in it, was logged after it, and
    its slot is there and passes the check: the bytes have the logged checksum, or look like
    a vector where none was logged.
   */
  lemma {:induction false} AddedIsChecked(c: Codec, slots: Slots, last: nat, t: Table, ops: seq<WalOp>, o: Offset)
    requires var r := ReplayAll(c, slots, last, t, ops); o in r && !(o in t && t[o] == r[o])
    ensures o in slots
    ensures exists op ::
              && op in ops && Puts(op) && op.number > last && op.offset == o
              && op.meta == ReplayAll(c, slots, last, t, ops)[o]
              && (op.Insert? && op.crc.Some? ==> c.crc(slots[o]) == op.crc.value)
              && (op.Insert? && op.crc.None? ==> c.plausible(slots[o]))
              && (op.Replace? ==> c.crc(slots[o]) == op.newCrc)
    decreases ops
  {
    if ops != [] {
      var u := Replay1(c, slots, last, t, ops[0]);
      if o in u && u[o] == ReplayAll(c, slots, last, t, ops)[o] {
        assert ops[0] in ops && Puts(ops[0]) && ops[0].offset == o;
      } else {
        AddedIsChecked(c, slots, last, u, ops[1..], o);
        assert forall op :: op in ops[1..] ==> op in ops;
      }
    }
  }

  /**
    An insert or update whose slot is missing, or does not pass the check, might as well not
    have been logged; one that passes is applied.
   */
  lemma {:induction false} UncheckedIsSkipped(c: Codec, slots: Slots, last: nat, t: Table, a: seq<WalOp>, op: WalOp, b: seq<WalOp>)
    requires Puts(op) && op.number > last
    ensures var passes := op.offset in slots && (if op.Replace? then c.crc(slots[op.offset]) == op.newCrc
                                                 else if op.crc.Some? then c.crc(slots[op.offset]) == op.crc.value
                                                 else c.plausible(slots[op.offset]));
            ReplayAll(c, slots, last, t, a + [op] + b)
            == if passes then ReplayAll(c, slots, last, Apply1(ReplayAll(c, slots, last, t, a), op), b)
               else ReplayAll(c, slots, last, t, a + b)
  {
    hide ReplayAll;
    assert a + [op] + b == a + ([op] + b);
    ReplayConcat(c, slots, last, t, a, [op] + b);
    ReplayConcat(c, slots, last, t, a, b);
    ReplayCons(c, slots, last, ReplayAll(c, slots, last, t, a), op, b);
  }

  lemma {:induction false} ReplayCons(c: Codec, slots: Slots, last: nat, t: Table, op: WalOp, b: seq<WalOp>)
    ensures ReplayAll(c, slots, last, t, [op] + b) == ReplayAll(c, slots, last, Replay1(c, slots, last, t, op), b)
  {
    assert ([op] + b)[1..] == b;
  }

  /** Replay depends on the slots only through what it recovers. */
  lemma {:induction false} ReplaySlots(c: Codec, a: Slots, b: Slots, last: nat, t: Table, ops: seq<WalOp>)
    requires forall op :: op in ops && Newer(op, last) ==> Present(c, a, op) == Present(c, b, op)
    ensures ReplayAll(c, a, last, t, ops) == ReplayAll(c, b, last, t, ops)
    decreases ops
  {
    if ops != [] {
      assert ops[0] in ops;
      ReplaySlots(c, a, b, last, Replay1(c, a, last, t, ops[0]), ops[1..]);
    }
  }
}
