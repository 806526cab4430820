/**
  Recovery after a power loss without `sync_writes`: the log survives up to some frame,
  but any vector written since the last flush may be missing. Replay skips a frame whose
  vector is missing (crates/turbomemory_storage/src/engine/mod.rs, replay loop).
 */
module PowerLoss {
  import opened Records
  import opened Wal
  import opened Recovery
  import opened Engine

  /**
    Operations of a real run since the snapshot `t`: newer than it, each on live records,
    fresh offsets and consistent ids.
   */
  ghost predicate WellLogged(t: Table, ops: seq<WalOp>, lo: nat, last: nat)
    decreases |ops|
  {
    ops == [] ||
    (WellLogged1(t, ops[0], lo, last) && WellLogged(Apply1(t, ops[0]), ops[1..], LowOffset(ops[0], lo), last))
  }

  ghost predicate WellLogged1(t: Table, op: WalOp, lo: nat, last: nat)
  {
    match op
    case Insert(o, n, m, _) => o >= lo && n > last && forall a :: a in t ==> t[a].id != m.id
    case Delete(o) => o in t
    case Flush(_) => true
    case Replace(from, o, n, m, _) => from in t && o >= lo && n > last && t[from].id == m.id
  }

  /** Operations the snapshot `t` already holds; they are still in the log if the process died before clearing it. */
  ghost predicate Covered(t: Table, ops: seq<WalOp>, last: nat)
  {
    forall op :: op in ops ==> if Puts(op) then op.number <= last else op.Delete? ==> op.offset !in t
  }

  /** A log whose first `k` operations the snapshot covers, followed by those of a run since. */
  ghost predicate LogAfter(t: Table, ops: seq<WalOp>, k: nat, lo: nat, last: nat)
  {
    && k <= |ops| && Covered(t, ops[..k], last) && WellLogged(t, ops[k..], lo, last)
    && (forall o :: o in t ==> o < lo) && IdsUnique(t)
  }

  /** Covered operations replay as nothing. */
  lemma {:induction false} ReplaySince(c: Codec, slots: Slots, t: Table, ops: seq<WalOp>, k: nat, lo: nat, last: nat)
    requires LogAfter(t, ops, k, lo, last)
    ensures ReplayAll(c, slots, last, t, ops) == ReplayAll(c, slots, last, t, ops[k..])
  {
    hide WellLogged, IdsUnique, ReplayAll;
    assert ops == ops[..k] + ops[k..];
    ReplayConcat(c, slots, last, t, ops[..k], ops[k..]);
    ReplayOfStale(c, slots, last, t, ops[..k]);
  }

  /** Which records replay got wrong: `lost` should be live and are not, `revived` are live and should not be. */
  datatype Damage = Damage(lost: set<Offset>, revived: set<Offset>)

  /** Computed from the log and the vector checksums alone, one frame at a time. */
  function Damaged1(c: Codec, slots: Slots, d: Damage, op: WalOp): (r: Damage)
  {
    match op
    case Insert(o, _, _, _) => if Present(c, slots, op) then d else d.(lost := d.lost + {o})
    case Delete(o) => d.(lost := d.lost - {o})
    case Flush(_) => d
    case Replace(from, o, _, _, _) =>
      if Present(c, slots, op) then d.(lost := d.lost - {from})
      else Damage(d.lost - {from} + {o}, if from in d.lost then d.revived else d.revived + {from})
  }

  function Damaged(c: Codec, slots: Slots, d: Damage, ops: seq<WalOp>): (r: Damage)
    decreases |ops|
  {
    if ops == [] then d else Damaged(c, slots, Damaged1(c, slots, d, ops[0]), ops[1..])
  }

  /** The recovered table `r` is the intended table `p` without `lost` and with `revived`. */
  ghost predicate Off(p: Table, r: Table, d: Damage)
  {
    && d.lost <= p.Keys && d.revived !! p.Keys
    && r.Keys == p.Keys - d.lost + d.revived
    && (forall o :: o in r && o in p ==> r[o] == p[o])
  }

  lemma {:induction false} OffStep(c: Codec, slots: Slots, last: nat, p: Table, r: Table, d: Damage, op: WalOp, lo: nat)
    requires WellLogged1(p, op, lo, last) && Off(p, r, d)
    requires (forall o :: o in p || o in r ==> o < lo)
    ensures Off(Apply1(p, op), Replay1(c, slots, last, r, op), Damaged1(c, slots, d, op))
    ensures forall o :: o in Apply1(p, op) || o in Replay1(c, slots, last, r, op) ==> o < LowOffset(op, lo)
  {
  }

  lemma {:induction false} OffAll(c: Codec, slots: Slots, last: nat, p: Table, r: Table, d: Damage, ops: seq<WalOp>, lo: nat)
    requires WellLogged(p, ops, lo, last) && Off(p, r, d)
    requires forall o :: o in p || o in r ==> o < lo
    ensures Off(ApplyAll(p, ops), ReplayAll(c, slots, last, r, ops), Damaged(c, slots, d, ops))
    decreases |ops|
  {
    if ops != [] {
      hide Off, Apply1, Replay1, Damaged1;
      OffStep(c, slots, last, p, r, d, ops[0], lo);
      OffAll(c, slots, last, Apply1(p, ops[0]), Replay1(c, slots, last, r, ops[0]), Damaged1(c, slots, d, ops[0]),
             ops[1..], LowOffset(ops[0], lo));
    }
  }

  /**
    Recovery is point-in-time exactly when the log's own check comes out clean: no frame
    with a missing vector is left standing, and none of them replaced a record that was
    itself recovered.
   */
  lemma {:induction false} PointInTimeIff(c: Codec, slots: Slots, last: nat, t: Table, ops: seq<WalOp>, k: nat, lo: nat)
    requires LogAfter(t, ops, k, lo, last)
    ensures ReplayAll(c, slots, last, t, ops) == ApplyAll(t, ops[k..])
            <==> Damaged(c, slots, Damage({}, {}), ops[k..]) == Damage({}, {})
  {
    hide Damaged, ApplyAll, ReplayAll, WellLogged, Covered, IdsUnique;
    var since := ops[k..];
    var d := Damaged(c, slots, Damage({}, {}), since);
    var p, r := ApplyAll(t, since), ReplayAll(c, slots, last, t, since);
    ReplaySince(c, slots, t, ops, k, lo, last);
    OffAll(c, slots, last, t, t, Damage({}, {}), since, lo);
    if r == p {
      assert p.Keys == p.Keys - d.lost + d.revived;
      assert d.lost == {} && d.revived == {};
    }
    if d == Damage({}, {}) {
      assert r.Keys == p.Keys;
    }
  }
}
