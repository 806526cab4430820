/**
  What a power loss does to the live records, read off the log and the vector checksums
  alone (crates/turbomemory_storage/src/engine/mod.rs, replay loop): exactly when a memory
  returns, when two live records share an id, and when recovery is a point in time.
 */
module LostVectors {
  import opened Records
  import opened Wal
  import opened Recovery
  import opened Engine
  import opened PowerLoss

  /** A log since the snapshot `start`, and the vector slots that survived. */
  datatype Loss = Loss(codec: Codec, slots: Slots, last: nat, start: Table, ops: seq<WalOp>, lo: nat) {
    ghost predicate Valid()
    {
      WellLogged(start, ops, lo, last) && (forall o :: o in start ==> o < lo) && IdsUnique(start)
    }

    /** The live records after the first `n` operations, ... */
    ghost function Meant(n: nat): (t: Table)
      requires n <= |ops|
    {
      ApplyAll(start, ops[..n])
    }

    /** ... and what replaying them recovers. */
    ghost function Found(n: nat): (t: Table)
      requires n <= |ops|
    {
      ReplayAll(codec, slots, last, start, ops[..n])
    }

    /** All offsets in use after `n` operations are below this. */
    ghost function Low(n: nat): (r: nat)
      requires n <= |ops|
    {
      if n == 0 then lo else LowOffset(ops[n - 1], Low(n - 1))
    }

    /** Operation `i` stores a record whose vector did not survive. */
    predicate Missing(i: nat)
      requires i < |ops|
    {
      Puts(ops[i]) && !Present(codec, slots, ops[i])
    }

    /** Offset `o` was stored by one of the first `n` operations, without its vector. */
    ghost predicate MissingPut(n: nat, o: Offset)
      requires n <= |ops|
    {
      exists j: nat :: j < n && Missing(j) && ops[j].offset == o
    }

    /** Update `i` has no vector, but the record it replaced does: that record comes back. */
    ghost predicate Reviving(i: nat)
      requires i < |ops|
    {
      ops[i].Replace? && Missing(i) && !MissingPut(i, ops[i].from)
    }

    /** Operation `m` takes offset `o` out of the recovered records. */
    predicate Removes(m: nat, o: Offset)
      requires m < |ops|
    {
      match ops[m]
      case Delete(x) => x == o
      case Replace(from, _, _, _, _) => from == o && !Missing(m)
      case _ => false
    }

    /** Operation `j` stores a record, with its vector, and nothing up to `n` removes it. */
    ghost predicate Standing(j: nat, n: nat)
      requires j < n <= |ops|
    {
      Puts(ops[j]) && !Missing(j) && forall m: nat :: j < m < n ==> !Removes(m, ops[j].offset)
    }
  }

  // ----- one operation at a time -------------------------------------------------------------

  lemma {:induction false} TakeSnoc<T>(s: seq<T>, n: nat)
    requires n < |s|
    ensures s[..n + 1] == s[..n] + [s[n]]
  {
  }

  lemma {:induction false} Step(w: Loss, n: nat)
    requires n < |w.ops|
    ensures w.Meant(n + 1) == Apply1(w.Meant(n), w.ops[n])
    ensures w.Found(n + 1) == Replay1(w.codec, w.slots, w.last, w.Found(n), w.ops[n])
  {
    hide Apply1, Replay1;
    TakeSnoc(w.ops, n);
    ApplyConcat(w.start, w.ops[..n], [w.ops[n]]);
    ReplayConcat(w.codec, w.slots, w.last, w.start, w.ops[..n], [w.ops[n]]);
    OneApplied(w.Meant(n), w.ops[n]);
    OneReplayed(w.codec, w.slots, w.last, w.Found(n), w.ops[n]);
  }

  lemma {:induction false} OneApplied(t: Table, op: WalOp)
    ensures ApplyAll(t, [op]) == Apply1(t, op)
  {
    assert [op][1..] == [];
  }

  lemma {:induction false} OneReplayed(c: Codec, slots: Slots, last: nat, t: Table, op: WalOp)
    ensures ReplayAll(c, slots, last, t, [op]) == Replay1(c, slots, last, t, op)
  {
    assert [op][1..] == [];
  }

  lemma {:induction false} Begin(w: Loss)
    ensures w.Meant(0) == w.start == w.Found(0) && w.Low(0) == w.lo
  {
    assert w.ops[..0] == [];
  }

  /** The rest of a well-formed log is well formed from where the first `n` operations lead. */
  lemma {:induction false} RestLogged(t: Table, ops: seq<WalOp>, lo: nat, last: nat, n: nat)
    requires WellLogged(t, ops, lo, last) && n <= |ops|
    ensures WellLogged(ApplyAll(t, ops[..n]), ops[n..], LowAt(ops, lo, n), last)
    decreases n
  {
    hide Apply1, LowOffset, WellLogged1;
    if n == 0 {
      assert ops[..0] == [] && ops[0..] == ops;
    } else {
      RestLogged(Apply1(t, ops[0]), ops[1..], LowOffset(ops[0], lo), last, n - 1);
      assert ops[..n][1..] == ops[1..][..n - 1] && ops[1..][n - 1..] == ops[n..];
      LowFront(ops, lo, n);
    }
  }

  function LowAt(ops: seq<WalOp>, lo: nat, n: nat): (r: nat)
    requires n <= |ops|
  {
    if n == 0 then lo else LowOffset(ops[n - 1], LowAt(ops, lo, n - 1))
  }

  lemma {:induction false} LowFront(ops: seq<WalOp>, lo: nat, n: nat)
    requires 0 < n <= |ops|
    ensures LowAt(ops, lo, n) == LowAt(ops[1..], LowOffset(ops[0], lo), n - 1)
  {
    hide LowOffset;
    if n > 1 {
      LowFront(ops, lo, n - 1);
    }
  }

  lemma {:induction false} LowIs(w: Loss, n: nat)
    requires n <= |w.ops|
    ensures w.Low(n) == LowAt(w.ops, w.lo, n)
  {
    if n > 0 {
      LowIs(w, n - 1);
    }
  }

  lemma {:induction false} StepOk(w: Loss, n: nat)
    requires w.Valid() && n < |w.ops|
    ensures WellLogged1(w.Meant(n), w.ops[n], w.Low(n), w.last)
  {
    hide ApplyAll, WellLogged1, IdsUnique;
    RestLogged(w.start, w.ops, w.lo, w.last, n);
    LowIs(w, n);
    assert w.ops[n..][0] == w.ops[n];
  }

  /** Everything in use, recovered or meant, is below the mark, which only rises. */
  lemma {:induction false} AllBelow(w: Loss, n: nat)
    requires w.Valid() && n <= |w.ops|
    ensures forall o :: o in w.Meant(n) || o in w.Found(n) ==> o < w.Low(n)
    ensures w.Low(n) >= w.lo
    ensures forall j: nat :: j < n && Puts(w.ops[j]) ==> w.lo <= w.ops[j].offset < w.Low(n)
  {
    hide Loss.Meant, Loss.Found, Loss.Valid, WellLogged1;
    if n == 0 {
      Begin(w);
      StartBelow(w);
    } else {
      AllBelow(w, n - 1);
      Step(w, n - 1);
      StepOk(w, n - 1);
      BelowStep(w, n - 1, w.Meant(n - 1), w.Found(n - 1));
    }
  }

  lemma {:induction false} StartBelow(w: Loss)
    requires w.Valid()
    ensures forall o :: o in w.start ==> o < w.lo
  {
  }

  lemma {:induction false} BelowStep(w: Loss, n: nat, p: Table, r: Table)
    requires n < |w.ops| && WellLogged1(p, w.ops[n], w.Low(n), w.last)
    requires forall o :: o in p || o in r ==> o < w.Low(n)
    ensures w.Low(n + 1) >= w.Low(n) && (Puts(w.ops[n]) ==> w.Low(n) <= w.ops[n].offset < w.Low(n + 1))
    ensures forall o :: o in Apply1(p, w.ops[n]) || o in Replay1(w.codec, w.slots, w.last, r, w.ops[n]) ==> o < w.Low(n + 1)
  {
  }

  lemma {:induction false} LowRises(w: Loss, m: nat, n: nat)
    requires w.Valid() && m <= n <= |w.ops|
    ensures w.Low(m) <= w.Low(n)
    decreases n - m
  {
    hide Loss.Valid, Loss.Meant, Loss.Found;
    if m < n {
      AllBelow(w, m);
      StepOk(w, m);
      BelowStep(w, m, w.Meant(m), w.Found(m));
      LowRises(w, m + 1, n);
    }
  }

  /** Ids stay unique in what was meant. */
  lemma {:induction false} MeantUnique(w: Loss, n: nat)
    requires w.Valid() && n <= |w.ops|
    ensures IdsUnique(w.Meant(n))
  {
    hide Loss.Meant;
    if n == 0 {
      Begin(w);
    } else {
      hide Loss.Valid;
      MeantUnique(w, n - 1);
      Step(w, n - 1);
      StepOk(w, n - 1);
    }
  }

  // ----- lost, revived, standing ----------------------------------------------------------------

  /** A live record is lost exactly when it was stored without its vector; otherwise it is recovered as it was. */
  lemma {:induction false} LostIff(w: Loss, n: nat, o: Offset)
    requires w.Valid() && n <= |w.ops| && o in w.Meant(n)
    ensures o !in w.Found(n) <==> w.MissingPut(n, o)
    ensures o in w.Found(n) ==> w.Found(n)[o] == w.Meant(n)[o]
  {
    hide Loss.Meant, Loss.Found, Loss.Valid, Loss.Low;
    if n == 0 {
      Begin(w);
    } else {
      var m := n - 1;
      Step(w, m);
      StepOk(w, m);
      AllBelow(w, m);
      if o in w.Meant(m) {
        LostIff(w, m, o);
      }
      MissingStep(w, m, o);
    }
  }

  lemma {:induction false} MissingStep(w: Loss, n: nat, o: Offset)
    requires n < |w.ops|
    ensures w.MissingPut(n + 1, o) <==> w.MissingPut(n, o) || (w.Missing(n) && w.ops[n].offset == o)
  {
  }

  /** A record that is gone stays gone from what was meant. */
  lemma {:induction false} GoneStays(w: Loss, m: nat, n: nat, o: Offset)
    requires w.Valid() && m <= n <= |w.ops| && o !in w.Meant(m) && o < w.Low(m)
    ensures o !in w.Meant(n)
    decreases n - m
  {
    hide Loss.Meant, Loss.Found, Loss.Valid, Loss.Low;
    if m < n {
      Step(w, m);
      StepOk(w, m);
      LowRises(w, m, m + 1);
      GoneStays(w, m + 1, n, o);
    }
  }

  /** A reviving update's old record is not meant to be live any more. */
  lemma {:induction false} RevivedIsGone(w: Loss, i: nat, n: nat)
    requires w.Valid() && i < n <= |w.ops| && w.ops[i].Replace?
    ensures w.ops[i].from !in w.Meant(n)
    ensures w.ops[i].from in w.Meant(i) && w.Meant(i)[w.ops[i].from].id == w.ops[i].meta.id && w.ops[i].from < w.Low(i)
  {
    hide Loss.Meant, Loss.Found, Loss.Valid, Loss.Low;
    Step(w, i);
    StepOk(w, i);
    AllBelow(w, i);
    LowRises(w, i, i + 1);
    GoneStays(w, i + 1, n, w.ops[i].from);
  }

  /** A record that is not meant to be live is recovered exactly when a reviving update replaced it. */
  lemma {:induction false} RevivedIff(w: Loss, n: nat, o: Offset)
    requires w.Valid() && n <= |w.ops| && o !in w.Meant(n)
    ensures o in w.Found(n) <==> exists i: nat :: i < n && w.Reviving(i) && w.ops[i].from == o
    ensures o in w.Found(n) ==> exists i: nat :: i < n && w.Reviving(i) && w.ops[i].from == o && w.Found(n)[o].id == w.ops[i].meta.id
  {
    hide Loss.Meant, Loss.Found, Loss.Valid, Loss.Low, Loss.Reviving;
    if n == 0 {
      Begin(w);
    } else {
      var m := n - 1;
      Step(w, m);
      StepOk(w, m);
      AllBelow(w, m);
      if o !in w.Meant(m) {
        RevivedIff(w, m, o);
        NotNamed(w, m, o);
      } else {
        LostIff(w, m, o);
        NoneBefore(w, m, o);
        RevivingIs(w, m);
      }
    }
  }

  lemma {:induction false} RevivingIs(w: Loss, i: nat)
    requires i < |w.ops|
    ensures w.Reviving(i) <==> w.ops[i].Replace? && w.Missing(i) && !w.MissingPut(i, w.ops[i].from)
  {
  }

  /** An operation does not revive a record that was already gone. */
  lemma {:induction false} NotNamed(w: Loss, m: nat, o: Offset)
    requires w.Valid() && m < |w.ops| && o !in w.Meant(m)
    ensures w.Reviving(m) ==> w.ops[m].from != o
  {
    hide Loss.Valid, Loss.Meant;
    StepOk(w, m);
  }

  /** No earlier update revived a record that is still live. */
  lemma {:induction false} NoneBefore(w: Loss, m: nat, o: Offset)
    requires w.Valid() && m <= |w.ops| && o in w.Meant(m)
    ensures forall i: nat :: i < m && w.Reviving(i) ==> w.ops[i].from != o
  {
    hide Loss.Valid, Loss.Meant;
    forall i: nat | i < m && w.Reviving(i)
      ensures w.ops[i].from != o
    {
      RevivedIsGone(w, i, m);
    }
  }

  /** A record stored with its vector is recovered exactly while nothing removed it. */
  lemma {:induction false} StandingIff(w: Loss, j: nat, n: nat)
    requires w.Valid() && j < n <= |w.ops| && Puts(w.ops[j]) && !w.Missing(j)
    ensures w.ops[j].offset in w.Found(n) <==> w.Standing(j, n)
    ensures w.ops[j].offset in w.Found(n) ==> w.Found(n)[w.ops[j].offset] == w.ops[j].meta
    decreases n
  {
    hide Loss.Meant, Loss.Found, Loss.Valid, Loss.Low;
    var m := n - 1;
    Step(w, m);
    StepOk(w, m);
    AllBelow(w, m);
    if m > j {
      StandingIff(w, j, m);
      assert w.Standing(j, n) <==> w.Standing(j, m) && !w.Removes(m, w.ops[j].offset);
    }
  }

  /** Every recovered record is an untouched one of the snapshot or one still standing in the log. */
  lemma {:induction false} FoundSource(w: Loss, n: nat, o: Offset)
    requires w.Valid() && n <= |w.ops| && o in w.Found(n)
    ensures o < w.lo ==> o in w.start && w.Found(n)[o] == w.start[o]
    ensures o >= w.lo ==> exists j: nat :: j < n && Puts(w.ops[j]) && w.ops[j].offset == o && w.Standing(j, n)
    decreases n
  {
    hide Loss.Meant, Loss.Found, Loss.Valid, Loss.Low, Loss.Standing;
    if n == 0 {
      Begin(w);
      StartBelow(w);
    } else {
      var m := n - 1;
      Step(w, m);
      StepOk(w, m);
      AllBelow(w, m);
      if o in w.Found(m) {
        FoundSource(w, m, o);
        if o >= w.lo {
          var j: nat :| j < m && Puts(w.ops[j]) && w.ops[j].offset == o && w.Standing(j, m);
          StandingPresent(w, j, m);
          StandingIff(w, j, n);
        }
      } else {
        StandingIff(w, m, n);
      }
    }
  }

  lemma {:induction false} StandingPresent(w: Loss, j: nat, n: nat)
    requires j < n <= |w.ops| && w.Standing(j, n)
    ensures Puts(w.ops[j]) && !w.Missing(j)
  {
  }

  /** What is recovered in the end, and was in use before, was recovered then, with the same content. */
  lemma {:induction false} FoundBefore(w: Loss, m: nat, n: nat, o: Offset)
    requires w.Valid() && m <= n <= |w.ops| && o in w.Found(n) && o < w.Low(m)
    ensures o in w.Found(m) && w.Found(m)[o] == w.Found(n)[o]
    decreases n
  {
    hide Loss.Meant, Loss.Found, Loss.Valid, Loss.Low;
    if m < n {
      Step(w, n - 1);
      StepOk(w, n - 1);
      LowRises(w, m, n - 1);
      FoundBefore(w, m, n - 1, o);
    }
  }

  // ----- the three conditions -----------------------------------------------------------------------

  /** A replaced or deleted memory comes back if and only if some update lost its vector while the record it replaced did not. */
  lemma {:induction false} NothingReturnsIff(w: Loss)
    requires w.Valid()
    ensures (forall o :: o in w.Found(|w.ops|) ==> o in w.Meant(|w.ops|)) <==> forall i: nat :: i < |w.ops| ==> !w.Reviving(i)
  {
    hide Loss.Meant, Loss.Found, Loss.Valid, Loss.MissingPut, Loss.Missing;
    var n := |w.ops|;
    forall o | o !in w.Meant(n)
      ensures o in w.Found(n) <==> exists i: nat :: i < n && w.Reviving(i) && w.ops[i].from == o
    {
      RevivedIff(w, n, o);
    }
    forall i: nat | i < n && w.Reviving(i)
      ensures w.ops[i].from !in w.Meant(n)
    {
      RevivedIsGone(w, i, n);
    }
  }

  /** An update whose old record comes back, and a later record of the same id that is recovered as well. */
  ghost predicate Doubled(w: Loss, i: nat, j: nat)
    requires i < j < |w.ops|
  {
    w.Reviving(i) && w.Standing(j, |w.ops|) && w.ops[i].meta.id == w.ops[j].meta.id
  }

  /**
    Two recovered records share an id if and only if the log holds an update that lost its
    vector while the record it replaced did not, and after it a record of the same id that
    has its vector and is removed by nothing.
   */
  lemma {:induction false} IdsUniqueIff(w: Loss)
    requires w.Valid()
    ensures IdsUnique(w.Found(|w.ops|)) <==> forall i: nat, j: nat :: i < j < |w.ops| ==> !Doubled(w, i, j)
  {
    hide Loss.Valid, Loss.Found, Doubled;
    var n := |w.ops|;
    forall i: nat, j: nat | i < j < n && Doubled(w, i, j)
      ensures !IdsUnique(w.Found(n))
    {
      DoubledClash(w, i, j);
    }
    forall a, b | a in w.Found(n) && b in w.Found(n) && a < b && w.Found(n)[a].id == w.Found(n)[b].id
      ensures exists i: nat, j: nat :: i < j < n && Doubled(w, i, j)
    {
      var i, j := ClashDoubled(w, a, b);
    }
  }

  lemma {:induction false} DoubledClash(w: Loss, i: nat, j: nat)
    requires w.Valid() && i < j < |w.ops| && Doubled(w, i, j)
    ensures !IdsUnique(w.Found(|w.ops|))
  {
    hide Loss.Valid, Loss.Found, Loss.Meant, Loss.Low, Loss.Standing, Loss.Reviving;
    var n := |w.ops|;
    RevivingIs(w, i);
    var a := w.ops[i].from;
    RevivedIsGone(w, i, n);
    RevivedIff(w, n, a);
    LostIff(w, i, a);
    FoundBefore(w, i, n, a);
    StandingPresent(w, j, n);
    StandingIff(w, j, n);
    var b := w.ops[j].offset;
    AllBelow(w, j);
    LowRises(w, i, j);
    StepOk(w, j);
    assert a in w.Found(n) && b in w.Found(n) && a < b;
  }

  lemma {:induction false} ClashDoubled(w: Loss, a: Offset, b: Offset) returns (i: nat, j: nat)
    requires w.Valid() && a in w.Found(|w.ops|) && b in w.Found(|w.ops|) && a < b
    requires w.Found(|w.ops|)[a].id == w.Found(|w.ops|)[b].id
    ensures i < j < |w.ops| && Doubled(w, i, j)
  {
    hide Loss.Valid, Loss.Found, Loss.Meant, Loss.Low, Loss.Standing, Loss.MissingPut, WellLogged1;
    var n := |w.ops|;
    FoundSource(w, n, a);
    FoundSource(w, n, b);
    StartUnique(w);
    assert b >= w.lo;
    j :| j < n && Puts(w.ops[j]) && w.ops[j].offset == b && w.Standing(j, n);
    StandingPresent(w, j, n);
    StandingIff(w, j, n);
    StepOk(w, j);
    InUseBefore(w, j, a);
    FoundBefore(w, j, n, a);
    NotLiveThen(w, j, a);
    RevivedIff(w, j, a);
    i :| i < j && w.Reviving(i) && w.ops[i].from == a && w.Found(j)[a].id == w.ops[i].meta.id;
  }

  lemma {:induction false} StartUnique(w: Loss)
    requires w.Valid()
    ensures IdsUnique(w.start)
  {
  }

  /** Offsets are handed out in order. */
  lemma {:induction false} InUseBefore(w: Loss, j: nat, a: Offset)
    requires w.Valid() && j < |w.ops| && Puts(w.ops[j]) && a in w.Found(|w.ops|) && a < w.ops[j].offset
    ensures a < w.Low(j)
  {
    hide Loss.Valid, Loss.Found, Loss.Meant, Loss.Low, Loss.Standing;
    var n := |w.ops|;
    AllBelow(w, j);
    FoundSource(w, n, a);
    if a >= w.lo {
      var k: nat :| k < n && Puts(w.ops[k]) && w.ops[k].offset == a && w.Standing(k, n);
      AllBelow(w, k);
      StepOk(w, k);
    }
  }

  /** A record that is recovered beside a later one of its id was not live when that one was stored. */
  lemma {:induction false} NotLiveThen(w: Loss, j: nat, a: Offset)
    requires w.Valid() && j < |w.ops| && Puts(w.ops[j]) && !w.Missing(j) && a < w.Low(j)
    requires a in w.Found(|w.ops|) && a in w.Found(j) && w.Found(j)[a].id == w.ops[j].meta.id
    ensures a !in w.Meant(j)
  {
    hide Loss.Valid, Loss.Found, Loss.Meant, Loss.Low;
    if a in w.Meant(j) {
      LostIff(w, j, a);
      MeantUnique(w, j);
      StepOk(w, j);
      Step(w, j);
      LowRises(w, j, j + 1);
      FoundBefore(w, j + 1, |w.ops|, a);
      assert false;
    }
  }

  /** Operation `m` ends the life of offset `o`, vectors or not. */
  predicate Ends(w: Loss, m: nat, o: Offset)
    requires m < |w.ops|
  {
    match w.ops[m]
    case Delete(x) => x == o
    case Replace(from, _, _, _, _) => from == o
    case _ => false
  }

  /** Every record stored without its vector was replaced or deleted again. */
  ghost predicate Repaired(w: Loss)
  {
    forall j: nat :: j < |w.ops| && w.Missing(j) ==> exists m: nat :: j < m < |w.ops| && Ends(w, m, w.ops[j].offset)
  }

  /** A record stored at `j` is live until something ends it. */
  lemma {:induction false} LiveIff(w: Loss, j: nat, n: nat)
    requires w.Valid() && j < n <= |w.ops| && Puts(w.ops[j])
    ensures w.ops[j].offset in w.Meant(n) <==> forall m: nat :: j < m < n ==> !Ends(w, m, w.ops[j].offset)
    decreases n
  {
    hide Loss.Meant, Loss.Found, Loss.Valid, Loss.Low;
    var m := n - 1;
    Step(w, m);
    StepOk(w, m);
    AllBelow(w, m);
    if m > j {
      LiveIff(w, j, m);
      assert w.ops[j].offset in w.Meant(n) <==> w.ops[j].offset in w.Meant(m) && !Ends(w, m, w.ops[j].offset);
    }
  }

  /** Recovery is a point in time if and only if no update revives what it replaced and every lost record was superseded. */
  lemma {:induction false} PointInTimeRead(w: Loss)
    requires w.Valid()
    ensures w.Found(|w.ops|) == w.Meant(|w.ops|) <==> Repaired(w) && forall i: nat :: i < |w.ops| ==> !w.Reviving(i)
  {
    hide Loss.Valid, Loss.Found, Loss.Meant, Loss.Reviving, Ends;
    var n := |w.ops|;
    NothingReturnsIff(w);
    LostRepaired(w);
    if forall o :: o in w.Meant(n) ==> o in w.Found(n) {
      forall o | o in w.Meant(n)
        ensures w.Found(n)[o] == w.Meant(n)[o]
      {
        LostIff(w, n, o);
      }
    }
  }

  lemma {:induction false} LostRepaired(w: Loss)
    requires w.Valid()
    ensures Repaired(w) <==> forall o :: o in w.Meant(|w.ops|) ==> o in w.Found(|w.ops|)
  {
    hide Loss.Valid, Loss.Found, Loss.Meant, Ends;
    var n := |w.ops|;
    forall o | o in w.Meant(n)
      ensures o !in w.Found(n) <==> w.MissingPut(n, o)
    {
      LostIff(w, n, o);
    }
    forall j: nat | j < n && w.Missing(j)
      ensures w.ops[j].offset in w.Meant(n) <==> forall m: nat :: j < m < n ==> !Ends(w, m, w.ops[j].offset)
      ensures w.MissingPut(n, w.ops[j].offset)
    {
      LiveIff(w, j, n);
    }
  }

  // ----- logs that still hold covered frames ----------------------------------------------------------

  /** The loss behind a whole log, whose first `k` operations the snapshot covers. */
  lemma {:induction false} LossOf(c: Codec, slots: Slots, t: Table, ops: seq<WalOp>, k: nat, lo: nat, last: nat) returns (w: Loss)
    requires LogAfter(t, ops, k, lo, last)
    ensures w == Loss(c, slots, last, t, ops[k..], lo) && w.Valid()
    ensures w.Meant(|w.ops|) == ApplyAll(t, ops[k..]) && w.Found(|w.ops|) == ReplayAll(c, slots, last, t, ops)
  {
    hide WellLogged, Covered, ReplayAll, ApplyAll, IdsUnique;
    w := Loss(c, slots, last, t, ops[k..], lo);
    ReplaySince(c, slots, t, ops, k, lo, last);
    assert w.ops[..|w.ops|] == ops[k..];
  }
}
