/**
  The live records of one database as the Python SDK sees them (tsm/memory.py): in
  insertion order, each with an id, a text, an owner and a role.
 */
module Store {
  import opened Wrappers
  import opened Text
  import opened Packing
  import opened Compaction

  datatype Rec = Rec(id: string, text: string, scope: Option<string>, role: string)

  function Ids(rs: seq<Rec>): (s: set<string>)
  {
    set r | r in rs :: r.id
  }

  ghost predicate UniqueIds(rs: seq<Rec>)
  {
    forall i, j :: 0 <= i < j < |rs| ==> rs[i].id != rs[j].id
  }

  function TextsOf(rs: seq<Rec>): (r: seq<string>)
    ensures |r| == |rs| && forall i :: 0 <= i < |rs| ==> r[i] == rs[i].text
  {
    seq(|rs|, i requires 0 <= i < |rs| => rs[i].text)
  }

  /** A record without a role counts as the user's own. */
  function RolesOf(rs: seq<Rec>): (r: seq<string>)
    ensures |r| == |rs|
  {
    seq(|rs|, i requires 0 <= i < |rs| => if rs[i].role == "" then "user" else rs[i].role)
  }

  /** `scope_ids` then `get_records`: one owner's records, oldest first. */
  function Scoped(rs: seq<Rec>, owner: Option<string>): (r: seq<Rec>)
    ensures forall x :: x in r <==> x in rs && x.scope == owner
  {
    if rs == [] then []
    else
      var last := rs[|rs| - 1];
      assert rs == rs[..|rs| - 1] + [last];
      Scoped(rs[..|rs| - 1], owner) + if last.scope == owner then [last] else []
  }

  /** What deleting these ids leaves. */
  function Without(rs: seq<Rec>, gone: set<string>): (r: seq<Rec>)
    ensures forall x :: x in r <==> x in rs && x.id !in gone
  {
    if rs == [] then []
    else
      var last := rs[|rs| - 1];
      assert rs == rs[..|rs| - 1] + [last];
      Without(rs[..|rs| - 1], gone) + if last.id in gone then [] else [last]
  }

  function OwnedTokens(rs: seq<Rec>, owner: Option<string>): (n: nat)
  {
    TotalTokens(TextsOf(Scoped(rs, owner)))
  }

  // ----- both selections act record by record -----------------------------------------------

  lemma {:induction false} SnocParts<T>(a: seq<T>, b: seq<T>)
    requires b != []
    ensures (a + b)[..|a + b| - 1] == a + b[..|b| - 1] && (a + b)[|a + b| - 1] == b[|b| - 1]
  {
  }

  lemma {:induction false} ScopedConcat(a: seq<Rec>, b: seq<Rec>, owner: Option<string>)
    ensures Scoped(a + b, owner) == Scoped(a, owner) + Scoped(b, owner)
  {
    if b == [] {
      assert a + b == a;
    } else {
      SnocParts(a, b);
      ScopedConcat(a, b[..|b| - 1], owner);
    }
  }

  lemma {:induction false} WithoutConcat(a: seq<Rec>, b: seq<Rec>, gone: set<string>)
    ensures Without(a + b, gone) == Without(a, gone) + Without(b, gone)
  {
    if b == [] {
      assert a + b == a;
    } else {
      SnocParts(a, b);
      WithoutConcat(a, b[..|b| - 1], gone);
    }
  }

  lemma {:induction false} TextsConcat(a: seq<Rec>, b: seq<Rec>)
    ensures TextsOf(a + b) == TextsOf(a) + TextsOf(b)
  {
  }

  lemma {:induction false} ScopedWithout(rs: seq<Rec>, gone: set<string>, owner: Option<string>)
    ensures Scoped(Without(rs, gone), owner) == Without(Scoped(rs, owner), gone)
  {
    if rs != [] {
      var front, last := rs[..|rs| - 1], rs[|rs| - 1];
      ScopedWithout(front, gone, owner);
      ScopedConcat(Without(front, gone), if last.id in gone then [] else [last], owner);
      WithoutConcat(Scoped(front, owner), if last.scope == owner then [last] else [], gone);
    }
  }

  lemma {:induction false} WithoutNone(rs: seq<Rec>, gone: set<string>)
    requires Ids(rs) !! gone
    ensures Without(rs, gone) == rs
  {
    if rs != [] {
      var front, last := rs[..|rs| - 1], rs[|rs| - 1];
      assert rs == front + [last];
      assert last.id in Ids(rs);
      assert Ids(front) <= Ids(rs);
      WithoutNone(front, gone);
    }
  }

  lemma {:induction false} ScopedAll(rs: seq<Rec>, owner: Option<string>, other: Option<string>)
    requires forall r :: r in rs ==> r.scope == owner
    ensures Scoped(rs, other) == if owner == other then rs else []
  {
    if rs != [] {
      var front, last := rs[..|rs| - 1], rs[|rs| - 1];
      assert rs == front + [last];
      ScopedAll(front, owner, other);
    }
  }

  lemma {:induction false} UniqueFront(rs: seq<Rec>)
    requires UniqueIds(rs) && rs != []
    ensures UniqueIds(rs[..|rs| - 1]) && rs[|rs| - 1].id !in Ids(rs[..|rs| - 1])
  {
  }

  lemma {:induction false} UniqueScoped(rs: seq<Rec>, owner: Option<string>)
    requires UniqueIds(rs)
    ensures UniqueIds(Scoped(rs, owner))
  {
    if rs != [] {
      UniqueFront(rs);
      UniqueScoped(rs[..|rs| - 1], owner);
    }
  }

  lemma {:induction false} UniqueWithout(rs: seq<Rec>, gone: set<string>)
    requires UniqueIds(rs)
    ensures UniqueIds(Without(rs, gone))
  {
    if rs != [] {
      UniqueFront(rs);
      UniqueWithout(rs[..|rs| - 1], gone);
    }
  }

  lemma {:induction false} UniqueConcat(a: seq<Rec>, b: seq<Rec>)
    requires UniqueIds(a) && UniqueIds(b) && Ids(a) !! Ids(b)
    ensures UniqueIds(a + b)
  {
    forall i, j | 0 <= i < |a| && 0 <= j < |b|
      ensures a[i].id != b[j].id
    {
      assert a[i].id in Ids(a) && b[j].id in Ids(b);
    }
  }

  // ----- indexes and ids -----------------------------------------------------------------------

  /** The ids at these positions. */
  function IdsAt(rs: seq<Rec>, idx: seq<nat>): (s: set<string>)
    requires InRange(idx, |rs|)
    ensures s <= Ids(rs)
  {
    set k | 0 <= k < |idx| :: rs[idx[k]].id
  }

  lemma {:induction false} IdAtIff(rs: seq<Rec>, idx: seq<nat>, i: nat)
    requires UniqueIds(rs) && InRange(idx, |rs|) && i < |rs|
    ensures rs[i].id in IdsAt(rs, idx) <==> i in idx
  {
    if rs[i].id in IdsAt(rs, idx) {
      var k :| 0 <= k < |idx| && rs[idx[k]].id == rs[i].id;
      assert idx[k] == i;
    }
  }

  /** The positions of `keep` below `n`. */
  function Upto(keep: seq<nat>, n: nat): (k: nat)
    requires Rising(keep)
    ensures k <= |keep| && (forall j :: 0 <= j < k ==> keep[j] < n) && (forall j :: k <= j < |keep| ==> keep[j] >= n)
    ensures k < |keep| ==> keep[k] >= n
    decreases n
  {
    if n == 0 then 0
    else
      var k := Upto(keep, n - 1);
      if k < |keep| && keep[k] == n - 1 then k + 1 else k
  }

  /** Deleting the complement of `keep` leaves exactly the records at `keep`, in order. */
  lemma {:induction false} WithoutPicks(rs: seq<Rec>, keep: seq<nat>, gone: set<string>, n: nat)
    requires Rising(keep) && InRange(keep, |rs|) && n <= |rs|
    requires forall i: nat :: i < |rs| ==> (rs[i].id in gone <==> i !in keep)
    ensures Without(rs[..n], gone) == PickAt(rs, keep)[..Upto(keep, n)]
  {
    hide Upto, PickAt, Rising, InRange;
    if n == 0 {
      NoneUpto(keep);
    } else {
      WithoutPicks(rs, keep, gone, n - 1);
      assert rs[..n][..n - 1] == rs[..n - 1];
      InKeep(keep, n - 1);
      PickedAt(rs, keep, Upto(keep, n - 1));
      TakeOne(PickAt(rs, keep), Upto(keep, n - 1));
    }
  }

  lemma {:induction false} NoneUpto(keep: seq<nat>)
    requires Rising(keep)
    ensures Upto(keep, 0) == 0
  {
  }

  lemma {:induction false} PickedAt(rs: seq<Rec>, keep: seq<nat>, k: nat)
    requires InRange(keep, |rs|)
    ensures |PickAt(rs, keep)| == |keep|
    ensures k < |keep| ==> keep[k] < |rs| && PickAt(rs, keep)[k] == rs[keep[k]]
  {
  }

  lemma {:induction false} TakeOne<T>(s: seq<T>, k: nat)
    requires k <= |s|
    ensures k < |s| ==> s[..k + 1] == s[..k] + [s[k]]
    ensures s[..k] + [] == s[..k]
  {
  }

  lemma {:induction false} InKeep(keep: seq<nat>, i: nat)
    requires Rising(keep)
    ensures Upto(keep, i) <= |keep|
    ensures Upto(keep, i + 1) == Upto(keep, i) + if i in keep then 1 else 0
    ensures i in keep ==> Upto(keep, i) < |keep| && keep[Upto(keep, i)] == i
  {
    var k := Upto(keep, i);
    if i in keep {
      var j :| 0 <= j < |keep| && keep[j] == i;
      assert j >= k;
    }
  }

  lemma {:induction false} PickTexts(rs: seq<Rec>, keep: seq<nat>)
    requires InRange(keep, |rs|)
    ensures TextsOf(PickAt(rs, keep)) == PickAt(TextsOf(rs), keep)
  {
  }
}
