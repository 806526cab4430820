/**
  What one compaction pass does to the store, and what it cannot do when other threads add
  facts or run passes of their own between its snapshot and its lock (tsm/memory.py
  `Memory._compact_user`).
 */
module Passes {
  import opened Wrappers
  import opened Text
  import opened Packing
  import opened Compaction
  import opened Planner
  import opened Store
  import I = Ids

  /** The store after a pass wrote `gists` and deleted `gone`. */
  function Applied(rs: seq<Rec>, gists: seq<Rec>, gone: set<string>): (r: seq<Rec>)
  {
    Without(rs + gists, gone)
  }

  ghost predicate OwnedBy(rs: seq<Rec>, user: string)
  {
    forall r :: r in rs ==> r.scope == Some(user)
  }

  /** `keep` and `fold` split the snapshot. */
  ghost predicate Splits(n: nat, keep: seq<nat>, fold: seq<nat>)
  {
    && Rising(keep) && InRange(keep, n) && InRange(fold, n)
    && forall i: nat :: i < n ==> (i in keep <==> i !in fold)
  }

  lemma {:induction false} SameIdSameRecord(rs: seq<Rec>, x: Rec, y: Rec)
    requires UniqueIds(rs) && x in rs && y in rs && x.id == y.id
    ensures x == y
  {
    var i :| 0 <= i < |rs| && rs[i] == x;
    var j :| 0 <= j < |rs| && rs[j] == y;
    assert i == j;
  }

  lemma {:induction false} FoldedLeaves(snap: seq<Rec>, keep: seq<nat>, fold: seq<nat>)
    requires UniqueIds(snap) && Splits(|snap|, keep, fold)
    ensures Without(snap, IdsAt(snap, fold)) == PickAt(snap, keep)
  {
    hide Without, PickAt, IdsAt, UniqueIds;
    forall i: nat | i < |snap|
      ensures snap[i].id in IdsAt(snap, fold) <==> i !in keep
    {
      IdAtIff(snap, fold, i);
    }
    WithoutPicks(snap, keep, IdsAt(snap, fold), |snap|);
    Whole(snap);
    Whole(PickAt(snap, keep));
    AllUpto(snap, keep);
  }

  lemma {:induction false} Whole<T>(s: seq<T>)
    ensures s[..|s|] == s
  {
  }

  lemma {:induction false} AllUpto(snap: seq<Rec>, keep: seq<nat>)
    requires Rising(keep) && InRange(keep, |snap|)
    ensures Upto(keep, |snap|) == |PickAt(snap, keep)|
  {
  }

  lemma {:induction false} Apart(whole: seq<Rec>, snap: seq<Rec>, part: seq<Rec>, fold: seq<nat>, user: string)
    requires UniqueIds(whole) && InRange(fold, |snap|) && OwnedBy(snap, user)
    requires forall x :: x in snap ==> x in whole
    requires forall x :: x in part ==> x in whole && (x.scope != Some(user) || x !in snap)
    ensures Ids(part) !! IdsAt(snap, fold)
  {
    hide UniqueIds;
    if id :| id in Ids(part) && id in IdsAt(snap, fold) {
      var x :| x in part && x.id == id;
      var k :| 0 <= k < |fold| && snap[fold[k]].id == id;
      assert snap[fold[k]] in snap;
      SameIdSameRecord(whole, x, snap[fold[k]]);
      assert false;
    }
  }

  /**
    The exact effect of a pass whose snapshot is `base` and during whose planning `added`
    was stored: the user is left with the kept facts, then everything added meanwhile, then
    the gists; nobody else's records change.
   */
  lemma {:induction false} AddedEffect(base: seq<Rec>, added: seq<Rec>, gists: seq<Rec>, user: string,
                                      keep: seq<nat>, fold: seq<nat>, other: Option<string>)
    requires UniqueIds(base + added + gists) && OwnedBy(gists, user)
    requires Splits(|Scoped(base, Some(user))|, keep, fold)
    ensures var snap := Scoped(base, Some(user));
            var after := Applied(base + added, gists, IdsAt(snap, fold));
            && Scoped(after, Some(user)) == PickAt(snap, keep) + Scoped(added, Some(user)) + gists
            && (other != Some(user) ==> Scoped(after, other) == Scoped(base + added, other))
  {
    hide Without, PickAt, IdsAt, UniqueIds, Ids, Scoped;
    var whole := base + added + gists;
    var snap := Scoped(base, Some(user));
    var gone := IdsAt(snap, fold);
    UniqueParts(base, added, gists);
    UniqueScoped(base, Some(user));
    // the owner
    ScopedWithout(whole, gone, Some(user));
    ScopedConcat(base + added, gists, Some(user));
    ScopedConcat(base, added, Some(user));
    ScopedAll(gists, Some(user), Some(user));
    var mine := Scoped(added, Some(user)) + gists;
    LateAreApart(base, added, gists, user);
    Apart(whole, snap, mine, fold, user);
    WithoutNone(mine, gone);
    WithoutConcat(snap, mine, gone);
    FoldedLeaves(snap, keep, fold);
    Assoc(snap, Scoped(added, Some(user)), gists);
    Assoc(PickAt(snap, keep), Scoped(added, Some(user)), gists);
    // everyone else
    if other != Some(user) {
      ScopedWithout(whole, gone, other);
      ScopedConcat(base + added, gists, other);
      ScopedAll(gists, Some(user), other);
      Apart(whole, snap, Scoped(whole, other), fold, user);
      WithoutNone(Scoped(whole, other), gone);
      NoTail(Scoped(base + added, other));
    }
  }

  lemma {:induction false} Assoc<T>(a: seq<T>, b: seq<T>, c: seq<T>)
    ensures a + b + c == a + (b + c)
  {
  }

  lemma {:induction false} NoTail<T>(a: seq<T>)
    ensures a + [] == a
  {
  }

  lemma {:induction false} UniqueParts(a: seq<Rec>, b: seq<Rec>, c: seq<Rec>)
    requires UniqueIds(a + b + c)
    ensures UniqueIds(a) && UniqueIds(b + c)
  {
    var whole := a + b + c;
    assert forall i :: 0 <= i < |a| ==> a[i] == whole[i];
    assert forall i :: 0 <= i < |b + c| ==> (b + c)[i] == whole[|a| + i];
  }

  lemma {:induction false} LateAreApart(base: seq<Rec>, added: seq<Rec>, gists: seq<Rec>, user: string)
    requires UniqueIds(base + added + gists)
    ensures forall x :: x in Scoped(added, Some(user)) + gists ==> x in base + added + gists && x !in Scoped(base, Some(user))
  {
    forall x | x in added + gists
      ensures x in base + added + gists && x !in base
    {
      var whole := base + added + gists;
      var j :| 0 <= j < |added + gists| && (added + gists)[j] == x;
      assert whole[|base| + j] == x;
      assert forall i :: 0 <= i < |base| ==> base[i] == whole[i];
    }
  }

  /** Tokens are conserved to the unit: what the plan kept and wrote, plus what arrived meanwhile. */
  lemma {:induction false} AddedTokens(base: seq<Rec>, added: seq<Rec>, gists: seq<Rec>, user: string,
                                      keep: seq<nat>, fold: seq<nat>)
    requires UniqueIds(base + added + gists) && OwnedBy(gists, user)
    requires Splits(|Scoped(base, Some(user))|, keep, fold)
    ensures var snap := Scoped(base, Some(user));
            OwnedTokens(Applied(base + added, gists, IdsAt(snap, fold)), Some(user))
            == TotalTokens(PickAt(TextsOf(snap), keep)) + TotalTokens(TextsOf(gists)) + OwnedTokens(added, Some(user))
  {
    hide Without, PickAt, IdsAt, UniqueIds, Ids, Scoped, TotalTokens;
    AddedEffect(base, added, gists, user, keep, fold, None);
    var kept := PickAt(Scoped(base, Some(user)), keep);
    var late := Scoped(added, Some(user));
    TextsConcat(kept + late, gists);
    TextsConcat(kept, late);
    TotalConcat(TextsOf(kept + late), TextsOf(gists));
    TotalConcat(TextsOf(kept), TextsOf(late));
    PickTexts(Scoped(base, Some(user)), keep);
  }

  // ----- a pass on any store -----------------------------------------------------------------

  lemma {:induction false} NothingDeleted(rs: seq<Rec>, records: seq<Rec>)
    ensures Without(rs, IdsAt(records, [])) == rs
  {
    WithoutNone(rs, IdsAt(records, []));
  }

  lemma {:induction false} WithoutTwice(rs: seq<Rec>, a: set<string>, b: set<string>)
    ensures Without(Without(rs, a), b) == Without(rs, a + b)
  {
    if rs != [] {
      var front, last := rs[..|rs| - 1], rs[|rs| - 1];
      WithoutTwice(front, a, b);
      WithoutConcat(Without(front, a), if last.id in a then [] else [last], b);
    }
  }

  lemma {:induction false} DeletedOneMore(rs: seq<Rec>, records: seq<Rec>, fold: seq<nat>, i: nat)
    requires InRange(fold, |records|) && i < |fold|
    ensures Without(Without(rs, IdsAt(records, fold[..i])), {records[fold[i]].id}) == Without(rs, IdsAt(records, fold[..i + 1]))
  {
    hide Without;
    var a, b := IdsAt(records, fold[..i]), {records[fold[i]].id};
    WithoutTwice(rs, a, b);
    var c := IdsAt(records, fold[..i + 1]);
    forall id | id in c
      ensures id in a + b
    {
      var k :| 0 <= k < i + 1 && records[fold[..i + 1][k]].id == id;
      if k < i {
        assert records[fold[..i][k]].id == id;
      }
    }
    forall id | id in a + b
      ensures id in c
    {
      if id in a {
        var k :| 0 <= k < i && records[fold[..i][k]].id == id;
        assert records[fold[..i + 1][k]].id == id;
      } else {
        assert records[fold[..i + 1][i]].id == id;
      }
    }
    assert a + b == c;
  }

  /** The folded records are live in `at`, as `user`'s, just as they were in the snapshot. */
  ghost predicate FoldLive(snap: seq<Rec>, fold: seq<nat>, at: seq<Rec>, user: string)
    requires InRange(fold, |snap|)
  {
    forall k :: 0 <= k < |fold| ==> snap[fold[k]] in at && snap[fold[k]].scope == Some(user)
  }

  /** Taking one record out takes out its tokens. */
  lemma {:induction false} RemovedOne(rs: seq<Rec>, x: Rec)
    requires UniqueIds(rs) && x in rs
    ensures TotalTokens(TextsOf(Without(rs, {x.id}))) + Tokens(x.text) == TotalTokens(TextsOf(rs))
  {
    hide Without, TotalTokens, Tokens, UniqueIds;
    var i :| 0 <= i < |rs| && rs[i] == x;
    var a, b := rs[..i], rs[i + 1..];
    OthersDiffer(rs, i);
    assert rs == a + ([x] + b);
    WithoutConcat(a, [x] + b, {x.id});
    WithoutConcat([x], b, {x.id});
    WithoutNone(a, {x.id});
    WithoutNone(b, {x.id});
    WithoutSelf(x);
    assert [] + b == b;
    TextsConcat(a, b);
    TextsConcat(a, [x] + b);
    TextsConcat([x], b);
    TotalConcat(TextsOf(a), TextsOf(b));
    TotalConcat(TextsOf(a), TextsOf([x] + b));
    TotalConcat(TextsOf([x]), TextsOf(b));
    TextOfOne(x);
    TotalOne(x.text);
  }

  lemma {:induction false} WithoutSelf(x: Rec)
    ensures Without([x], {x.id}) == []
  {
    assert [x][..0] == [];
  }

  lemma {:induction false} TextOfOne(x: Rec)
    ensures TextsOf([x]) == [x.text]
  {
  }

  lemma {:induction false} OthersDiffer(rs: seq<Rec>, i: nat)
    requires UniqueIds(rs) && i < |rs|
    ensures Ids(rs[..i]) !! {rs[i].id} && Ids(rs[i + 1..]) !! {rs[i].id}
  {
  }

  /** Taking out the records at some positions of a snapshot takes out exactly their tokens. */
  lemma {:induction false} RemovedTokens(rs: seq<Rec>, snap: seq<Rec>, fold: seq<nat>, n: nat)
    requires UniqueIds(rs) && UniqueIds(snap) && Rising(fold) && InRange(fold, |snap|) && n <= |fold|
    requires forall k :: 0 <= k < |fold| ==> snap[fold[k]] in rs
    ensures TotalTokens(TextsOf(Without(rs, IdsAt(snap, fold[..n])))) + TotalTokens(PickAt(TextsOf(snap), fold[..n]))
            == TotalTokens(TextsOf(rs))
  {
    hide Without, TotalTokens, Tokens, UniqueIds, IdsAt, PickAt;
    if n == 0 {
      assert fold[..0] == [];
      NothingDeleted(rs, snap);
      NoTokens();
      PickNone(TextsOf(snap));
    } else {
      var m := n - 1;
      RemovedTokens(rs, snap, fold, m);
      DeletedOneMore(rs, snap, fold, m);
      var left := Without(rs, IdsAt(snap, fold[..m]));
      UniqueWithout(rs, IdsAt(snap, fold[..m]));
      NotYetGone(snap, fold, m);
      RemovedOne(left, snap[fold[m]]);
      PickSnoc(TextsOf(snap), fold, m);
      TotalConcat(PickAt(TextsOf(snap), fold[..m]), [snap[fold[m]].text]);
      TotalOne(snap[fold[m]].text);
    }
  }

  lemma {:induction false} PickNone(texts: seq<string>)
    ensures PickAt(texts, []) == []
  {
  }

  lemma {:induction false} PickSnoc(texts: seq<string>, idx: seq<nat>, m: nat)
    requires InRange(idx, |texts|) && m < |idx|
    ensures PickAt(texts, idx[..m + 1]) == PickAt(texts, idx[..m]) + [texts[idx[m]]]
  {
  }

  lemma {:induction false} NotYetGone(snap: seq<Rec>, fold: seq<nat>, m: nat)
    requires UniqueIds(snap) && Rising(fold) && InRange(fold, |snap|) && m < |fold|
    ensures snap[fold[m]].id !in IdsAt(snap, fold[..m])
  {
    hide IdsAt, UniqueIds;
    IdAtIff(snap, fold[..m], fold[m]);
  }

  /**
    What deleting the first `n` folded records and writing `gists` does to any store `at` in
    which the folded records are live: the user is left with everything else they had, then
    the gists, at exactly the tokens this makes; nobody else's records change.
   */
  lemma {:induction false} PassEffect(at: seq<Rec>, gists: seq<Rec>, user: string, snap: seq<Rec>, fold: seq<nat>, n: nat)
    requires UniqueIds(at + gists) && OwnedBy(gists, user) && UniqueIds(snap)
    requires Rising(fold) && InRange(fold, |snap|) && n <= |fold| && FoldLive(snap, fold, at, user)
    ensures var gone := IdsAt(snap, fold[..n]);
            var after := Applied(at, gists, gone);
            && Scoped(after, Some(user)) == Without(Scoped(at, Some(user)), gone) + gists
            && (forall other :: other != Some(user) ==> Scoped(after, other) == Scoped(at, other))
            && OwnedTokens(after, Some(user)) + TotalTokens(PickAt(TextsOf(snap), fold[..n]))
               == OwnedTokens(at, Some(user)) + TotalTokens(TextsOf(gists))
  {
    hide Without, PickAt, IdsAt, UniqueIds, Ids, Scoped, TotalTokens;
    var gone, whole := IdsAt(snap, fold[..n]), at + gists;
    var mine := Scoped(at, Some(user));
    UniqueHalves(at, gists);
    NewAreApart(at, gists, user, snap, fold, n);
    ScopedWithout(whole, gone, Some(user));
    ScopedConcat(at, gists, Some(user));
    ScopedAll(gists, Some(user), Some(user));
    WithoutConcat(mine, gists, gone);
    WithoutNone(gists, gone);
    forall other | other != Some(user)
      ensures Scoped(Applied(at, gists, gone), other) == Scoped(at, other)
    {
      ScopedWithout(whole, gone, other);
      ScopedConcat(at, gists, other);
      ScopedAll(gists, Some(user), other);
      NoTail(Scoped(at, other));
      OthersApart(at, user, snap, fold, n, other);
      WithoutNone(Scoped(at, other), gone);
    }
    UniqueScoped(at, Some(user));
    FoldInScope(snap, fold, at, user);
    RemovedTokens(mine, snap, fold, n);
    TextsConcat(Without(mine, gone), gists);
    TotalConcat(TextsOf(Without(mine, gone)), TextsOf(gists));
  }

  lemma {:induction false} FoldInScope(snap: seq<Rec>, fold: seq<nat>, at: seq<Rec>, user: string)
    requires InRange(fold, |snap|) && FoldLive(snap, fold, at, user)
    ensures forall k :: 0 <= k < |fold| ==> snap[fold[k]] in Scoped(at, Some(user))
  {
    hide Scoped;
  }

  lemma {:induction false} UniqueHalves(a: seq<Rec>, b: seq<Rec>)
    requires UniqueIds(a + b)
    ensures UniqueIds(a) && UniqueIds(b) && Ids(a) !! Ids(b)
  {
    var whole := a + b;
    assert forall i :: 0 <= i < |a| ==> a[i] == whole[i];
    assert forall i :: 0 <= i < |b| ==> b[i] == whole[|a| + i];
  }

  lemma {:induction false} NewAreApart(at: seq<Rec>, gists: seq<Rec>, user: string, snap: seq<Rec>, fold: seq<nat>, n: nat)
    requires Ids(at) !! Ids(gists) && InRange(fold, |snap|) && n <= |fold| && FoldLive(snap, fold, at, user)
    ensures Ids(gists) !! IdsAt(snap, fold[..n])
  {
    forall id | id in IdsAt(snap, fold[..n])
      ensures id in Ids(at)
    {
      var k :| 0 <= k < n && snap[fold[..n][k]].id == id;
      assert snap[fold[k]] in at;
    }
  }

  lemma {:induction false} OthersApart(at: seq<Rec>, user: string, snap: seq<Rec>, fold: seq<nat>, n: nat, other: Option<string>)
    requires UniqueIds(at) && InRange(fold, |snap|) && n <= |fold| && FoldLive(snap, fold, at, user) && other != Some(user)
    ensures Ids(Scoped(at, other)) !! IdsAt(snap, fold[..n])
  {
    hide Scoped, UniqueIds;
    forall id | id in IdsAt(snap, fold[..n])
      ensures id !in Ids(Scoped(at, other))
    {
      var k :| 0 <= k < n && snap[fold[..n][k]].id == id;
      var y := snap[fold[k]];
      if id in Ids(Scoped(at, other)) {
        var x :| x in Scoped(at, other) && x.id == id;
        SameIdSameRecord(at, x, y);
        assert false;
      }
    }
  }

  // ----- interleavings ----------------------------------------------------------------------

  /** `id` carries a number from `lo + 1` to `hi`. */
  ghost predicate Between(id: string, lo: nat, hi: nat)
  {
    exists user, n: nat :: lo < n <= hi && id == I.IdOf(user, n)
  }

  /** Every stored id was minted, with a number no larger than the counter. */
  ghost predicate Numbered(rs: seq<Rec>, counter: nat)
  {
    forall r :: r in rs ==> exists user, n: nat :: n <= counter && r.id == I.IdOf(user, n)
  }

  /** What any writes at all do between two moments: delete what they like, add only newly minted ids. */
  ghost predicate Evolves(before: seq<Rec>, lo: nat, after: seq<Rec>, hi: nat)
  {
    && lo <= hi
    && forall r :: r in after ==> r in before || Between(r.id, lo, hi)
  }

  lemma {:induction false} EvolvesOn(a: seq<Rec>, i: nat, b: seq<Rec>, j: nat, c: seq<Rec>, k: nat)
    requires Evolves(a, i, b, j) && Evolves(b, j, c, k)
    ensures Evolves(a, i, c, k)
  {
    forall r | r in c
      ensures r in a || Between(r.id, i, k)
    {
      if r in b && r !in a {
        var user, n: nat :| i < n <= j && r.id == I.IdOf(user, n);
        assert n <= k;
      } else if r !in b {
        var user, n: nat :| j < n <= k && r.id == I.IdOf(user, n);
        assert i < n;
      }
    }
  }

  lemma {:induction false} StaysNumbered(a: seq<Rec>, i: nat, b: seq<Rec>, j: nat)
    requires Numbered(a, i) && Evolves(a, i, b, j)
    ensures Numbered(b, j)
  {
    forall r | r in b
      ensures exists user, n: nat :: n <= j && r.id == I.IdOf(user, n)
    {
      if r in a {
        var user, n: nat :| n <= i && r.id == I.IdOf(user, n);
        assert n <= j;
      }
    }
  }

  /** `id` can still be minted: it carries a number past the counter. */
  ghost predicate Mintable(id: string, counter: nat)
  {
    exists user, n: nat :: n > counter && id == I.IdOf(user, n)
  }

  /** A minted id can be minted again exactly while the counter has not reached its number. */
  lemma {:induction false} MintableIff(user: Option<string>, n: nat, counter: nat)
    ensures Mintable(I.IdOf(user, n), counter) <==> n > counter
  {
    hide I.IdOf;
    if Mintable(I.IdOf(user, n), counter) {
      var v, m: nat :| m > counter && I.IdOf(user, n) == I.IdOf(v, m);
      I.IdsCarryNumber(user, v, n, m);
    }
  }

  lemma {:induction false} NumberedSettles(rs: seq<Rec>, counter: nat)
    requires Numbered(rs, counter)
    ensures forall id :: id in Ids(rs) ==> !Mintable(id, counter)
  {
    hide I.IdOf, Mintable;
    forall id | id in Ids(rs)
      ensures !Mintable(id, counter)
    {
      var r :| r in rs && r.id == id;
      var user, n: nat :| n <= counter && r.id == I.IdOf(user, n);
      MintableIff(user, n, counter);
    }
  }

  lemma {:induction false} MintedLater(id: string, lo: nat, mid: nat, hi: nat)
    requires Between(id, mid, hi) && lo <= mid
    ensures Mintable(id, lo)
  {
  }

  /**
    A deleted id never comes back, whatever is added, compacted or deleted later, if its
    number is one the counter had reached.
   */
  lemma {:induction false} DeadStaysDead(id: string, first: seq<Rec>, i: nat, a: seq<Rec>, j: nat, b: seq<Rec>, k: nat)
    requires !Mintable(id, i)
    requires Evolves(first, i, a, j) && id !in Ids(a) && Evolves(a, j, b, k)
    ensures id !in Ids(b)
  {
    hide Between, Mintable;
    if id in Ids(b) {
      var r :| r in b && r.id == id;
      MintedLater(id, i, j, k);
    }
  }

  ghost predicate NeverReturns(id: string, first: seq<Rec>, i: nat)
  {
    forall a, j, b, k :: Evolves(first, i, a, j) && id !in Ids(a) && Evolves(a, j, b, k) ==> id !in Ids(b)
  }

  /** And that is exactly when. */
  lemma {:induction false} DeadStaysDeadIff(id: string, first: seq<Rec>, i: nat)
    ensures NeverReturns(id, first, i) <==> !Mintable(id, i)
  {
    hide Evolves;
    if !Mintable(id, i) {
      forall a, j, b, k | Evolves(first, i, a, j) && id !in Ids(a) && Evolves(a, j, b, k)
        ensures id !in Ids(b)
      {
        DeadStaysDead(id, first, i, a, j, b, k);
      }
    } else {
      var user, n: nat :| n > i && id == I.IdOf(user, n);
      var x := Rec(id, "", user, "user");
      MintedAlone(first, i, x, user, n);
      assert x in [x] && id in Ids([x]) && id !in Ids([]);
    }
  }

  /** One course of events: everything is deleted, then `x` is stored under a new number. */
  lemma {:induction false} MintedAlone(first: seq<Rec>, i: nat, x: Rec, user: Option<string>, n: nat)
    requires n > i && x.id == I.IdOf(user, n)
    ensures Evolves(first, i, [], i) && Evolves([], i, [x], n)
  {
    assert Between(x.id, i, n);
  }

  /** A folded id that is still live is still the record it was in the snapshot. */
  lemma {:induction false} StaleFoldLive(base: seq<Rec>, i: nat, at: seq<Rec>, j: nat, user: string, fold: seq<nat>)
    requires Evolves(base, i, at, j) && UniqueIds(base)
    requires InRange(fold, |Scoped(base, Some(user))|) && IdsAt(Scoped(base, Some(user)), fold) <= Ids(at)
    requires forall id :: id in IdsAt(Scoped(base, Some(user)), fold) ==> !Mintable(id, i)
    ensures FoldLive(Scoped(base, Some(user)), fold, at, user)
  {
    hide Between, Scoped, UniqueIds, Mintable;
    var snap := Scoped(base, Some(user));
    forall k | 0 <= k < |fold|
      ensures snap[fold[k]] in at && snap[fold[k]].scope == Some(user)
    {
      var x := snap[fold[k]];
      assert x in snap && x.id in IdsAt(snap, fold);
      var y :| y in at && y.id == x.id;
      if y !in base {
        MintedLater(x.id, i, i, j);
        assert false;
      }
      SameIdSameRecord(base, x, y);
    }
  }

  /**
    A pass does not delete a fact stored after its snapshot, however the store changed
    since, unless the counter is still to reach the number of a memory the pass folds.
   */
  lemma {:induction false} LateFactsSurvive(base: seq<Rec>, i: nat, later: seq<Rec>, j: nat, user: string,
                                            fold: seq<nat>, gists: seq<Rec>, x: Rec)
    requires Evolves(base, i, later, j) && InRange(fold, |Scoped(base, Some(user))|)
    requires forall id :: id in IdsAt(Scoped(base, Some(user)), fold) ==> !Mintable(id, i)
    requires x in later && x !in base
    ensures x in Applied(later, gists, IdsAt(Scoped(base, Some(user)), fold))
  {
    hide Between, Scoped, Without, Mintable, IdsAt;
    MintedLater(x.id, i, i, j);
    assert x in later + gists;
  }

  /** Whenever the pass finds all of `gone` live and so applies, it keeps every record stored since the snapshot. */
  ghost predicate NeverDeletesLate(base: seq<Rec>, i: nat, gone: set<string>)
  {
    forall later, j, gists, x ::
      Evolves(base, i, later, j) && UniqueIds(later + gists) && gone <= Ids(later) && x in later && x !in base ==>
        x in Applied(later, gists, gone)
  }

  /** And that is exactly when: with such a memory, in some course of events the pass applies and deletes a later fact. */
  lemma {:induction false} LateFactsSurviveIff(base: seq<Rec>, i: nat, user: string, fold: seq<nat>)
    requires UniqueIds(base) && InRange(fold, |Scoped(base, Some(user))|)
    ensures var gone := IdsAt(Scoped(base, Some(user)), fold);
            NeverDeletesLate(base, i, gone) <==> forall id :: id in gone ==> !Mintable(id, i)
  {
    hide Evolves, Scoped, Applied, IdsAt, UniqueIds, Mintable, Ids;
    var gone := IdsAt(Scoped(base, Some(user)), fold);
    if forall id :: id in gone ==> !Mintable(id, i) {
      forall later, j, gists, x |
        Evolves(base, i, later, j) && UniqueIds(later + gists) && gone <= Ids(later) && x in later && x !in base
        ensures x in Applied(later, gists, gone)
      {
        LateFactsSurvive(base, i, later, j, user, fold, gists, x);
      }
    } else {
      var id :| id in gone && Mintable(id, i);
      SnapIsLive(base, user, fold);
      var later, j, x := StoredAnew(base, i, id);
      NoTail(later);
      FoldedAway(later, x, gone);
    }
  }

  /** What is folded of a snapshot is live in it. */
  lemma {:induction false} SnapIsLive(base: seq<Rec>, user: string, fold: seq<nat>)
    requires InRange(fold, |Scoped(base, Some(user))|)
    ensures IdsAt(Scoped(base, Some(user)), fold) <= Ids(base)
  {
    hide Scoped;
    var snap := Scoped(base, Some(user));
    assert forall x :: x in snap ==> x in base;
  }

  /** One course of events: the record `id` is deleted, and another fact is stored under that id. */
  lemma {:induction false} StoredAnew(base: seq<Rec>, i: nat, id: string) returns (later: seq<Rec>, j: nat, x: Rec)
    requires UniqueIds(base) && id in Ids(base) && Mintable(id, i)
    ensures Evolves(base, i, later, j) && UniqueIds(later) && Ids(later) == Ids(base)
    ensures x in later && x !in base && x.id == id
  {
    hide UniqueIds, Without, I.IdOf;
    var y :| y in base && y.id == id;
    var v, n: nat :| n > i && id == I.IdOf(v, n);
    var rest := Without(base, {id});
    x, j := Rec(id, y.text + " ", v, "user"), n;
    later := rest + [x];
    assert |x.text| == |y.text| + 1;
    if x in base {
      SameIdSameRecord(base, x, y);
      assert false;
    }
    assert Between(id, i, n);
    UniqueWithout(base, {id});
    OneIsUnique(x);
    UniqueConcat(rest, [x]);
    WithoutTakes(base, {id});
    assert Ids(later) == Ids(rest) + {id};
  }

  lemma {:induction false} OneIsUnique(x: Rec)
    ensures UniqueIds([x]) && Ids([x]) == {x.id}
  {
    assert x in [x];
  }

  lemma {:induction false} WithoutTakes(rs: seq<Rec>, gone: set<string>)
    ensures Ids(Without(rs, gone)) == Ids(rs) - gone
  {
    hide Without;
    forall id | id in Ids(rs) - gone
      ensures id in Ids(Without(rs, gone))
    {
      var x :| x in rs && x.id == id;
      assert x in Without(rs, gone);
    }
  }

  lemma {:induction false} FoldedAway(later: seq<Rec>, x: Rec, gone: set<string>)
    requires x.id in gone
    ensures x !in Applied(later, [], gone)
  {
    hide Without;
  }

  /**
    Two passes cannot both apply: once one has folded a memory whose number the counter had
    reached, a plan that also folds it fails its liveness check at every later moment.
   */
  lemma {:induction false} FoldedOnce(base: seq<Rec>, i: nat, at: seq<Rec>, j: nat, gists: seq<Rec>, hi: nat,
                                      later: seq<Rec>, k: nat, gone: set<string>, second: set<string>)
    requires Evolves(base, i, at, j) && Evolves(at, j, Applied(at, gists, gone), hi)
    requires Evolves(Applied(at, gists, gone), hi, later, k)
    requires exists id :: id in gone && id in second && !Mintable(id, i)
    ensures !(second <= Ids(later))
  {
    hide Evolves, Mintable;
    var id :| id in gone && id in second && !Mintable(id, i);
    var after := Applied(at, gists, gone);
    EvolvesOn(base, i, at, j, after, hi);
    assert id !in Ids(after);
    DeadStaysDead(id, base, i, after, hi, later, k);
  }

  /**
    A first pass deletes `gone`, and at no later moment does a second one find all of
    `second` live, whatever is written before, between and after them.
   */
  ghost predicate NeverBoth(base: seq<Rec>, i: nat, gone: set<string>, second: set<string>)
  {
    forall at, j, gists, hi, later, k :: Twice(base, i, gone, at, j, gists, hi, later, k) ==> !(second <= Ids(later))
  }

  /** A pass that deletes `gone` applies at `at`, and `later` is a store after it. */
  ghost predicate Twice(base: seq<Rec>, i: nat, gone: set<string>, at: seq<Rec>, j: nat, gists: seq<Rec>, hi: nat,
                        later: seq<Rec>, k: nat)
  {
    && Evolves(base, i, at, j) && gone <= Ids(at) && UniqueIds(at + gists)
    && Evolves(at, j, Applied(at, gists, gone), hi)
    && Evolves(Applied(at, gists, gone), hi, later, k) && UniqueIds(later)
  }

  /**
    Over all courses of events, two passes of one snapshot never both apply if and only if
    they have in common a memory whose number the counter had reached.
   */
  lemma {:induction false} NeverBothIff(base: seq<Rec>, i: nat, gone: set<string>, second: set<string>)
    requires UniqueIds(base) && gone <= Ids(base) && second <= Ids(base)
    ensures NeverBoth(base, i, gone, second) <==> exists id :: id in gone && id in second && !Mintable(id, i)
  {
    hide Evolves, Applied, UniqueIds, Mintable, Ids;
    if exists id :: id in gone && id in second && !Mintable(id, i) {
      forall at, j, gists, hi, later, k | Twice(base, i, gone, at, j, gists, hi, later, k)
        ensures !(second <= Ids(later))
      {
        FoldedOnce(base, i, at, j, gists, hi, later, k, gone, second);
      }
    } else {
      var later, k := BothOnce(base, i, gone, second);
      assert Twice(base, i, gone, base, i, [], i, later, k);
    }
  }

  /** If all they have in common can be minted again, it is, and then the second pass applies. */
  lemma {:induction false} BothOnce(base: seq<Rec>, i: nat, gone: set<string>, second: set<string>)
    returns (later: seq<Rec>, k: nat)
    requires UniqueIds(base) && gone <= Ids(base) && second <= Ids(base)
    requires forall id :: id in gone && id in second ==> Mintable(id, i)
    ensures Twice(base, i, gone, base, i, [], i, later, k) && second <= Ids(later)
  {
    hide UniqueIds, Mintable, Ids, Without, Between;
    NoTail(base);
    UniqueWithout(base, gone);
    WithoutTakes(base, gone);
    later, k := MintedAgain(Without(base, gone), i, gone * second);
  }

  /** One record is stored for each of `ids`. */
  lemma {:induction false} MintedAgain(rest: seq<Rec>, i: nat, ids: set<string>) returns (later: seq<Rec>, k: nat)
    requires UniqueIds(rest) && ids !! Ids(rest) && forall id :: id in ids ==> Mintable(id, i)
    ensures Evolves(rest, i, later, k) && UniqueIds(later) && Ids(later) == Ids(rest) + ids
    decreases ids
  {
    hide UniqueIds, I.IdOf;
    later, k := rest, i;
    if ids != {} {
      var id :| id in ids;
      later, k := MintedAgain(rest, i, ids - {id});
      var user, n: nat :| n > i && id == I.IdOf(user, n);
      var x := Rec(id, "-", user, "user");
      StoredBehind(rest, i, later, k, x, user, n);
      later, k := later + [x], if n > k then n else k;
    }
  }

  lemma {:induction false} StoredBehind(rest: seq<Rec>, i: nat, later: seq<Rec>, k: nat, x: Rec, user: Option<string>, n: nat)
    requires Evolves(rest, i, later, k) && UniqueIds(later) && x.id !in Ids(later) && n > i && x.id == I.IdOf(user, n)
    ensures Evolves(rest, i, later + [x], if n > k then n else k)
    ensures UniqueIds(later + [x]) && Ids(later + [x]) == Ids(later) + {x.id}
  {
    hide UniqueIds, I.IdOf;
    var hi := if n > k then n else k;
    OneIsUnique(x);
    UniqueConcat(later, [x]);
    assert Between(x.id, i, hi);
    forall r | r in later
      ensures r in rest || Between(r.id, i, hi)
    {
      if r !in rest {
        var u, m: nat :| i < m <= k && r.id == I.IdOf(u, m);
        assert m <= hi;
      }
    }
  }
}
