/**
  Belief resolution and the final ordering of a recall (tsm/memory.py `_resolve_beliefs`,
  the scoring, sorting and slicing of `recall`; tsm/ranking.py). Scores are exact reals and
  no reranker is active.
 */
module Recall {
  import opened Wrappers
  import Belief

  /** A candidate. `supersededBy` is absent for a current memory. */
  datatype Item = Item(id: string, text: string, score: real, role: string, supersededBy: Option<string>, stale: bool)

  /** A stored record as read back for a missing current belief. */
  datatype Found = Found(text: string, scope: Option<string>, role: string)

  /**
    What the engine says: the current belief in place of each id, the demotion of each
    record (if reported), and the records that are still live.
   */
  datatype Engine = Engine(head: string -> string, demotion: string -> Option<real>, live: map<string, Found>)

  const MIN_DEMOTION: real := 0.000001
  const USER_ROLE_BOOST: real := 1.30
  const ASSISTANT_ROLE_DAMP: real := 0.85

  function MaxOf(a: real, b: real): (r: real)
  {
    if a < b then b else a
  }

  /** A missing or zero demotion counts as none, and none is taken smaller than the minimum. */
  function Demotion(e: Engine, id: string): (d: real)
    ensures d >= MIN_DEMOTION
    ensures e.demotion(id).None? || e.demotion(id) == Some(0.0) ==> d == 1.0
    ensures e.demotion(id).Some? && e.demotion(id).value >= 0.000001 ==> d == e.demotion(id).value
    ensures e.demotion(id).Some? && e.demotion(id).value < 0.000001 && e.demotion(id).value != 0.0 ==> d == 0.000001
  {
    var d := e.demotion(id);
    MaxOf(if d.None? || d.value == 0.0 then 1.0 else d.value, MIN_DEMOTION)
  }

  predicate IsStale(e: Engine, id: string)
  {
    e.head(id) != id
  }

  /** The score a stale memory had before its demotion. */
  function Before(e: Engine, p: Item): (s: real)
  {
    p.score / Demotion(e, p.id)
  }

  /** The best place one of the first `n` memories `cur` replaced had; at least zero. */
  function Owed(e: Engine, pool: seq<Item>, cur: string, n: nat): (s: real)
    requires n <= |pool|
    ensures s >= 0.0
  {
    if n == 0 then 0.0
    else
      var s := Owed(e, pool, cur, n - 1);
      var p := pool[n - 1];
      if IsStale(e, p.id) && e.head(p.id) == cur then MaxOf(s, Before(e, p)) else s
  }

  /** The current beliefs owed a place by the first `n` memories, in first-owed order. */
  function Heads(e: Engine, pool: seq<Item>, n: nat): (r: seq<string>)
    requires n <= |pool|
    ensures forall h :: h in r <==> exists i :: 0 <= i < n && IsStale(e, pool[i].id) && e.head(pool[i].id) == h
    ensures forall i, j :: 0 <= i < j < |r| ==> r[i] != r[j]
  {
    if n == 0 then []
    else
      var front := Heads(e, pool, n - 1);
      var p := pool[n - 1];
      if IsStale(e, p.id) && e.head(p.id) !in front then front + [e.head(p.id)] else front
  }

  function Marked(e: Engine, p: Item, verified: bool): (r: Item)
  {
    if IsStale(e, p.id) then p.(supersededBy := Some(e.head(p.id)), stale := verified || p.stale) else p
  }

  function MarkAll(e: Engine, pool: seq<Item>, verified: bool): (r: seq<Item>)
    ensures |r| == |pool| && forall i :: 0 <= i < |pool| ==> r[i] == Marked(e, pool[i], verified)
  {
    seq(|pool|, i requires 0 <= i < |pool| => Marked(e, pool[i], verified))
  }

  predicate Visible(f: Found, user: Option<string>)
  {
    user.None? || f.scope.None? || f.scope == user
  }

  predicate Has(pool: seq<Item>, id: string)
  {
    exists i :: 0 <= i < |pool| && pool[i].id == id
  }

  /** The owed beliefs among the first `n` that the search missed and that may be shown. */
  function Brought(e: Engine, pool: seq<Item>, heads: seq<string>, user: Option<string>, n: nat): (r: seq<Item>)
    requires n <= |heads|
  {
    if n == 0 then []
    else
      var front := Brought(e, pool, heads, user, n - 1);
      var h := heads[n - 1];
      if !Has(pool, h) && h in e.live && Visible(e.live[h], user)
      then front + [Item(h, e.live[h].text, Owed(e, pool, h, |pool|), e.live[h].role, None, false)]
      else front
  }

  function Raised(e: Engine, pool: seq<Item>, heads: seq<string>, p: Item): (r: Item)
  {
    if p.id in heads then p.(score := MaxOf(p.score, Owed(e, pool, p.id, |pool|))) else p
  }

  function RaiseAll(e: Engine, pool: seq<Item>, heads: seq<string>, all: seq<Item>): (r: seq<Item>)
    ensures |r| == |all| && forall i :: 0 <= i < |all| ==> r[i] == Raised(e, pool, heads, all[i])
  {
    seq(|all|, i requires 0 <= i < |all| => Raised(e, pool, heads, all[i]))
  }

  /** The pool after `_resolve_beliefs`. */
  function Resolved(e: Engine, pool: seq<Item>, user: Option<string>, verified: bool): (r: seq<Item>)
  {
    var marked := MarkAll(e, pool, verified);
    if !verified then marked
    else
      var heads := Heads(e, pool, |pool|);
      RaiseAll(e, pool, heads, marked + Brought(e, pool, heads, user, |heads|))
  }

  ghost predicate DistinctIds(pool: seq<Item>)
  {
    forall i, j :: 0 <= i < j < |pool| ==> pool[i].id != pool[j].id
  }

  // ----- what resolving does, item by item ---------------------------------------------------

  /** Some candidate is stale and `h` is what it was replaced by. */
  ghost predicate Owes(e: Engine, pool: seq<Item>, h: string)
  {
    exists i :: 0 <= i < |pool| && e.head(pool[i].id) != pool[i].id && e.head(pool[i].id) == h
  }

  /**
    `s` is the place `h` is owed when its own score is `own`: the largest of that, zero, and
    the scores, before their demotion, of the candidates it replaced.
   */
  ghost predicate Place(e: Engine, pool: seq<Item>, h: string, own: real, s: real)
  {
    && s >= own && s >= 0.0
    && (forall i :: 0 <= i < |pool| && e.head(pool[i].id) != pool[i].id && e.head(pool[i].id) == h ==>
          s >= pool[i].score / Demotion(e, pool[i].id))
    && (s == own || s == 0.0
        || exists i :: 0 <= i < |pool| && e.head(pool[i].id) != pool[i].id && e.head(pool[i].id) == h
                       && s == pool[i].score / Demotion(e, pool[i].id))
  }

  /** Candidate `p` becomes `q`: only a stale one is marked, and only the place of a current belief is raised. */
  ghost predicate BecomesItem(e: Engine, pool: seq<Item>, verified: bool, p: Item, q: Item)
  {
    && q.id == p.id && q.text == p.text && q.role == p.role
    && q.supersededBy == (if e.head(p.id) != p.id then Some(e.head(p.id)) else p.supersededBy)
    && q.stale == ((verified && e.head(p.id) != p.id) || p.stale)
    && if verified && Owes(e, pool, p.id) then Place(e, pool, p.id, p.score, q.score) else q.score == p.score
  }

  /** `q` is the current belief candidate `i` was replaced by: live, visible, not found itself, and first owed by `i`. */
  ghost predicate BroughtBy(e: Engine, pool: seq<Item>, user: Option<string>, i: nat, q: Item)
  {
    && i < |pool| && q.id == e.head(pool[i].id) != pool[i].id
    && (forall j :: 0 <= j < i ==> e.head(pool[j].id) == pool[j].id || e.head(pool[j].id) != q.id)
    && (forall j :: 0 <= j < |pool| ==> pool[j].id != q.id)
    && q.id in e.live && (user.None? || e.live[q.id].scope.None? || e.live[q.id].scope == user)
    && q.text == e.live[q.id].text && q.role == e.live[q.id].role && q.supersededBy.None? && !q.stale
    && Place(e, pool, q.id, 0.0, q.score)
  }

  /**
    `out` is `pool`, item by item, and behind it exactly the missing current beliefs that are
    live and visible, in the order in which the candidates `owers` first owe them. Unless supersessions are
    verified nothing is brought in.
   */
  ghost predicate Resolves(e: Engine, pool: seq<Item>, user: Option<string>, verified: bool, out: seq<Item>, owers: seq<nat>)
  {
    && |out| == |pool| + |owers| && (!verified ==> owers == [])
    && (forall i :: 0 <= i < |pool| ==> BecomesItem(e, pool, verified, pool[i], out[i]))
    && (forall k :: 0 <= k < |owers| ==> BroughtBy(e, pool, user, owers[k], out[|pool| + k]))
    && (forall k, l :: 0 <= k < l < |owers| ==> owers[k] < owers[l])
    && (verified ==> forall h :: Owes(e, pool, h) && !Has(pool, h) && h in e.live && Visible(e.live[h], user) ==>
          exists k :: |pool| <= k < |out| && out[k].id == h)
  }

  /** What a belief is owed is a place, by the first `n` candidates. */
  lemma {:induction false} OwedIsMax(e: Engine, pool: seq<Item>, h: string, n: nat)
    requires n <= |pool|
    ensures Place(e, pool[..n], h, 0.0, Owed(e, pool, h, n))
  {
    hide Demotion;
    if n > 0 {
      OwedIsMax(e, pool, h, n - 1);
      assert forall i :: 0 <= i < n - 1 ==> pool[..n - 1][i] == pool[..n][i];
      var s := Owed(e, pool, h, n - 1);
      if s != 0.0 {
        var i :| 0 <= i < n - 1 && e.head(pool[..n - 1][i].id) != pool[..n - 1][i].id && e.head(pool[..n - 1][i].id) == h
                 && s == pool[..n - 1][i].score / Demotion(e, pool[..n - 1][i].id);
        assert pool[..n][i] == pool[..n - 1][i];
      }
      assert pool[..n][n - 1] == pool[n - 1];
    }
  }

  lemma {:induction false} OwedPlace(e: Engine, pool: seq<Item>, h: string, own: real)
    ensures Place(e, pool, h, own, MaxOf(own, Owed(e, pool, h, |pool|)))
  {
    hide Owed, Demotion;
    OwedIsMax(e, pool, h, |pool|);
    assert pool[..|pool|] == pool;
  }

  lemma {:induction false} Becomes(e: Engine, pool: seq<Item>, verified: bool, i: nat)
    requires i < |pool|
    ensures var q := Marked(e, pool[i], verified);
            BecomesItem(e, pool, verified, pool[i], if verified then Raised(e, pool, Heads(e, pool, |pool|), q) else q)
  {
    hide Owed, Place, Demotion;
    OwedPlace(e, pool, pool[i].id, pool[i].score);
  }

  /** The brought-in beliefs of the first `n` heads, each with the candidate that owes it first. */
  lemma {:induction false} BroughtFirst(e: Engine, pool: seq<Item>, user: Option<string>, n: nat) returns (owers: seq<nat>)
    requires n <= |pool|
    ensures var heads := Heads(e, pool, n);
            var brought := Brought(e, pool, heads, user, |heads|);
            && |owers| == |brought| && (forall k, l :: 0 <= k < l < |owers| ==> owers[k] < owers[l])
            && (forall k :: 0 <= k < |owers| ==> owers[k] < n && BroughtBy(e, pool, user, owers[k], brought[k]))
  {
    hide Owed, Place, Demotion, Heads, Brought, BroughtBy, Visible, Has;
    owers := [];
    NoneYet(e, pool, [], user);
    if n > 0 {
      owers := BroughtFirst(e, pool, user, n - 1);
      BroughtNext(e, pool, user, n - 1);
      var h := e.head(pool[n - 1].id);
      if IsStale(e, pool[n - 1].id) && h !in Heads(e, pool, n - 1) && !Has(pool, h) && h in e.live && Visible(e.live[h], user) {
        owers := owers + [n - 1];
      }
    }
  }

  /** What one more candidate adds to the beliefs brought in. */
  lemma {:induction false} BroughtNext(e: Engine, pool: seq<Item>, user: Option<string>, n: nat)
    requires n < |pool|
    ensures var front, heads, h := Heads(e, pool, n), Heads(e, pool, n + 1), e.head(pool[n].id);
            var before, brought := Brought(e, pool, front, user, |front|), Brought(e, pool, heads, user, |heads|);
            if IsStale(e, pool[n].id) && h !in front && !Has(pool, h) && h in e.live && Visible(e.live[h], user)
            then exists q :: brought == before + [q] && BroughtBy(e, pool, user, n, q) else brought == before
  {
    hide Owed, Place, Demotion, Brought, BroughtBy, Visible;
    var front, heads, h := Heads(e, pool, n), Heads(e, pool, n + 1), e.head(pool[n].id);
    if IsStale(e, pool[n].id) && h !in front {
      BroughtPrefix(e, pool, front, h, user, |front|);
      assert heads == front + [h];
      BroughtStep(e, pool, heads, user, |front|);
      if !Has(pool, h) && h in e.live && Visible(e.live[h], user) {
        var q := Item(h, e.live[h].text, Owed(e, pool, h, |pool|), e.live[h].role, None, false);
        FirstOwed(e, pool, user, n, q);
      }
    }
  }

  lemma {:induction false} FirstOwed(e: Engine, pool: seq<Item>, user: Option<string>, n: nat, q: Item)
    requires n < |pool| && IsStale(e, pool[n].id) && q.id == e.head(pool[n].id) && q.id !in Heads(e, pool, n) && !Has(pool, q.id)
    requires q.id in e.live && Visible(e.live[q.id], user)
    requires q == Item(q.id, e.live[q.id].text, Owed(e, pool, q.id, |pool|), e.live[q.id].role, None, false)
    ensures BroughtBy(e, pool, user, n, q)
  {
    hide Owed, Place, Demotion;
    OwedPlace(e, pool, q.id, 0.0);
    PlaceAtLeast(e, pool, q.id);
  }

  lemma {:induction false} PlaceAtLeast(e: Engine, pool: seq<Item>, h: string)
    ensures MaxOf(0.0, Owed(e, pool, h, |pool|)) == Owed(e, pool, h, |pool|)
  {
    hide Owed;
  }

  lemma {:induction false} BroughtPrefix(e: Engine, pool: seq<Item>, heads: seq<string>, h: string, user: Option<string>, n: nat)
    requires n <= |heads|
    ensures Brought(e, pool, heads + [h], user, n) == Brought(e, pool, heads, user, n)
  {
    hide Owed;
    if n > 0 {
      BroughtPrefix(e, pool, heads, h, user, n - 1);
    }
  }

  /** Resolving does to every pool exactly that. */
  lemma {:induction false} ResolvesExactly(e: Engine, pool: seq<Item>, user: Option<string>, verified: bool) returns (owers: seq<nat>)
    ensures Resolves(e, pool, user, verified, Resolved(e, pool, user, verified), owers)
  {
    hide Owed, Place, Demotion, Brought, BroughtBy, BecomesItem, Marked, Raised;
    var out := Resolved(e, pool, user, verified);
    owers := [];
    if verified {
      owers := BroughtFirst(e, pool, user, |pool|);
    }
    forall i | 0 <= i < |pool|
      ensures BecomesItem(e, pool, verified, pool[i], out[i])
    {
      Becomes(e, pool, verified, i);
    }
    if verified {
      BroughtResolved(e, pool, user, owers);
    }
  }

  lemma {:induction false} BroughtResolved(e: Engine, pool: seq<Item>, user: Option<string>, owers: seq<nat>)
    requires var heads := Heads(e, pool, |pool|);
             var brought := Brought(e, pool, heads, user, |heads|);
             |owers| == |brought| && forall k :: 0 <= k < |owers| ==> BroughtBy(e, pool, user, owers[k], brought[k])
    ensures var out := Resolved(e, pool, user, true);
            && |out| == |pool| + |owers|
            && (forall k :: 0 <= k < |owers| ==> BroughtBy(e, pool, user, owers[k], out[|pool| + k]))
            && (forall h :: Owes(e, pool, h) && !Has(pool, h) && h in e.live && Visible(e.live[h], user) ==>
                  exists k :: |pool| <= k < |out| && out[k].id == h)
  {
    hide Owed, Demotion, Brought, BroughtBy, Resolved, Heads, Visible, Has, Owes;
    var out := Resolved(e, pool, user, true);
    BroughtStay(e, pool, user);
    forall h | Owes(e, pool, h) && !Has(pool, h) && h in e.live && Visible(e.live[h], user)
      ensures exists k :: |pool| <= k < |out| && out[k].id == h
    {
      var k := BroughtComes(e, pool, user, h);
    }
  }

  /** Behind the pool stand the brought-in beliefs, as they were brought in. */
  lemma {:induction false} BroughtStay(e: Engine, pool: seq<Item>, user: Option<string>)
    ensures var heads := Heads(e, pool, |pool|);
            var out, brought := Resolved(e, pool, user, true), Brought(e, pool, heads, user, |heads|);
            |out| == |pool| + |brought| && forall k :: 0 <= k < |brought| ==> out[|pool| + k] == brought[k]
  {
    hide Owed, Demotion, Brought, Raised, Heads, Marked;
    var heads := Heads(e, pool, |pool|);
    var brought := Brought(e, pool, heads, user, |heads|);
    var all := MarkAll(e, pool, true) + brought;
    forall k | 0 <= k < |brought|
      ensures Raised(e, pool, heads, all[|pool| + k]) == brought[k]
    {
      assert all[|pool| + k] == brought[k] && brought[k] in brought;
      OwedTwice(e, pool, heads, user, |heads|, brought[k]);
    }
  }

  lemma {:induction false} BroughtComes(e: Engine, pool: seq<Item>, user: Option<string>, h: string) returns (k: nat)
    requires Owes(e, pool, h) && !Has(pool, h) && h in e.live && Visible(e.live[h], user)
    ensures var out := Resolved(e, pool, user, true); |pool| <= k < |out| && out[k].id == h
  {
    hide Owed, Demotion, Brought, Resolved, Visible;
    var heads := Heads(e, pool, |pool|);
    var brought := Brought(e, pool, heads, user, |heads|);
    BroughtAre(e, pool, heads, user, |heads|);
    BroughtStay(e, pool, user);
    assert h in heads;
    var n :| 0 <= n < |heads| && heads[n] == h;
    var q :| q in brought && q.id == h;
    var b :| 0 <= b < |brought| && brought[b] == q;
    k := |pool| + b;
  }

  /** A brought-in belief already has the place it is owed. */
  lemma {:induction false} OwedTwice(e: Engine, pool: seq<Item>, heads: seq<string>, user: Option<string>, n: nat, q: Item)
    requires n <= |heads| && q in Brought(e, pool, heads, user, n)
    ensures Raised(e, pool, heads, q) == q
  {
    hide Owed;
    if n > 0 {
      if q in Brought(e, pool, heads, user, n - 1) {
        OwedTwice(e, pool, heads, user, n - 1, q);
      }
    }
  }

  /** `_resolve_beliefs`, updating the pool in place. */
  class Pool {
    var items: seq<Item>

    constructor (found: seq<Item>)
      ensures items == found
    {
      items := found;
    }

    /** The marking loop; `owed` is what each current belief is owed, in first-owed order. */
    method MarkStale(e: Engine, verified: bool) returns (heads: seq<string>, owed: map<string, real>)
      modifies this
      ensures items == MarkAll(e, old(items), verified)
      ensures verified ==> heads == Heads(e, old(items), |old(items)|) && OwedSoFar(e, old(items), |old(items)|, owed)
    {
      hide Heads, Owed, OwedSoFar, Before;
      ghost var pool := items;
      owed, heads := map[], [];
      NoneYet(e, pool, [], None);
      for i := 0 to |items|
        invariant |items| == |pool| && forall k :: i <= k < |pool| ==> items[k] == pool[k]
        invariant forall k :: 0 <= k < i ==> items[k] == Marked(e, pool[k], verified)
        invariant verified ==> heads == Heads(e, pool, i) && OwedSoFar(e, pool, i, owed)
      {
        var p := items[i];
        if verified {
          HeadsStep(e, pool, i, owed);
        }
        if IsStale(e, p.id) {
          var cur := e.head(p.id);
          items := items[i := p.(supersededBy := Some(cur), stale := verified || p.stale)];
          if verified {
            if cur !in owed {
              heads := heads + [cur];
            }
            owed := owed[cur := MaxOf(if cur in owed then owed[cur] else 0.0, Before(e, p))];
          }
        }
      }
    }

    /** Appending the owed beliefs the search missed. */
    method BringIn(e: Engine, user: Option<string>, heads: seq<string>, owed: map<string, real>, ghost pool: seq<Item>)
      requires items == MarkAll(e, pool, true)
      requires heads == Heads(e, pool, |pool|) && OwedSoFar(e, pool, |pool|, owed)
      modifies this
      ensures items == old(items) + Brought(e, pool, heads, user, |heads|)
    {
      hide Heads, Owed, Brought;
      var count := |items|;
      ghost var marked := items;
      NoneYet(e, pool, heads, user);
      for i := 0 to |heads|
        invariant items == marked + Brought(e, pool, heads, user, i)
      {
        var h := heads[i];
        BroughtStep(e, pool, heads, user, i);
        SameIds(e, pool, h, true);
        assert items[..count] == marked;
        if !Has(items[..count], h) && h in e.live && Visible(e.live[h], user) {
          items := items + [Item(h, e.live[h].text, owed[h], e.live[h].role, None, false)];
        }
      }
    }

    /** Moving every owed belief up to the place it is owed. */
    method Raise(e: Engine, heads: seq<string>, owed: map<string, real>, ghost pool: seq<Item>)
      requires heads == Heads(e, pool, |pool|) && OwedSoFar(e, pool, |pool|, owed)
      modifies this
      ensures items == RaiseAll(e, pool, heads, old(items))
    {
      hide Heads, Owed;
      ghost var all := items;
      for i := 0 to |items|
        invariant |items| == |all| && forall k :: i <= k < |all| ==> items[k] == all[k]
        invariant forall k :: 0 <= k < i ==> items[k] == Raised(e, pool, heads, all[k])
      {
        var p := items[i];
        if p.id in owed {
          items := items[i := p.(score := MaxOf(p.score, owed[p.id]))];
        }
      }
    }

    /** `owers` names, for each belief brought in, the candidate that first owes it its place. */
    method ResolveBeliefs(e: Engine, user: Option<string>, verified: bool) returns (ghost owers: seq<nat>)
      requires DistinctIds(items)
      modifies this
      ensures items == Resolved(e, old(items), user, verified)
      ensures Resolves(e, old(items), user, verified, items, owers)
    {
      hide Heads, Owed, Brought, OwedSoFar, RaiseAll, MarkAll, Resolves;
      ghost var pool := items;
      owers := ResolvesExactly(e, pool, user, verified);
      var heads, owed := MarkStale(e, verified);
      if !verified {
        return;
      }
      BringIn(e, user, heads, owed, pool);
      Raise(e, heads, owed, pool);
    }
  }

  ghost predicate OwedSoFar(e: Engine, pool: seq<Item>, n: nat, owed: map<string, real>)
    requires n <= |pool|
  {
    forall h :: (h in owed <==> h in Heads(e, pool, n)) && (h in owed ==> owed[h] == Owed(e, pool, h, n))
  }

  lemma {:induction false} NoneYet(e: Engine, pool: seq<Item>, heads: seq<string>, user: Option<string>)
    ensures Heads(e, pool, 0) == [] && OwedSoFar(e, pool, 0, map[]) && Brought(e, pool, heads, user, 0) == []
  {
  }

  lemma {:induction false} UnowedIsZero(e: Engine, pool: seq<Item>, h: string, n: nat)
    requires n <= |pool| && h !in Heads(e, pool, n)
    ensures Owed(e, pool, h, n) == 0.0
  {
    if n > 0 {
      UnowedIsZero(e, pool, h, n - 1);
    }
  }

  /** One more memory: its head joins the list if new, and is owed at least its old place. */
  lemma {:induction false} HeadsStep(e: Engine, pool: seq<Item>, i: nat, owed: map<string, real>)
    requires i < |pool| && OwedSoFar(e, pool, i, owed)
    ensures var p := pool[i];
            var cur := e.head(p.id);
            if IsStale(e, p.id)
            then && Heads(e, pool, i + 1) == Heads(e, pool, i) + (if cur in owed then [] else [cur])
                 && OwedSoFar(e, pool, i + 1, owed[cur := MaxOf(if cur in owed then owed[cur] else 0.0, Before(e, p))])
            else Heads(e, pool, i + 1) == Heads(e, pool, i) && OwedSoFar(e, pool, i + 1, owed)
  {
    var cur := e.head(pool[i].id);
    if cur !in owed {
      UnowedIsZero(e, pool, cur, i);
    }
  }

  lemma {:induction false} BroughtStep(e: Engine, pool: seq<Item>, heads: seq<string>, user: Option<string>, i: nat)
    requires i < |heads|
    ensures var h := heads[i];
            Brought(e, pool, heads, user, i + 1) == Brought(e, pool, heads, user, i)
              + (if !Has(pool, h) && h in e.live && Visible(e.live[h], user)
                 then [Item(h, e.live[h].text, Owed(e, pool, h, |pool|), e.live[h].role, None, false)] else [])
  {
  }

  lemma {:induction false} SameIds(e: Engine, pool: seq<Item>, h: string, verified: bool)
    ensures Has(MarkAll(e, pool, verified), h) <==> Has(pool, h)
  {
    var marked := MarkAll(e, pool, verified);
    assert forall i :: 0 <= i < |pool| ==> marked[i].id == pool[i].id;
  }

  // ----- the promise ---------------------------------------------------------------------------

  /** `role_prior`. */
  function Prior(firstPerson: bool, role: string): (p: real)
    ensures p > 0.0
  {
    if firstPerson && (role == "user" || role == "summary") then USER_ROLE_BOOST
    else if firstPerson && (role == "assistant" || role == "summary-assistant") then ASSISTANT_ROLE_DAMP
    else 1.0
  }

  /** Only a question in the first person weighs roles, and then what the user said, or a gist of it, counts more. */
  lemma {:induction false} PriorsAre(role: string)
    ensures Prior(false, role) == 1.0
    ensures Prior(true, "user") == Prior(true, "summary") == 1.3
    ensures Prior(true, "assistant") == Prior(true, "summary-assistant") == 0.85
    ensures role !in {"user", "summary", "assistant", "summary-assistant"} ==> Prior(true, role) == 1.0
  {
  }

  function Weighed(firstPerson: bool, p: Item): (r: Item)
  {
    p.(score := p.score * Prior(firstPerson, p.role))
  }

  function WeighAll(firstPerson: bool, pool: seq<Item>): (r: seq<Item>)
    ensures |r| == |pool| && forall i :: 0 <= i < |pool| ==> r[i] == Weighed(firstPerson, pool[i])
  {
    seq(|pool|, i requires 0 <= i < |pool| => Weighed(firstPerson, pool[i]))
  }

  /** The sort key's order: better score first, then current before superseded. */
  predicate NotAfter(a: Item, b: Item)
  {
    a.score > b.score || (a.score == b.score && (a.supersededBy.None? || b.supersededBy.Some?))
  }

  /** `out` is some sorted arrangement of `pool`. */
  ghost predicate SortedOf(out: seq<Item>, pool: seq<Item>)
  {
    && multiset(out) == multiset(pool)
    && forall i, j :: 0 <= i < j < |out| ==> NotAfter(out[i], out[j])
  }

  /** A pool straight from the search. */
  ghost predicate Searched(pool: seq<Item>)
  {
    DistinctIds(pool) && forall i :: 0 <= i < |pool| ==> pool[i].supersededBy.None?
  }

  /** No current belief is itself superseded: chains end (see `Belief.HeadIsCurrentIff`). */
  ghost predicate HeadsAreCurrent(e: Engine, pool: seq<Item>)
  {
    forall i :: 0 <= i < |pool| ==> !IsStale(e, e.head(pool[i].id))
  }

  lemma {:induction false} OwedAtLeast(e: Engine, pool: seq<Item>, k: nat, n: nat)
    requires k < n <= |pool| && IsStale(e, pool[k].id)
    ensures Owed(e, pool, e.head(pool[k].id), n) >= Before(e, pool[k])
  {
    if k < n - 1 {
      OwedAtLeast(e, pool, k, n - 1);
    }
  }

  lemma {:induction false} BroughtAre(e: Engine, pool: seq<Item>, heads: seq<string>, user: Option<string>, n: nat)
    requires n <= |heads|
    ensures forall q :: q in Brought(e, pool, heads, user, n) ==>
              q.supersededBy.None? && q.id in heads && !Has(pool, q.id)
    ensures forall k :: 0 <= k < n && !Has(pool, heads[k]) && heads[k] in e.live && Visible(e.live[heads[k]], user) ==>
              exists q :: q in Brought(e, pool, heads, user, n) && q.id == heads[k]
  {
    if n > 0 {
      BroughtAre(e, pool, heads, user, n - 1);
      var front, all := Brought(e, pool, heads, user, n - 1), Brought(e, pool, heads, user, n);
      forall q | q in front
        ensures q in all
      {
      }
      var h := heads[n - 1];
      if !Has(pool, h) && h in e.live && Visible(e.live[h], user) {
        assert all[|all| - 1].id == h;
      }
    }
  }

  /** Every resolved item is a marked candidate or a brought-in belief, with its score raised. */
  lemma {:induction false} ResolvedFrom(e: Engine, pool: seq<Item>, user: Option<string>, x: Item) returns (k: nat, q: Item)
    requires x in Resolved(e, pool, user, true)
    ensures var heads := Heads(e, pool, |pool|);
            && x == Raised(e, pool, heads, q)
            && if k < |pool| then q == Marked(e, pool[k], true) else q in Brought(e, pool, heads, user, |heads|)
  {
    var heads := Heads(e, pool, |pool|);
    var marked, brought := MarkAll(e, pool, true), Brought(e, pool, heads, user, |heads|);
    var out := Resolved(e, pool, user, true);
    var j :| 0 <= j < |out| && out[j] == x;
    k, q := j, (marked + brought)[j];
    assert x == Raised(e, pool, heads, q);
    if j >= |pool| {
      assert q == brought[j - |pool|];
    }
  }

  lemma {:induction false} Beats(s: real, d: real, stalePrior: real, headPrior: real, head: real)
    requires d > 0.0 && stalePrior > 0.0 && headPrior > 0.0 && d * stalePrior <= headPrior
    requires head >= s / d && head >= 0.0
    ensures head * headPrior >= s * stalePrior
  {
    if s <= 0.0 {
      SignMul(head, headPrior);
      SignMul(-s, stalePrior);
      assert (-s) * stalePrior == -(s * stalePrior);
    } else {
      assert (s / d) * d == s;
      ScaleUp(head, s / d, headPrior);
      ScaleUp(headPrior, d * stalePrior, s / d);
      Rearrange(s / d, d, stalePrior);
    }
  }

  lemma {:induction false} SignMul(a: real, b: real)
    requires a >= 0.0 && b >= 0.0
    ensures a * b >= 0.0
  {
  }

  lemma {:induction false} ScaleUp(a: real, b: real, c: real)
    requires a >= b && c >= 0.0
    ensures a * c >= b * c
  {
    SignMul(a - b, c);
    assert (a - b) * c == a * c - b * c;
  }

  lemma {:induction false} Rearrange(q: real, d: real, p: real)
    ensures (d * p) * q == (q * d) * p
  {
  }

  /**
    With verified supersessions, a current belief in the results comes before every memory
    it replaced, for any sorted arrangement, as long as the demotion outweighs the role
    priors. Equal priors and a demotion of at most 1 always qualify.
   */
  lemma {:induction false} CurrentBeforeStale(e: Engine, pool: seq<Item>, user: Option<string>, firstPerson: bool,
                                              out: seq<Item>, i: nat, j: nat)
    requires Searched(pool) && HeadsAreCurrent(e, pool)
    requires SortedOf(out, WeighAll(firstPerson, Resolved(e, pool, user, true)))
    requires i < |out| && j < |out| && out[i].supersededBy == Some(out[j].id)
    requires Demotion(e, out[i].id) * Prior(firstPerson, out[i].role) <= Prior(firstPerson, out[j].role)
    ensures j < i
  {
    hide Heads, Owed, Brought, WeighAll, Resolved, Demotion, Prior, HeadsAreCurrent, Searched, MaxOf;
    var resolved := Resolved(e, pool, user, true);
    var stale := Unweigh(firstPerson, resolved, out, i);
    var head := Unweigh(firstPerson, resolved, out, j);
    var k := StaleFrom(e, pool, user, stale);
    HeadScore(e, pool, user, k, head);
    Beats(pool[k].score, Demotion(e, pool[k].id), Prior(firstPerson, stale.role), Prior(firstPerson, head.role), head.score);
  }

  lemma {:induction false} Unweigh(firstPerson: bool, resolved: seq<Item>, out: seq<Item>, i: nat) returns (x: Item)
    requires SortedOf(out, WeighAll(firstPerson, resolved)) && i < |out|
    ensures x in resolved && out[i] == Weighed(firstPerson, x)
  {
    var weighed := WeighAll(firstPerson, resolved);
    assert out[i] in multiset(out);
    assert out[i] in weighed;
    var k :| 0 <= k < |weighed| && weighed[k] == out[i];
    x := resolved[k];
  }

  /** A superseded result is a candidate of the search, with the score the search gave it. */
  lemma {:induction false} StaleFrom(e: Engine, pool: seq<Item>, user: Option<string>, x: Item) returns (k: nat)
    requires Searched(pool) && HeadsAreCurrent(e, pool)
    requires x in Resolved(e, pool, user, true) && x.supersededBy.Some?
    ensures k < |pool| && IsStale(e, pool[k].id) && x == Marked(e, pool[k], true)
  {
    hide Owed, Brought, Resolved;
    var heads := Heads(e, pool, |pool|);
    var q;
    k, q := ResolvedFrom(e, pool, user, x);
    BroughtAre(e, pool, heads, user, |heads|);
    assert k < |pool|;
    assert pool[k].supersededBy.None?;
  }

  /** A current belief in the results has at least the place it is owed. */
  lemma {:induction false} HeadScore(e: Engine, pool: seq<Item>, user: Option<string>, k: nat, head: Item)
    requires Searched(pool) && HeadsAreCurrent(e, pool) && k < |pool| && IsStale(e, pool[k].id)
    requires head in Resolved(e, pool, user, true) && head.id == e.head(pool[k].id)
    ensures head.score >= Before(e, pool[k]) && head.score >= 0.0 && head.supersededBy.None?
  {
    hide Owed, Brought, Resolved;
    var heads := Heads(e, pool, |pool|);
    var m, q := ResolvedFrom(e, pool, user, head);
    BroughtAre(e, pool, heads, user, |heads|);
    OwedAtLeast(e, pool, k, |pool|);
    assert head.id in heads;
  }

  /** A live, visible current belief is always among the results. */
  lemma {:induction false} CurrentIsPresent(e: Engine, pool: seq<Item>, user: Option<string>, k: nat)
    requires k < |pool| && IsStale(e, pool[k].id)
    requires var h := e.head(pool[k].id); Has(pool, h) || (h in e.live && Visible(e.live[h], user))
    ensures exists x :: x in Resolved(e, pool, user, true) && x.id == e.head(pool[k].id)
  {
    hide Owed, Brought;
    var h := e.head(pool[k].id);
    var heads := Heads(e, pool, |pool|);
    var marked, brought := MarkAll(e, pool, true), Brought(e, pool, heads, user, |heads|);
    var out := Resolved(e, pool, user, true);
    if Has(pool, h) {
      var m :| 0 <= m < |pool| && pool[m].id == h;
      assert out[m].id == h;
      assert out[m] in out;
    } else {
      BroughtAre(e, pool, heads, user, |heads|);
      assert h in heads;
      var n :| 0 <= n < |heads| && heads[n] == h;
      var q :| q in brought && q.id == h;
      var b :| 0 <= b < |brought| && brought[b] == q;
      assert (marked + brought)[|marked| + b] == q;
      assert out[|marked| + b].id == h;
      assert out[|marked| + b] in out;
    }
  }

  /** `pool[:top_k]`, for any integer. */
  function Cut(out: seq<Item>, topK: int): (r: seq<Item>)
    ensures r <= out && (0 <= topK <= |out| ==> |r| == topK) && (topK > |out| ==> r == out)
    ensures topK < 0 ==> |r| == if -topK < |out| then |out| + topK else 0
  {
    if topK >= |out| then out else if topK >= 0 then out[..topK] else if |out| + topK >= 0 then out[..|out| + topK] else []
  }

  /**
    So every cut of the ranking that shows a superseded memory also shows the belief that
    replaced it, unless that one is gone or belongs to someone else.
   */
  lemma {:induction false} CutHoldsCurrent(e: Engine, pool: seq<Item>, user: Option<string>, firstPerson: bool,
                                           out: seq<Item>, topK: int, i: nat)
    requires Searched(pool) && HeadsAreCurrent(e, pool)
    requires SortedOf(out, WeighAll(firstPerson, Resolved(e, pool, user, true)))
    requires i < |Cut(out, topK)| && out[i].supersededBy.Some?
    requires var h := out[i].supersededBy.value; Has(pool, h) || (h in e.live && Visible(e.live[h], user))
    requires forall x :: x in out && Some(x.id) == out[i].supersededBy ==>
               Demotion(e, out[i].id) * Prior(firstPerson, out[i].role) <= Prior(firstPerson, x.role)
    ensures exists j :: 0 <= j < i && Cut(out, topK)[j].id == out[i].supersededBy.value
  {
    hide Heads, Owed, Brought, Resolved, Demotion, Prior, HeadsAreCurrent, Searched, Raised, MaxOf;
    var resolved := Resolved(e, pool, user, true);
    var stale := Unweigh(firstPerson, resolved, out, i);
    var k := StaleFrom(e, pool, user, stale);
    CurrentIsPresent(e, pool, user, k);
    var x :| x in resolved && x.id == e.head(pool[k].id);
    var j := PlaceOf(firstPerson, resolved, out, x);
    CurrentBeforeStale(e, pool, user, firstPerson, out, i, j);
    assert Cut(out, topK)[j] == out[j];
  }

  lemma {:induction false} PlaceOf(firstPerson: bool, resolved: seq<Item>, out: seq<Item>, x: Item) returns (j: nat)
    requires SortedOf(out, WeighAll(firstPerson, resolved)) && x in resolved
    ensures j < |out| && out[j] == Weighed(firstPerson, x)
  {
    var weighed := WeighAll(firstPerson, resolved);
    var k :| 0 <= k < |resolved| && resolved[k] == x;
    assert weighed[k] in multiset(weighed);
    assert weighed[k] in out;
    j :| 0 <= j < |out| && out[j] == weighed[k];
  }

  /**
    The condition on the priors is exact: when one memory is found and its current belief
    has to be brought in, the current belief leads if and only if the memory's score is not
    positive or its demotion outweighs the priors.
   */
  lemma {:induction false} BroughtInLeadsIff(e: Engine, p: Item, user: Option<string>, firstPerson: bool, out: seq<Item>)
    requires p.supersededBy.None? && IsStale(e, p.id) && !IsStale(e, e.head(p.id))
    requires e.head(p.id) in e.live && Visible(e.live[e.head(p.id)], user)
    requires SortedOf(out, WeighAll(firstPerson, Resolved(e, [p], user, true)))
    ensures |out| == 2
    ensures out[0].id == e.head(p.id) <==>
            p.score <= 0.0
            || Demotion(e, p.id) * Prior(firstPerson, p.role) <= Prior(firstPerson, e.live[e.head(p.id)].role)
  {
    hide Demotion, Prior, SortedOf, WeighAll, Resolved, Visible;
    var h := e.head(p.id);
    var f := e.live[h];
    ResolvedPair(e, p, user);
    var a := Marked(e, p, true);
    var b := Item(h, f.text, MaxOf(0.0, Before(e, p)), f.role, None, false);
    var first := PairOrder(firstPerson, a, b, out);
    LeadsIff(p.score, Demotion(e, p.id), Prior(firstPerson, p.role), Prior(firstPerson, f.role));
  }

  lemma {:induction false} LeadsIff(s: real, d: real, ps: real, ph: real)
    requires d > 0.0 && ps > 0.0 && ph > 0.0
    ensures MaxOf(0.0, s / d) * ph >= s * ps <==> s <= 0.0 || d * ps <= ph
  {
    if s > 0.0 {
      QuotientSign(s, d);
      if d * ps > ph {
        Loses(s, d, ps, ph);
      } else {
        Beats(s, d, ps, ph, s / d);
      }
    } else {
      NonPositive(s, d);
      SignMul(-s, ps);
      assert (-s) * ps == -(s * ps);
    }
  }

  lemma {:induction false} QuotientSign(s: real, d: real)
    requires s > 0.0 && d > 0.0
    ensures s / d > 0.0
  {
  }

  lemma {:induction false} NonPositive(s: real, d: real)
    requires s <= 0.0 && d > 0.0
    ensures s / d <= 0.0
  {
  }

  lemma {:induction false} Loses(s: real, d: real, ps: real, ph: real)
    requires s > 0.0 && d > 0.0 && d * ps > ph
    ensures (s / d) * ph < s * ps
  {
    QuotientSign(s, d);
    Rearrange(s / d, d, ps);
    assert (s / d) * d == s;
    StrictScale(d * ps, ph, s / d);
  }

  lemma {:induction false} StrictScale(a: real, b: real, c: real)
    requires a > b && c > 0.0
    ensures a * c > b * c
  {
    assert (a - b) * c > 0.0;
    assert (a - b) * c == a * c - b * c;
  }

  lemma {:induction false} ResolvedPair(e: Engine, p: Item, user: Option<string>)
    requires p.supersededBy.None? && IsStale(e, p.id) && !IsStale(e, e.head(p.id))
    requires e.head(p.id) in e.live && Visible(e.live[e.head(p.id)], user)
    ensures var f := e.live[e.head(p.id)];
            Resolved(e, [p], user, true)
            == [Marked(e, p, true), Item(e.head(p.id), f.text, MaxOf(0.0, Before(e, p)), f.role, None, false)]
  {
    hide Demotion;
    var h := e.head(p.id);
    var f := e.live[h];
    assert Owed(e, [p], h, 0) == 0.0;
    var owed := Owed(e, [p], h, 1);
    assert Heads(e, [p], 0) == [];
    assert Heads(e, [p], 1) == [h];
    assert !Has([p], h);
    assert Brought(e, [p], [h], user, 0) == [];
    assert Brought(e, [p], [h], user, 1) == [Item(h, f.text, owed, f.role, None, false)];
    assert MarkAll(e, [p], true) == [Marked(e, p, true)];
  }

  /** The better of two goes first, whichever way round they came. */
  lemma {:induction false} PairOrder(firstPerson: bool, a: Item, b: Item, out: seq<Item>) returns (first: bool)
    requires SortedOf(out, WeighAll(firstPerson, [a, b])) && a.id != b.id && a.supersededBy.Some? && b.supersededBy.None?
    ensures |out| == 2 && (out[0].id == b.id <==> first)
    ensures first <==> Weighed(firstPerson, b).score >= Weighed(firstPerson, a).score
  {
    var w := WeighAll(firstPerson, [a, b]);
    assert w == [w[0], w[1]];
    assert |multiset(out)| == |out| && |multiset(w)| == 2;
    assert w[0] in multiset(out) && w[1] in multiset(out);
    assert w[0] in out && w[1] in out;
    first := Weighed(firstPerson, b).score >= Weighed(firstPerson, a).score;
  }

  // ----- where the heads come from --------------------------------------------------------------

  /** The engine resolves ids by walking the supersession graph; an unknown id resolves to itself. */
  ghost predicate FromGraph(e: Engine, g: Belief.Graph, node: map<string, Belief.Node>)
  {
    && (forall a, b :: a in node && b in node && node[a] == node[b] ==> a == b)
    && (forall id :: id !in node ==> e.head(id) == id)
    && (forall id :: id in node ==> e.head(id) in node && node[e.head(id)] == Belief.Head(g, node[id]))
  }

  /** Chains that end give heads that are current. */
  lemma {:induction false} GraphHeadsAreCurrent(e: Engine, g: Belief.Graph, node: map<string, Belief.Node>, pool: seq<Item>)
    requires FromGraph(e, g, node)
    requires forall i :: 0 <= i < |pool| && pool[i].id in node ==> Belief.Halts(g, node[pool[i].id])
    ensures HeadsAreCurrent(e, pool)
  {
    hide Belief.Head, Belief.Halts;
    forall i | 0 <= i < |pool|
      ensures !IsStale(e, e.head(pool[i].id))
    {
      var id := pool[i].id;
      if id in node {
        assert Belief.Reaches(g, node[id], 0, node[id]);
        Belief.ChainAgrees(g, node[id], 0, node[id]);
      }
    }
  }
}
