/** The `Memory` object's write side (tsm/memory.py): `add`, `consolidate`, `compact`. */
module MemoryApi {
  import opened Wrappers
  import opened Text
  import opened Packing
  import opened Compaction
  import opened Planner
  import opened Partition
  import opened Store
  import opened Passes
  import I = Ids

  datatype MemoryError = Closed | BudgetTooLow | NoBudget | PlanFailed(error: PlanError) | BadEmbeddings | Refused
                       | DeleteFailed

  /**
    What code outside the model answers during one pass, user by user; `deletes` is how many
    delete calls the engine serves before one raises.
   */
  datatype Outside = Outside(replies: string -> Summarizer, superseded: string -> set<string>,
                             embeds: string -> bool, accepts: string -> bool, deletes: string -> nat)

  /** Every outside call that a pass for this user could make, folding at most `n` memories, succeeds. */
  ghost predicate Healthy(out: Outside, user: string, n: nat)
  {
    && (forall k, lines, limit :: out.replies(user)(k, lines, limit).Some?)
    && out.embeds(user) && out.accepts(user) && out.deletes(user) >= n
  }

  ghost predicate AllHealthy(out: Outside, user: Option<string>, rs: seq<Rec>)
  {
    forall u :: user.None? || user == Some(u) ==> Healthy(out, u, |Scoped(rs, Some(u))|)
  }

  function Batch(ids: seq<string>, texts: seq<string>, roles: seq<string>, scope: Option<string>): (r: seq<Rec>)
    requires |ids| == |texts| == |roles|
    ensures |r| == |ids| && TextsOf(r) == texts
    ensures forall i :: 0 <= i < |r| ==> r[i] == Rec(ids[i], texts[i], scope, roles[i])
  {
    seq(|ids|, i requires 0 <= i < |ids| => Rec(ids[i], texts[i], scope, roles[i]))
  }

  /** Ids as `_next_id` hands them out: distinct, not live, numbered from `lo + 1` to `hi`. */
  ghost predicate NewlyMinted(ids: seq<string>, rs: seq<Rec>, lo: nat, hi: nat)
  {
    && lo <= hi
    && (forall i, j :: 0 <= i < j < |ids| ==> ids[i] != ids[j])
    && (forall i :: 0 <= i < |ids| ==> ids[i] !in Ids(rs) && Between(ids[i], lo, hi))
  }

  /** No live id of this user carries a number past the counter. */
  ghost predicate NonePast(user: Option<string>, rs: seq<Rec>, counter: nat)
  {
    forall n: nat :: n > counter ==> I.IdOf(user, n) !in Ids(rs)
  }

  lemma {:induction false} BatchIsNew(rs: seq<Rec>, ids: seq<string>, texts: seq<string>, roles: seq<string>,
                                      scope: Option<string>, lo: nat, hi: nat)
    requires UniqueIds(rs) && |ids| == |texts| == |roles| && NewlyMinted(ids, rs, lo, hi)
    ensures var b := Batch(ids, texts, roles, scope);
            UniqueIds(rs + b) && UniqueIds(b) && Ids(rs) !! Ids(b) && Evolves(rs, lo, rs + b, hi)
  {
    hide Between;
    var b := Batch(ids, texts, roles, scope);
    UniqueConcat(rs, b);
  }

  /** The ids numbered from `lo + 1` up to, but not including, `hi`. */
  ghost function Tried(user: Option<string>, lo: nat, hi: nat): (s: set<string>)
    decreases hi
  {
    if hi <= lo + 1 then {} else Tried(user, lo, hi - 1) + {I.IdOf(user, hi - 1)}
  }

  lemma {:induction false} TriedIff(user: Option<string>, lo: nat, hi: nat, n: nat)
    ensures I.IdOf(user, n) in Tried(user, lo, hi) <==> lo < n < hi
  {
    hide I.IdOf;
    if hi > lo + 1 {
      TriedIff(user, lo, hi - 1, n);
      if I.IdOf(user, n) == I.IdOf(user, hi - 1) {
        I.IdsCarryNumber(user, user, n, hi - 1);
      }
    }
  }

  lemma {:induction false} MintedSnoc(ids: seq<string>, rs: seq<Rec>, lo: nat, mid: nat, hi: nat, user: Option<string>)
    requires NewlyMinted(ids, rs, lo, mid) && mid < hi && I.IdOf(user, hi) !in Ids(rs)
    ensures NewlyMinted(ids + [I.IdOf(user, hi)], rs, lo, hi)
  {
    hide I.IdOf;
    var all := ids + [I.IdOf(user, hi)];
    forall i | 0 <= i < |ids|
      ensures ids[i] != I.IdOf(user, hi) && Between(ids[i], lo, hi)
    {
      assert Between(ids[i], lo, mid);
      var v, n: nat :| lo < n <= mid && ids[i] == I.IdOf(v, n);
      if ids[i] == I.IdOf(user, hi) {
        I.IdsCarryNumber(v, user, n, hi);
        assert false;
      }
    }
    assert Between(I.IdOf(user, hi), lo, hi);
  }

  /** Ids minted in two calls, one after the other, all differ, whatever became of the inserts and whoever the users are. */
  lemma {:induction false} MintedApart(first: seq<string>, a: seq<Rec>, lo: nat, mid: nat, second: seq<string>, b: seq<Rec>,
                                       from: nat, hi: nat, i: nat, j: nat)
    requires NewlyMinted(first, a, lo, mid) && NewlyMinted(second, b, from, hi) && mid <= from
    requires i < |first| && j < |second|
    ensures first[i] != second[j]
  {
    hide I.IdOf;
    assert Between(first[i], lo, mid) && Between(second[j], from, hi);
    var u, m: nat :| lo < m <= mid && first[i] == I.IdOf(u, m);
    var v, n: nat :| from < n <= hi && second[j] == I.IdOf(v, n);
    if first[i] == second[j] {
      I.IdsCarryNumber(u, v, m, n);
      assert false;
    }
  }

  class Memory {
    const maxUserTokens: Option<nat>
    const hasSummarizer: bool
    var store: seq<Rec>
    var counter: nat
    var touched: set<string>
    var closed: bool

    ghost predicate Valid()
      reads this
    {
      UniqueIds(store) && (maxUserTokens.Some? ==> maxUserTokens.value >= 16)
    }

    ghost predicate Fits(user: string)
      reads this
    {
      maxUserTokens.Some? ==> OwnedTokens(store, Some(user)) <= maxUserTokens.value
    }

    /** The summarizer a pass of this user's calls, when there is one. */
    function Summaries(out: Outside, user: string): (s: Option<Summarizer>)
    {
      if hasSummarizer then Some(out.replies(user)) else None
    }

    /** Every user over budget is due for a pass. */
    ghost predicate Tracked()
      reads this
    {
      forall user :: user !in touched ==> Fits(user)
    }

    /** Opening a database whose next insert sequence number is `nextSeq`. */
    constructor Open(records: seq<Rec>, nextSeq: nat, max: Option<nat>, summarizer: bool)
      requires UniqueIds(records) && (max.Some? ==> max.value >= 16)
      ensures Valid() && store == records && counter == (if nextSeq == 0 then 0 else nextSeq - 1)
      ensures touched == {} && !closed && maxUserTokens == max && hasSummarizer == summarizer
    {
      store, touched, closed := records, {}, false;
      counter := if nextSeq == 0 then 0 else nextSeq - 1;
      maxUserTokens, hasSummarizer := max, summarizer;
    }

    /** `_next_id`: the first number past the counter whose id is not live. */
    method NextId(user: Option<string>) returns (id: string)
      modifies this`counter
      ensures counter > old(counter) && id == I.IdOf(user, counter) && id !in Ids(store)
      ensures forall n: nat :: old(counter) < n < counter ==> I.IdOf(user, n) in Ids(store)
    {
      hide I.IdOf, Ids, Tried;
      ghost var lo := counter;
      counter := counter + 1;
      id := I.IdOf(user, counter);
      assert Tried(user, lo, counter) == {} by { TriedNone(user, lo); }
      while id in Ids(store)
        invariant counter > lo && id == I.IdOf(user, counter)
        invariant Tried(user, lo, counter) <= Ids(store)
        decreases |Ids(store) - Tried(user, lo, counter)|
      {
        TriedIff(user, lo, counter, counter);
        FewerLeft(Ids(store), Tried(user, lo, counter), id);
        TriedSnoc(user, lo, counter);
        counter := counter + 1;
        id := I.IdOf(user, counter);
      }
      forall n: nat | lo < n < counter
        ensures I.IdOf(user, n) in Ids(store)
      {
        TriedIff(user, lo, counter, n);
      }
    }

    method MintIds(user: Option<string>, k: nat) returns (ids: seq<string>)
      modifies this`counter
      ensures |ids| == k && counter >= old(counter) && NewlyMinted(ids, store, old(counter), counter)
      ensures k == 0 ==> counter == old(counter)
      ensures NonePast(user, store, old(counter)) ==>
                counter == old(counter) + k && forall i :: 0 <= i < k ==> ids[i] == I.IdOf(user, old(counter) + 1 + i)
    {
      hide I.IdOf, NewlyMinted;
      ids := [];
      assert NewlyMinted([], store, counter, counter) by { NoneMinted(store, counter); }
      while |ids| < k
        invariant |ids| <= k && counter >= old(counter) && NewlyMinted(ids, store, old(counter), counter)
        invariant ids == [] ==> counter == old(counter)
        invariant NonePast(user, store, old(counter)) ==>
                    counter == old(counter) + |ids|
                    && forall i :: 0 <= i < |ids| ==> ids[i] == I.IdOf(user, old(counter) + 1 + i)
      {
        ghost var mid := counter;
        var id := NextId(user);
        MintedSnoc(ids, store, old(counter), mid, counter, user);
        assert counter > mid + 1 ==> I.IdOf(user, mid + 1) in Ids(store);
        ids := ids + [id];
      }
    }

    /**
      The write section of `add`, for facts already extracted: all of them are stored, in
      order and under new ids, or none is.
     */
    method Add(facts: seq<string>, roles: seq<string>, user: Option<string>, embedded: bool, accepted: bool)
      returns (r: Result<nat, MemoryError>)
      requires Valid() && |facts| == |roles|
      modifies this`store, this`counter, this`touched
      ensures Valid() && Evolves(old(store), old(counter), store, counter)
      ensures r.Ok? <==> !closed && (facts == [] || (embedded && accepted))
      ensures r.Ok? ==> r.value == |facts| && |store| == |old(store)| + |facts| && old(store) <= store
      ensures r.Ok? ==> TextsOf(store[|old(store)|..]) == facts
      ensures r.Ok? ==> forall i :: 0 <= i < |facts| ==>
                store[|old(store)| + i].scope == user && store[|old(store)| + i].role == roles[i]
      ensures r.Err? ==> store == old(store) && touched == old(touched)
      ensures !closed && facts != [] && embedded && old(NonePast(user, store, counter)) ==>
                && counter == old(counter) + |facts|
                && forall i :: |old(store)| <= i < |store| ==>
                     store[i].id == I.IdOf(user, old(counter) + 1 + i - |old(store)|)
      ensures old(Tracked()) ==> Tracked()
    {
      hide Between, I.IdOf, NonePast;
      if closed {
        return Err(Closed);
      }
      if facts == [] {
        return Ok(0);
      }
      if !embedded {
        return Err(BadEmbeddings);
      }
      ghost var before := store;
      var ids := MintIds(user, |facts|);
      if !accepted {
        return Err(Refused);
      }
      var batch := Batch(ids, facts, roles, user);
      BatchIsNew(store, ids, facts, roles, user, old(counter), counter);
      store := store + batch;
      assert store[|before|..] == batch;
      if maxUserTokens.Some? && user.Some? {
        touched := touched + {user.value};
      }
      AddKeepsTracked(before, batch, user);
      return Ok(|facts|);
    }

    // ----- compaction ---------------------------------------------------------------------

    /** The deletions of a pass, one call per folded memory, until one raises. */
    method DeleteAll(records: seq<Rec>, fold: seq<nat>, works: nat) returns (done: nat)
      requires InRange(fold, |records|)
      modifies this`store
      ensures done == Served(works, fold) && store == Without(old(store), IdsAt(records, fold[..done]))
    {
      hide Without, IdsAt;
      NothingDeleted(store, records);
      assert fold[..0] == [];
      done := 0;
      while done < |fold| && done < works
        invariant done <= |fold| && done <= works && store == Without(old(store), IdsAt(records, fold[..done]))
      {
        DeletedOneMore(old(store), records, fold, done);
        store := Without(store, {records[fold[done]].id});
        done := done + 1;
      }
    }

    /**
      The locked part of a pass, for a plan made on an earlier snapshot `records`: nothing
      at all happens unless every folded memory is still live, and the gists are written
      before anything is deleted. If a delete raises, the gists and the deletes before it
      stay, and so does the user's mark.
     */
    method ApplyPlan(user: string, records: seq<Rec>, plan: Plan, accepted: bool, works: nat)
      returns (r: Result<nat, MemoryError>, ghost gists: seq<Rec>)
      requires Valid() && InRange(plan.fold, |records|) && |plan.gists| == |plan.gistRoles|
      modifies this`store, this`counter, this`touched
      ensures Valid() && Evolves(old(store), old(counter), store, counter)
      ensures !(IdsAt(records, plan.fold) <= Ids(old(store))) ==>
                r == Ok(0) && store == old(store) && touched == old(touched) && counter == old(counter)
      ensures IdsAt(records, plan.fold) <= Ids(old(store)) ==>
                r == if plan.gists != [] && !accepted then Err(Refused)
                     else if works < |plan.fold| then Err(DeleteFailed) else Ok(|plan.fold|)
      ensures IdsAt(records, plan.fold) <= Ids(old(store)) && r != Err(Refused) ==>
                && UniqueIds(old(store) + gists) && OwnedBy(gists, user) && TextsOf(gists) == plan.gists
                && (forall i :: 0 <= i < |gists| ==> gists[i].role == plan.gistRoles[i])
                && store == Applied(old(store), gists, IdsAt(records, plan.fold[..Served(works, plan.fold)]))
                && touched == if r.Ok? then old(touched) - {user} else old(touched)
      ensures r == Err(Refused) ==> store == old(store) && touched == old(touched)
      ensures plan.gists == [] ==> counter == old(counter)
      ensures r.Ok? && IdsAt(records, plan.fold) <= Ids(old(store)) && Foldable(records, plan.fold, old(store), user)
              && maxUserTokens.Some? ==>
                (Fits(user) <==> OwnedTokens(old(store), Some(user)) + TotalTokens(plan.gists)
                                 <= maxUserTokens.value + TotalTokens(PickAt(TextsOf(records), plan.fold)))
      ensures r.Ok? && IdsAt(records, plan.fold) <= Ids(old(store)) && maxUserTokens.Some? ==>
                forall base, added :: PlannedOn(old(store), base, added, records, user, plan) ==>
                  (Fits(user) <==> TotalTokens(PickAt(TextsOf(records), plan.keep)) + TotalTokens(plan.gists)
                                   + OwnedTokens(added, Some(user)) <= maxUserTokens.value)
    {
      hide Between, I.IdOf, Without, IdsAt, Ids, NewlyMinted, Foldable, PickAt, TotalTokens, OwnedTokens, PlannedOn;
      gists := [];
      var gone := IdsAt(records, plan.fold);
      if !(gone <= Ids(store)) {
        return Ok(0), gists;
      }
      var ids := MintIds(Some(user), |plan.gists|);
      if plan.gists != [] && !accepted {
        return Err(Refused), gists;
      }
      ghost var before := store;
      var batch := Batch(ids, plan.gists, plan.gistRoles, Some(user));
      gists := batch;
      BatchIsNew(store, ids, plan.gists, plan.gistRoles, Some(user), old(counter), counter);
      store := store + batch;
      UniqueWithout(store, IdsAt(records, plan.fold[..Served(works, plan.fold)]));
      var done := DeleteAll(records, plan.fold, works);
      if done < |plan.fold| {
        return Err(DeleteFailed), gists;
      }
      touched := touched - {user};
      Whole(plan.fold);
      FoldedTokens(before, gists, user, records, plan.fold, |plan.fold|);
      ArrivedTokens(before, gists, user, records, plan);
      return Ok(|plan.fold|), gists;
    }

    /**
      `_compact_user`, run without interference: the user ends within budget, keeping the
      facts `Split` picks and nothing else but gists, and nobody else is affected. A call
      that fails before its gists are written changes no record; one whose delete raises
      leaves all gists and a prefix of the deletes, and the user marked.
     */
    method CompactUser(user: string, superseded: set<string>, out: Outside)
      returns (r: Result<nat, MemoryError>, ghost plan: Plan, ghost gists: seq<Rec>, ghost chunks: seq<Chunk>)
      requires Valid() && maxUserTokens.Some?
      modifies this`store, this`counter, this`touched
      ensures Valid() && Evolves(old(store), old(counter), store, counter)
      ensures !old(Fits(user)) ==>
                r == if !Replied(maxUserTokens.value, Summaries(out, user), chunks) then Err(PlanFailed(SummarizerFailed))
                     else if plan.gists != [] && !out.embeds(user) then Err(BadEmbeddings)
                     else if plan.gists != [] && !out.accepts(user) then Err(Refused)
                     else if out.deletes(user) < |plan.fold| then Err(DeleteFailed)
                     else Ok(|plan.fold|)
      ensures !old(Fits(user)) && hasSummarizer ==>
                AsksAbout(Scoped(old(store), Some(user)), superseded, maxUserTokens.value, chunks)
      ensures !old(Fits(user)) && Replied(maxUserTokens.value, Summaries(out, user), chunks) ==>
                && GistsFrom(maxUserTokens.value, Summaries(out, user), chunks, plan)
                && PlanFor(Scoped(old(store), Some(user)), superseded, maxUserTokens.value, hasSummarizer, plan)
      ensures r.Ok? ==> Fits(user) && touched == old(touched) - {user}
      ensures r.Err? ==> touched == old(touched) && !old(Fits(user))
      ensures r.Err? && r.error != DeleteFailed ==> store == old(store) && hasSummarizer
      ensures r == Err(DeleteFailed) ==>
                HalfDoneBy(Scoped(old(store), Some(user)), Scoped(store, Some(user)), superseded, maxUserTokens.value,
                           hasSummarizer, out.deletes(user), plan, gists)
      ensures r.Err? ==> (store == old(store) <==> r.error != DeleteFailed || (plan.gists == [] && out.deletes(user) == 0))
      ensures OthersSame(old(store), store, user)
      ensures old(Fits(user)) <==> r == Ok(0)
      ensures old(Fits(user)) ==> store == old(store)
      ensures r.Ok? && r.value > 0 ==>
                Compacted(old(store), store, user, superseded, maxUserTokens.value, hasSummarizer, r.value, plan.gists)
      ensures old(Tracked()) ==> Tracked()
    {
      hide TotalTokens, TextsOf, Scoped, UniqueIds, Ids, IdsAt, Without, Between, Compacted, OthersSame, OwnedBy,
           Applied, PlanFor, InRange, HalfDoneBy, Foldable, PickAt, Replied, GistsFrom, AsksAbout;
      plan, gists, chunks := Plan([], [], [], []), [], [];
      var records := Scoped(store, Some(user));
      var max := maxUserTokens.value;
      SameStore(store, user);
      if TotalTokens(TextsOf(records)) <= max {
        touched := touched - {user};
        return Ok(0), plan, gists, chunks;
      }
      var made;
      made, chunks := MakePlan(records, superseded, max, Summaries(out, user));
      if made.Err? {
        return Err(PlanFailed(made.error)), plan, gists, chunks;
      }
      var p := made.value;
      plan := p;
      PlanForShape(records, superseded, max, hasSummarizer, p);
      if p.gists != [] && !out.embeds(user) {
        return Err(BadEmbeddings), plan, gists, chunks;
      }
      ghost var before := store;
      SnapIsLive(store, user, p.fold);
      r, gists := ApplyPlan(user, records, p, out.accepts(user), out.deletes(user));
      if r.Ok? {
        Whole(p.fold);
        PassCompacts(before, gists, user, superseded, max, hasSummarizer, p);
        OthersFit(before, store, user);
      } else if r == Err(DeleteFailed) {
        PassStops(before, gists, user, superseded, max, hasSummarizer, p, out.deletes(user));
        OthersFit(before, store, user);
      }
    }

    /**
      `compact`, for one user or for every scope the engine lists. When it succeeds everyone
      it was asked for fits; when it raises, each user's records are as they were or fit,
      except for `stopped`, the one user whose pass stopped between two deletes.
     */
    method Compact(user: Option<string>, scopes: seq<string>, out: Outside)
      returns (r: Result<nat, MemoryError>, ghost stopped: Option<string>)
      requires Valid() && forall x :: x in store && x.scope.Some? ==> x.scope.value in scopes
      modifies this`store, this`counter, this`touched
      ensures Valid() && Evolves(old(store), old(counter), store, counter)
      ensures closed ==> r == Err(Closed)
      ensures !closed && maxUserTokens.None? ==> r == Err(NoBudget)
      ensures closed || maxUserTokens.None? ==> store == old(store) && touched == old(touched)
      ensures !closed && maxUserTokens.Some? && AllHealthy(out, user, old(store)) ==> r.Ok?
      ensures r.Ok? && user.Some? ==> Fits(user.value) && OthersSame(old(store), store, user.value)
      ensures r.Ok? && user.None? ==> forall u :: Fits(u)
      ensures forall u :: Fits(u) || Scoped(store, Some(u)) == Scoped(old(store), Some(u)) || stopped == Some(u)
      ensures stopped.Some? ==>
                && r == Err(DeleteFailed) && maxUserTokens.Some? && maxUserTokens.value >= 16
                && HalfDone(Scoped(old(store), stopped), Scoped(store, stopped), out.superseded(stopped.value),
                            maxUserTokens.value, hasSummarizer, out.deletes(stopped.value))
      ensures Scoped(store, None) == Scoped(old(store), None)
      ensures old(Tracked()) ==> Tracked()
    {
      hide Scoped, UniqueIds, Evolves, OthersSame, Compacted, Ids, OwnedTokens, HalfDoneBy, HalfDone, Replied, GistsFrom, AsksAbout, Healthy,
           Splits, Split, TotalTokens, PickAt, IsGist;
      stopped := None;
      NoChange(store, counter);
      if closed {
        return Err(Closed), stopped;
      }
      if maxUserTokens.None? {
        return Err(NoBudget), stopped;
      }
      if user.Some? {
        ghost var before := store;
        ghost var plan, gists, chunks;
        r, plan, gists, chunks := CompactUser(user.value, out.superseded(user.value), out);
        Sound(Scoped(before, user), maxUserTokens.value, out, user.value, Summaries(out, user.value), chunks, plan);
        OthersAre(before, store, user.value);
        if r == Err(DeleteFailed) {
          stopped := user;
          HalfDoneIs(Scoped(before, user), Scoped(store, user), out.superseded(user.value), maxUserTokens.value, hasSummarizer,
                     out.deletes(user.value), plan, gists);
        }
        return;
      }
      UnlistedFit(store, scopes);
      var total := 0;
      for i := 0 to |scopes|
        invariant Valid() && Evolves(old(store), old(counter), store, counter)
        invariant forall u :: u in scopes[..i] || u !in scopes ==> Fits(u)
        invariant forall u :: Fits(u) || Scoped(store, Some(u)) == Scoped(old(store), Some(u))
        invariant Scoped(store, None) == Scoped(old(store), None)
        invariant old(Tracked()) ==> Tracked()
      {
        ghost var before, mid := store, counter;
        ghost var plan, gists, chunks;
        var one;
        one, plan, gists, chunks := CompactUser(scopes[i], out.superseded(scopes[i]), out);
        Sound(Scoped(before, Some(scopes[i])), maxUserTokens.value, out, scopes[i], Summaries(out, scopes[i]), chunks, plan);
        OthersAre(before, store, scopes[i]);
        EvolvesOn(old(store), old(counter), before, mid, store, counter);
        if one.Err? {
          if one == Err(DeleteFailed) {
            stopped := Some(scopes[i]);
            HalfDoneIs(Scoped(before, stopped), Scoped(store, stopped), out.superseded(scopes[i]), maxUserTokens.value,
                       hasSummarizer, out.deletes(scopes[i]), plan, gists);
          }
          return one, stopped;
        }
        total := total + one.value;
      }
      return Ok(total), stopped;
    }

    /** What a failed pass may have done to `user`'s records since `before`: nothing, or stopped between two deletes. */
    ghost predicate SameOrHalfDone(before: seq<Rec>, user: string, out: Outside)
      reads this
      requires maxUserTokens.Some? && maxUserTokens.value >= 16
    {
      || (Scoped(store, Some(user)) == Scoped(before, Some(user)) && hasSummarizer)
      || HalfDone(Scoped(before, Some(user)), Scoped(store, Some(user)), out.superseded(user), maxUserTokens.value,
                  hasSummarizer, out.deletes(user))
    }

    /**
      The maintenance part of `consolidate`: a pass for every touched user, in any order,
      with failures swallowed. A user no longer marked fits; a user still marked has the
      records they had, or all the gists and a prefix of the deletes of a pass that stopped;
      nobody else is affected.
     */
    method CompactTouched(order: seq<string>, out: Outside)
      requires Valid() && maxUserTokens.Some? && (forall u :: u in order <==> u in touched)
      requires forall i, j :: 0 <= i < j < |order| ==> order[i] != order[j]
      modifies this`store, this`counter, this`touched
      ensures Valid() && Evolves(old(store), old(counter), store, counter)
      ensures touched <= old(touched)
      ensures forall u :: u in old(touched) && u !in touched ==> Fits(u)
      ensures forall u :: u in touched ==> SameOrHalfDone(old(store), u, out)
      ensures forall u :: u in touched ==> !Healthy(out, u, |Scoped(old(store), Some(u))|)
      ensures forall u :: u !in old(touched) ==> Scoped(store, Some(u)) == Scoped(old(store), Some(u))
      ensures Scoped(store, None) == Scoped(old(store), None)
      ensures old(Tracked()) ==> Tracked()
    {
      hide Scoped, UniqueIds, Evolves, OthersSame, Compacted, Ids, OwnedTokens, HalfDoneBy, HalfDone, Replied, GistsFrom, AsksAbout, Healthy,
           Splits, Split, TotalTokens, PickAt, IsGist;
      NoChange(store, counter);
      for i := 0 to |order|
        invariant Valid() && Evolves(old(store), old(counter), store, counter)
        invariant touched <= old(touched)
        invariant forall u :: u in old(touched) && u !in touched ==> Fits(u) && u !in order[i..]
        invariant forall u :: u in touched ==> u in order[i..] || SameOrHalfDone(old(store), u, out)
        invariant forall u :: u in touched ==> u in order[i..] || !Healthy(out, u, |Scoped(old(store), Some(u))|)
        invariant forall u :: u in order[i..] || u !in old(touched) ==> Scoped(store, Some(u)) == Scoped(old(store), Some(u))
        invariant Scoped(store, None) == Scoped(old(store), None)
        invariant old(Tracked()) ==> Tracked()
      {
        ghost var before, mid := store, counter;
        ghost var plan, gists, chunks;
        var one;
        Drop(order, i);
        one, plan, gists, chunks := CompactUser(order[i], out.superseded(order[i]), out);
        Sound(Scoped(before, Some(order[i])), maxUserTokens.value, out, order[i], Summaries(out, order[i]), chunks, plan);
        if one == Err(DeleteFailed) {
          HalfDoneIs(Scoped(before, Some(order[i])), Scoped(store, Some(order[i])), out.superseded(order[i]), maxUserTokens.value,
                     hasSummarizer, out.deletes(order[i]), plan, gists);
        }
        OthersAre(before, store, order[i]);
        EvolvesOn(old(store), old(counter), before, mid, store, counter);
      }
    }
  }

  /** With healthy surroundings the condition under which a pass succeeds holds. */
  lemma {:induction false} Sound(snap: seq<Rec>, max: nat, out: Outside, user: string, summarize: Option<Summarizer>,
                                 chunks: seq<Chunk>, plan: Plan)
    requires max >= 16 && (summarize.Some? ==> summarize.value == out.replies(user))
    ensures Healthy(out, user, |snap|) ==> Replied(max, summarize, chunks) && out.embeds(user) && out.accepts(user)
    ensures Healthy(out, user, |snap|) && |plan.keep| + |plan.fold| == |snap| ==> out.deletes(user) >= |plan.fold|
  {
  }

  lemma {:induction false} Drop(order: seq<string>, i: nat)
    requires i < |order| && forall a, b :: 0 <= a < b < |order| ==> order[a] != order[b]
    ensures order[i] in order[i..] && order[i] !in order[i + 1..]
    ensures forall u :: u in order[i..] <==> u == order[i] || u in order[i + 1..]
  {
    assert order[i..] == [order[i]] + order[i + 1..];
  }

  /** Deletes served before one raises. */
  function Served(works: nat, fold: seq<nat>): (n: nat)
    ensures n <= |fold| && n <= works
  {
    if works < |fold| then works else |fold|
  }

  /** The planned fold names distinct records of the user that are live as they were planned. */
  ghost predicate Foldable(records: seq<Rec>, fold: seq<nat>, at: seq<Rec>, user: string)
    requires InRange(fold, |records|)
  {
    UniqueIds(records) && Rising(fold) && FoldLive(records, fold, at, user)
  }

  lemma {:induction false} FoldedTokens(at: seq<Rec>, gists: seq<Rec>, user: string, records: seq<Rec>, fold: seq<nat>, n: nat)
    requires UniqueIds(at + gists) && OwnedBy(gists, user) && InRange(fold, |records|) && n <= |fold|
    ensures Foldable(records, fold, at, user) ==>
              OwnedTokens(Applied(at, gists, IdsAt(records, fold[..n])), Some(user)) + TotalTokens(PickAt(TextsOf(records), fold[..n]))
              == OwnedTokens(at, Some(user)) + TotalTokens(TextsOf(gists))
  {
    hide UniqueIds, Applied, IdsAt, PickAt, OwnedTokens, TotalTokens, FoldLive;
    if Foldable(records, fold, at, user) {
      PassEffect(at, gists, user, records, fold, n);
    }
  }

  /** `records` was the user's snapshot of `base`, which `plan` splits, and `added` has been stored since. */
  ghost predicate PlannedOn(at: seq<Rec>, base: seq<Rec>, added: seq<Rec>, records: seq<Rec>, user: string, plan: Plan)
  {
    at == base + added && records == Scoped(base, Some(user)) && Splits(|records|, plan.keep, plan.fold)
  }

  lemma {:induction false} ArrivedTokens(at: seq<Rec>, gists: seq<Rec>, user: string, records: seq<Rec>, plan: Plan)
    requires UniqueIds(at + gists) && OwnedBy(gists, user) && InRange(plan.fold, |records|)
    ensures forall base, added :: PlannedOn(at, base, added, records, user, plan) ==>
              OwnedTokens(Applied(at, gists, IdsAt(records, plan.fold)), Some(user))
              == TotalTokens(PickAt(TextsOf(records), plan.keep)) + TotalTokens(TextsOf(gists)) + OwnedTokens(added, Some(user))
  {
    hide UniqueIds, Applied, IdsAt, PickAt, OwnedTokens, TotalTokens, Scoped;
    forall base, added | PlannedOn(at, base, added, records, user, plan)
      ensures OwnedTokens(Applied(at, gists, IdsAt(records, plan.fold)), Some(user))
              == TotalTokens(PickAt(TextsOf(records), plan.keep)) + TotalTokens(TextsOf(gists)) + OwnedTokens(added, Some(user))
    {
      AddedTokens(base, added, gists, user, plan.keep, plan.fold);
    }
  }

  // ----- a pass that stops between two deletes ---------------------------------------------------

  /** All of the plan's gists are live, and exactly its first `done` folded memories are gone. */
  ghost predicate HalfDoneBy(snap: seq<Rec>, left: seq<Rec>, superseded: set<string>, max: nat, summarizer: bool, done: nat,
                             plan: Plan, gists: seq<Rec>)
    requires max >= 16
  {
    && PlanFor(snap, superseded, max, summarizer, plan) && done < |plan.fold|
    && TextsOf(gists) == plan.gists && (forall g :: g in gists ==> IsGist(g.role))
    && left == Without(snap, IdsAt(snap, plan.fold[..done])) + gists
  }

  ghost predicate HalfDone(snap: seq<Rec>, left: seq<Rec>, superseded: set<string>, max: nat, summarizer: bool, done: nat)
    requires max >= 16
  {
    exists plan, gists :: HalfDoneBy(snap, left, superseded, max, summarizer, done, plan, gists)
  }

  lemma {:induction false} HalfDoneIs(snap: seq<Rec>, left: seq<Rec>, superseded: set<string>, max: nat, summarizer: bool,
                                      done: nat, plan: Plan, gists: seq<Rec>)
    requires max >= 16 && HalfDoneBy(snap, left, superseded, max, summarizer, done, plan, gists)
    ensures HalfDone(snap, left, superseded, max, summarizer, done)
  {
    hide HalfDoneBy;
  }

  /** The tokens a stopped pass leaves, to the unit. */
  lemma {:induction false} HalfDoneTokens(snap: seq<Rec>, left: seq<Rec>, superseded: set<string>, max: nat, summarizer: bool,
                                          done: nat, plan: Plan, gists: seq<Rec>)
    requires max >= 16 && UniqueIds(snap) && HalfDoneBy(snap, left, superseded, max, summarizer, done, plan, gists)
    ensures TotalTokens(TextsOf(left)) + TotalTokens(PickAt(TextsOf(snap), plan.fold[..done]))
            == TotalTokens(TextsOf(snap)) + TotalTokens(plan.gists)
  {
    hide UniqueIds, Without, IdsAt, PickAt, TotalTokens, Split, IsGist;
    var kept := Without(snap, IdsAt(snap, plan.fold[..done]));
    assert forall k :: 0 <= k < |plan.fold| ==> snap[plan.fold[k]] in snap;
    RemovedTokens(snap, snap, plan.fold, done);
    TextsConcat(kept, gists);
    TotalConcat(TextsOf(kept), TextsOf(gists));
  }

  /** A stopped pass leaves every memory it keeps and every one it had not come to. */
  lemma {:induction false} HalfDoneKeeps(snap: seq<Rec>, left: seq<Rec>, superseded: set<string>, max: nat, summarizer: bool,
                                         done: nat, plan: Plan, gists: seq<Rec>, i: nat)
    requires max >= 16 && UniqueIds(snap) && HalfDoneBy(snap, left, superseded, max, summarizer, done, plan, gists)
    requires i < |snap|
    ensures i !in plan.fold[..done] ==> snap[i] in left
    ensures i in plan.fold[..done] && snap[i] in left ==> snap[i] in gists
  {
    hide UniqueIds, Without, IdsAt, PickAt, TotalTokens, Split, IsGist;
    IdAtIff(snap, plan.fold[..done], i);
    assert snap[i] in snap;
  }

  lemma {:induction false} PassStops(before: seq<Rec>, gists: seq<Rec>, user: string, superseded: set<string>, max: nat,
                                     summarizer: bool, plan: Plan, done: nat)
    requires max >= 16 && UniqueIds(before + gists) && OwnedBy(gists, user) && TextsOf(gists) == plan.gists
    requires |gists| == |plan.gistRoles| && forall i :: 0 <= i < |gists| ==> gists[i].role == plan.gistRoles[i]
    requires PlanFor(Scoped(before, Some(user)), superseded, max, summarizer, plan) && done < |plan.fold|
    ensures var snap := Scoped(before, Some(user));
            var after := Applied(before, gists, IdsAt(snap, plan.fold[..done]));
            && HalfDoneBy(snap, Scoped(after, Some(user)), superseded, max, summarizer, done, plan, gists)
            && OthersSame(before, after, user)
            && (after == before <==> plan.gists == [] && done == 0)
  {
    hide TotalTokens, RolesOf, Scoped, UniqueIds, Ids, IdsAt, Without, Split, Barred, IsGist, Applied, PickAt;
    var snap := Scoped(before, Some(user));
    UniqueHalves(before, gists);
    UniqueScoped(before, Some(user));
    OwnFoldLive(before, user, plan.fold);
    PassEffect(before, gists, user, snap, plan.fold, done);
    assert forall g :: g in gists ==> exists i :: 0 <= i < |gists| && gists[i] == g;
    ChangedIff(before, gists, user, plan.fold, done);
  }

  lemma {:induction false} OwnFoldLive(before: seq<Rec>, user: string, fold: seq<nat>)
    requires InRange(fold, |Scoped(before, Some(user))|)
    ensures FoldLive(Scoped(before, Some(user)), fold, before, user)
  {
    hide Scoped;
    var snap := Scoped(before, Some(user));
    forall k | 0 <= k < |fold|
      ensures snap[fold[k]] in before && snap[fold[k]].scope == Some(user)
    {
      assert snap[fold[k]] in snap;
    }
  }

  /** Writing a gist or deleting a folded memory changes the store. */
  lemma {:induction false} ChangedIff(before: seq<Rec>, gists: seq<Rec>, user: string, fold: seq<nat>, done: nat)
    requires Ids(before) !! Ids(gists) && InRange(fold, |Scoped(before, Some(user))|) && done <= |fold|
    requires FoldLive(Scoped(before, Some(user)), fold, before, user)
    ensures Applied(before, gists, IdsAt(Scoped(before, Some(user)), fold[..done])) == before <==> gists == [] && done == 0
  {
    hide Scoped, Without;
    var snap := Scoped(before, Some(user));
    var gone := IdsAt(snap, fold[..done]);
    var after := Applied(before, gists, gone);
    if gists != [] {
      assert gists[0] in before + gists && gists[0].id in Ids(gists);
      NewAreApart(before, gists, user, snap, fold, done);
      assert gists[0] in after;
    } else if done > 0 {
      var x := snap[fold[0]];
      assert snap[fold[..done][0]].id in gone;
      assert x in before && x !in after;
    } else {
      assert fold[..0] == [];
      NothingDeleted(before, snap);
      NoTail(before);
    }
  }

  /** `Memory(...)` on a database with these records, whose next insert sequence number is `nextSeq`. */
  method Connect(records: seq<Rec>, nextSeq: nat, max: Option<int>, summarizer: bool)
    returns (r: Result<Memory, MemoryError>)
    requires UniqueIds(records)
    ensures r.Err? <==> max.Some? && max.value < 16
    ensures r.Err? ==> r.error == BudgetTooLow
    ensures r.Ok? ==> fresh(r.value) && r.value.Valid() && r.value.store == records && r.value.touched == {}
    ensures r.Ok? ==> r.value.counter + 1 == (if nextSeq == 0 then 1 else nextSeq) && r.value.maxUserTokens == max
    ensures r.Ok? ==> r.value.hasSummarizer == summarizer && !r.value.closed
    ensures r.Ok? ==> forall user, n: nat :: I.IdOf(user, n) in Ids(records) ==>
              (Mintable(I.IdOf(user, n), r.value.counter) <==> n >= 1 && n >= nextSeq)
  {
    hide I.IdOf, Mintable;
    if max.Some? && max.value < 16 {
      return Err(BudgetTooLow);
    }
    var limit: Option<nat> := if max.Some? then Some(max.value) else None;
    var m := new Memory.Open(records, nextSeq, limit, summarizer);
    forall user, n: nat
      ensures Mintable(I.IdOf(user, n), m.counter) <==> n > m.counter
    {
      MintableIff(user, n, m.counter);
    }
    return Ok(m);
  }

  lemma {:induction false} NoChange(rs: seq<Rec>, n: nat)
    ensures Evolves(rs, n, rs, n)
    ensures forall user :: OthersSame(rs, rs, user)
  {
  }

  lemma {:induction false} OthersAre(before: seq<Rec>, after: seq<Rec>, user: string)
    requires OthersSame(before, after, user)
    ensures Scoped(after, None) == Scoped(before, None)
    ensures forall u: string :: u != user ==> Scoped(after, Some(u)) == Scoped(before, Some(u))
    ensures forall u: string :: u != user ==> OwnedTokens(after, Some(u)) == OwnedTokens(before, Some(u))
  {
  }

  /** A user the engine does not list owns nothing. */
  lemma {:induction false} UnlistedFit(rs: seq<Rec>, scopes: seq<string>)
    requires forall x :: x in rs && x.scope.Some? ==> x.scope.value in scopes
    ensures forall u :: u !in scopes ==> OwnedTokens(rs, Some(u)) == 0
  {
    forall u | u !in scopes
      ensures OwnedTokens(rs, Some(u)) == 0
    {
      OwnsNothing(rs, Some(u));
    }
  }

  lemma {:induction false} OwnsNothing(rs: seq<Rec>, owner: Option<string>)
    requires forall x :: x in rs ==> x.scope != owner
    ensures Scoped(rs, owner) == [] && OwnedTokens(rs, owner) == 0
  {
    if rs != [] {
      var front, last := rs[..|rs| - 1], rs[|rs| - 1];
      assert rs == front + [last];
      OwnsNothing(front, owner);
    }
  }

  /** What a pass asks of a plan for its snapshot. */
  ghost predicate PlanFor(snap: seq<Rec>, superseded: set<string>, max: nat, summarizer: bool, plan: Plan)
    requires max >= 16
  {
    var limit := if summarizer then max - GistLimit(PassSettings(max)) else max;
    && Splits(|snap|, plan.keep, plan.fold) && plan.fold != [] && |plan.keep| + |plan.fold| == |snap|
    && (plan.keep, plan.fold) == Split(TextsOf(snap), RolesOf(snap), Barred(snap, superseded), limit) && Rising(plan.fold)
    && |plan.gists| == |plan.gistRoles| && (forall role :: role in plan.gistRoles ==> IsGist(role))
    && (summarizer || plan.gists == [])
    && TotalTokens(PickAt(TextsOf(snap), plan.keep)) + TotalTokens(plan.gists) <= max
  }

  lemma {:induction false} PlanForShape(snap: seq<Rec>, superseded: set<string>, max: nat, summarizer: bool, plan: Plan)
    requires max >= 16 && PlanFor(snap, superseded, max, summarizer, plan)
    ensures InRange(plan.fold, |snap|) && plan.fold != [] && |plan.gists| == |plan.gistRoles|
    ensures summarizer || plan.gists == []
  {
  }

  lemma {:induction false} NoRoles(snap: seq<Rec>, superseded: set<string>, max: nat, plan: Plan)
    requires max >= 16 && PlanFor(snap, superseded, max, false, plan)
    ensures plan.gists == [] && plan.gistRoles == []
  {
  }

  lemma {:induction false} IsPlanFor(snap: seq<Rec>, superseded: set<string>, max: nat, summarizer: bool, plan: Plan)
    requires max >= 16 && ValidPlan(TextsOf(snap), RolesOf(snap), max, Barred(snap, superseded), plan)
    requires var limit := if summarizer then max - GistLimit(PassSettings(max)) else max;
             (plan.keep, plan.fold) == Split(TextsOf(snap), RolesOf(snap), Barred(snap, superseded), limit)
    requires summarizer || plan.gists == []
    ensures PlanFor(snap, superseded, max, summarizer, plan)
  {
    hide TotalTokens, TextsOf, RolesOf, Split, ValidPlan, Barred, Splits, IsGist, PickAt;
    PlanShape(snap, max, Barred(snap, superseded), plan);
  }

  /** Every chunk's reply arrived. */
  ghost predicate Replied(max: nat, summarize: Option<Summarizer>, chunks: seq<Chunk>)
    requires max >= 16
  {
    summarize.Some? ==> AllReplied(chunks, GistLimit(PassSettings(max)), summarize.value, |chunks|)
  }

  /** `chunks` is what a pass asks the summarizer: what it folds, once and in order. */
  ghost predicate AsksAbout(snap: seq<Rec>, superseded: set<string>, max: nat, chunks: seq<Chunk>)
    requires max >= 16
  {
    var s := PassSettings(max);
    var fold := Split(TextsOf(snap), RolesOf(snap), Barred(snap, superseded), max - GistLimit(s)).1;
    InRange(fold, |snap|) && Asked(TextsOf(snap), RolesOf(snap), fold, s, chunks)
  }

  /** The plan's gists are what the summarizer wrote about the chunks, cut to whole facts. */
  ghost predicate GistsFrom(max: nat, summarize: Option<Summarizer>, chunks: seq<Chunk>, plan: Plan)
    requires max >= 16 && Replied(max, summarize, chunks)
  {
    (plan.gists, plan.gistRoles)
    == if summarize.Some? then GistsOf(chunks, GistLimit(PassSettings(max)), summarize.value, |chunks|) else ([], [])
  }

  /** Planning a pass over budget. It fails exactly when a call of the summarizer does. */
  method MakePlan(records: seq<Rec>, superseded: set<string>, max: nat, summarize: Option<Summarizer>)
    returns (r: Result<Plan, PlanError>, ghost chunks: seq<Chunk>)
    requires max >= 16 && TotalTokens(TextsOf(records)) > max
    ensures r.Ok? <==> Replied(max, summarize, chunks)
    ensures summarize.Some? ==> AsksAbout(records, superseded, max, chunks)
    ensures r.Ok? ==> GistsFrom(max, summarize, chunks, r.value)
    ensures r.Ok? ==> PlanFor(records, superseded, max, summarize.Some?, r.value)
    ensures r.Err? ==> summarize.Some? && r.error == SummarizerFailed
  {
    hide TotalTokens, TextsOf, RolesOf, Split, ValidPlan, Barred, Asked, GistsOf, AllReplied, Splits, IsGist, PickAt, LimitSum, InRange, GistLimit, PlanFor;
    var s := PassSettings(max);
    var barred := Barred(records, superseded);
    var made, asked := PlanCompaction(TextsOf(records), RolesOf(records), s, summarize, barred);
    chunks := asked;
    if made.Err? {
      return Err(made.error), chunks;
    }
    var plan := made.value.value;
    IsPlanFor(records, superseded, max, summarize.Some?, plan);
    if summarize.None? {
      NoRoles(records, superseded, max, plan);
    }
    return Ok(plan), chunks;
  }

  /** What a plan for these records looks like, beyond its token bound. */
  lemma {:induction false} PlanShape(snap: seq<Rec>, max: nat, barred: set<int>, plan: Plan)
    requires ValidPlan(TextsOf(snap), RolesOf(snap), max, barred, plan)
    ensures Splits(|snap|, plan.keep, plan.fold) && Rising(plan.fold) && plan.fold != [] && |plan.gists| == |plan.gistRoles|
    ensures |plan.keep| + |plan.fold| == |snap|
    ensures TotalTokens(PickAt(TextsOf(snap), plan.keep)) + TotalTokens(plan.gists) <= max
    ensures forall role :: role in plan.gistRoles ==> IsGist(role)
  {
    hide TotalTokens, TextsOf, RolesOf, PickAt, IsGist;
    HalvesCount(plan.keep, plan.fold, |snap|);
  }

  lemma {:induction false} HalvesCount(keep: seq<nat>, fold: seq<nat>, n: nat)
    requires Rising(keep) && Rising(fold) && InRange(keep, n) && InRange(fold, n)
    requires forall i: nat :: i < n ==> (i in keep <==> i !in fold)
    ensures |keep| + |fold| == n
  {
    hide Upto, Rising;
    HalvesUpto(keep, fold, n, n);
    UptoAll(keep, n);
    UptoAll(fold, n);
  }

  lemma {:induction false} UptoAll(keep: seq<nat>, n: nat)
    requires Rising(keep) && InRange(keep, n)
    ensures Upto(keep, n) == |keep|
  {
  }

  lemma {:induction false} HalvesUpto(keep: seq<nat>, fold: seq<nat>, n: nat, m: nat)
    requires Rising(keep) && Rising(fold) && m <= n
    requires forall i: nat :: i < n ==> (i in keep <==> i !in fold)
    ensures Upto(keep, m) + Upto(fold, m) == m
  {
    hide Rising, Upto;
    if m == 0 {
      NoneUpto(keep);
      NoneUpto(fold);
    } else {
      HalvesUpto(keep, fold, n, m - 1);
      InKeep(keep, m - 1);
      InKeep(fold, m - 1);
    }
  }

  /** Nobody but `user` is affected. */
  ghost predicate OthersSame(before: seq<Rec>, after: seq<Rec>, user: string)
  {
    forall other :: other != Some(user) ==> Scoped(after, other) == Scoped(before, other)
  }

  lemma {:induction false} SameStore(rs: seq<Rec>, user: string)
    ensures OthersSame(rs, rs, user)
  {
  }

  lemma {:induction false} OthersFit(before: seq<Rec>, after: seq<Rec>, user: string)
    requires OthersSame(before, after, user)
    ensures forall u: string :: u != user ==> OwnedTokens(after, Some(u)) == OwnedTokens(before, Some(u))
  {
  }

  /** `user` is left with the facts a pass keeps, then these gists and nothing else; `folded` memories are gone. */
  ghost predicate Compacted(before: seq<Rec>, after: seq<Rec>, user: string, superseded: set<string>, max: nat,
                            summarizer: bool, folded: nat, gists: seq<string>)
    requires max >= 16
  {
    var snap, left := Scoped(before, Some(user)), Scoped(after, Some(user));
    var kept := KeptRecords(snap, superseded, max, summarizer);
    && folded == |snap| - |kept| && kept <= left && TextsOf(left[|kept|..]) == gists
    && (forall g :: g in left[|kept|..] ==> IsGist(g.role))
    && (!summarizer ==> kept == left)
  }

  /** A pass without interference: what its user is left with. */
  lemma {:induction false} PassCompacts(before: seq<Rec>, gists: seq<Rec>, user: string, superseded: set<string>, max: nat,
                                        summarizer: bool, plan: Plan)
    requires max >= 16 && UniqueIds(before + gists) && OwnedBy(gists, user) && TextsOf(gists) == plan.gists
    requires |gists| == |plan.gistRoles| && forall i :: 0 <= i < |gists| ==> gists[i].role == plan.gistRoles[i]
    requires PlanFor(Scoped(before, Some(user)), superseded, max, summarizer, plan)
    ensures var after := Applied(before, gists, IdsAt(Scoped(before, Some(user)), plan.fold));
            && OwnedTokens(after, Some(user)) <= max
            && Compacted(before, after, user, superseded, max, summarizer, |plan.fold|, plan.gists)
            && OthersSame(before, after, user)
  {
    hide TotalTokens, TextsOf, Scoped, UniqueIds, Ids, IdsAt, Without, IsGist, Applied, KeptRecords, PickAt, PlanFor,
         Splits, OwnedTokens;
    var snap := Scoped(before, Some(user));
    PlanParts(snap, superseded, max, summarizer, plan);
    NoTail(before);
    AddedTokens(before, [], gists, user, plan.keep, plan.fold);
    NoOne(Some(user));
    AddedEffect(before, [], gists, user, plan.keep, plan.fold, None);
    NoTail(PickAt(snap, plan.keep));
    Prefix(PickAt(snap, plan.keep), gists);
    forall other | other != Some(user)
      ensures Scoped(Applied(before, gists, IdsAt(snap, plan.fold)), other) == Scoped(before, other)
    {
      AddedEffect(before, [], gists, user, plan.keep, plan.fold, other);
    }
    assert forall g :: g in gists ==> exists i :: 0 <= i < |gists| && gists[i] == g;
    if plan.gists == [] {
      NoTexts(gists);
    }
  }

  lemma {:induction false} NoTexts(rs: seq<Rec>)
    requires TextsOf(rs) == []
    ensures rs == []
  {
  }

  lemma {:induction false} PlanParts(snap: seq<Rec>, superseded: set<string>, max: nat, summarizer: bool, plan: Plan)
    requires max >= 16 && PlanFor(snap, superseded, max, summarizer, plan)
    ensures Splits(|snap|, plan.keep, plan.fold) && InRange(plan.keep, |snap|) && InRange(plan.fold, |snap|)
    ensures KeptRecords(snap, superseded, max, summarizer) == PickAt(snap, plan.keep)
    ensures |PickAt(snap, plan.keep)| + |plan.fold| == |snap|
    ensures TotalTokens(PickAt(TextsOf(snap), plan.keep)) + TotalTokens(plan.gists) <= max
    ensures (forall role :: role in plan.gistRoles ==> IsGist(role)) && (summarizer || plan.gists == [])
  {
    hide TotalTokens, TextsOf, RolesOf, Split, Barred, IsGist;
  }

  lemma {:induction false} NoOne(owner: Option<string>)
    ensures Scoped([], owner) == [] && OwnedTokens([], owner) == 0
  {
  }

  lemma {:induction false} Prefix<T>(a: seq<T>, b: seq<T>)
    ensures a <= a + b && (a + b)[|a|..] == b && (b == [] ==> a + b == a)
  {
  }

  /** Positions of replaced facts. */
  function Barred(snap: seq<Rec>, superseded: set<string>): (s: set<int>)
  {
    set i | 0 <= i < |snap| && snap[i].id in superseded
  }

  function PassSettings(max: nat): (s: Settings)
  {
    Settings(max, 0.5, 32, 4)
  }

  /** Half of a budget goes to gists, rounded to even, in one chunk for every 32 of its tokens, but at least one and at most four. */
  lemma {:induction false} PassShares(max: nat)
    requires max >= 16
    ensures var n, k := GistLimit(PassSettings(max)), ChunkCount(PassSettings(max));
            && (max % 2 == 0 ==> n == max / 2) && (max % 2 == 1 ==> n % 2 == 0 && (n == max / 2 || n == max / 2 + 1))
            && k == if n < 64 then 1 else if n < 96 then 2 else if n < 128 then 3 else 4
  {
    var s := PassSettings(max);
    var n := Round((max as real) * 0.5);
    RoundTies((max as real) * 0.5);
    assert 2 * n <= max + 1 && max - 1 <= 2 * n;
    assert GistLimit(s) == n;
  }

  /** The facts a pass keeps. */
  function KeptRecords(snap: seq<Rec>, superseded: set<string>, max: nat, summarizer: bool): (r: seq<Rec>)
    requires max >= 16
  {
    var limit := if summarizer then max - GistLimit(PassSettings(max)) else max;
    var keep := Split(TextsOf(snap), RolesOf(snap), Barred(snap, superseded), limit).0;
    assert InRange(keep, |snap|) by { KeepInRange(snap, superseded, limit); }
    PickAt(snap, keep)
  }

  lemma {:induction false} KeepInRange(snap: seq<Rec>, superseded: set<string>, limit: int)
    ensures InRange(Split(TextsOf(snap), RolesOf(snap), Barred(snap, superseded), limit).0, |snap|)
  {
  }

  /** A batch for one user leaves every other user's tokens alone. */
  lemma {:induction false} AddKeepsTracked(before: seq<Rec>, batch: seq<Rec>, user: Option<string>)
    requires forall b :: b in batch ==> b.scope == user
    ensures forall u: string :: Some(u) != user ==> OwnedTokens(before + batch, Some(u)) == OwnedTokens(before, Some(u))
  {
    forall u: string | Some(u) != user
      ensures OwnedTokens(before + batch, Some(u)) == OwnedTokens(before, Some(u))
    {
      ScopedConcat(before, batch, Some(u));
      ScopedAll(batch, user, Some(u));
      NoTail(Scoped(before, Some(u)));
    }
  }

  lemma {:induction false} TriedNone(user: Option<string>, lo: nat)
    ensures Tried(user, lo, lo + 1) == {}
  {
  }

  lemma {:induction false} TriedSnoc(user: Option<string>, lo: nat, hi: nat)
    requires lo < hi
    ensures Tried(user, lo, hi + 1) == Tried(user, lo, hi) + {I.IdOf(user, hi)}
  {
  }

  lemma {:induction false} NoneMinted(rs: seq<Rec>, n: nat)
    ensures NewlyMinted([], rs, n, n)
  {
  }
}
