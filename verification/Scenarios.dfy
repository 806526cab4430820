/**
  Concrete courses of events, run on the memory object itself, in which a pass does not do
  what its description says (tsm/memory.py `_compact_user`, `consolidate`).
 */
module Scenarios {
  import opened Wrappers
  import opened Text
  import opened Packing
  import opened Compaction
  import opened Planner
  import opened Store
  import opened Passes
  import opened MemoryApi
  import Races
  import I = Ids

  /** A snapshot of facts that are each over the budget is folded whole. */
  lemma {:induction false} AllFolded(snap: seq<Rec>, superseded: set<string>, max: nat, summarizer: bool, plan: Plan)
    requires max >= 16 && PlanFor(snap, superseded, max, summarizer, plan)
    requires forall r :: r in snap ==> Tokens(r.text) > max
    ensures plan.keep == [] && |plan.fold| == |snap|
    ensures forall k :: 0 <= k < |snap| ==> plan.fold[k] == k
  {
    hide Tokens, TotalTokens, Split, IsGist;
    var texts := PickAt(TextsOf(snap), plan.keep);
    if plan.keep != [] {
      assert snap[plan.keep[0]] in snap;
      FirstTokens(texts);
      assert false;
    }
    CountUp(plan.fold, |snap|);
  }

  lemma {:induction false} FirstTokens(texts: seq<string>)
    requires texts != []
    ensures TotalTokens(texts) >= Tokens(texts[0])
  {
    hide Tokens;
    assert texts == [texts[0]] + texts[1..];
    TotalConcat([texts[0]], texts[1..]);
    TotalOne(texts[0]);
  }

  /** Rising indexes that are all below their own number count up from zero. */
  lemma {:induction false} CountUp(s: seq<nat>, n: nat)
    requires Rising(s) && InRange(s, n) && |s| == n
    ensures forall k :: 0 <= k < n ==> s[k] == k
  {
    if n > 0 {
      var front := s[..n - 1];
      assert forall k :: 0 <= k < n - 1 ==> s[k] < s[n - 1];
      CountUp(front, n - 1);
      assert forall k :: 0 <= k < n - 1 ==> s[k] == front[k];
      assert n > 1 ==> s[n - 2] < s[n - 1];
    }
  }

  /**
    Two facts too heavy to keep, no summarizer, and an engine whose second delete raises:
    the pass fails, and yet the first fact is gone.
   */
  method FailedPassLosesAFact(text: string, max: nat) returns (m: Memory, r: Result<nat, MemoryError>)
    requires max >= 16 && Tokens(text) > max
    ensures fresh(m) && r == Err(DeleteFailed) && m.maxUserTokens == Some(max)
    ensures Scoped(m.store, Some("u")) == [Rec(Races.SECOND, text, Some("u"), "user")] && !m.Fits("u")
  {
    hide Tokens, TotalTokens, Scoped, Without, IdsAt, UniqueIds, PlanFor, Ids, Applied, Split, IsGist, PickAt;
    var records := Races.Pair(text);
    Races.PairFacts(text);
    var made := Connect(records, 3, Some(max), false);
    m := made.value;
    assert !m.Fits("u");
    ghost var plan, gists, chunks;
    var out := Outside(_ => (_, _, _) => None, _ => {}, _ => true, _ => true, _ => 1);
    r, plan, gists, chunks := m.CompactUser("u", {}, out);
    AllFolded(records, {}, max, false, plan);
    NoGists(records, {}, max, plan, gists);
    SecondIsLeft(text, plan.fold);
    TotalOne(text);
  }

  lemma {:induction false} NoGists(snap: seq<Rec>, superseded: set<string>, max: nat, plan: Plan, gists: seq<Rec>)
    requires max >= 16 && PlanFor(snap, superseded, max, false, plan) && TextsOf(gists) == plan.gists
    ensures gists == []
  {
  }

  lemma {:induction false} SecondIsLeft(text: string, fold: seq<nat>)
    requires |fold| == 2 && fold[0] == 0 && fold[1] == 1
    ensures InRange(fold[..1], 2)
    ensures Without(Races.Pair(text), IdsAt(Races.Pair(text), fold[..1])) == [Rec(Races.SECOND, text, Some("u"), "user")]
    ensures TextsOf([Rec(Races.SECOND, text, Some("u"), "user")]) == [text]
  {
    assert fold[..1] == [0];
    Races.IdsOfPair(text);
    Races.PairEmptied(text);
  }

  /**
    A pass is planned for one heavy fact; before it takes the lock another thread stores a
    second one. The pass applies, the user is over budget, and the mark is cleared.
   */
  method LateFactLeavesUserUnmarked(text: string, max: nat) returns (m: Memory)
    requires max >= 16 && Tokens(text) > max
    ensures fresh(m) && m.maxUserTokens == Some(max) && "u" !in m.touched && !m.Fits("u")
  {
    hide Tokens, TotalTokens, Scoped, Without, IdsAt, UniqueIds, PlanFor, Ids, Applied, Split, IsGist, PickAt, Evolves,
         PlannedOn;
    var base := [Rec("u_1", text, Some("u"), "user")];
    OneFact(base[0]);
    var made := Connect(base, 2, Some(max), false);
    m := made.value;
    var records := Scoped(m.store, Some("u"));
    ghost var chunks;
    var planned;
    planned, chunks := MakePlan(records, {}, max, None);
    var plan := planned.value;
    PlanForShape(records, {}, max, false, plan);
    var r := m.Add([text], ["user"], Some("u"), true, true);
    ghost var added := m.store[1..];
    assert m.store == base + added;
    assert added[0] == m.store[|base| + 0] && m.store[|base| + 0].role == ["user"][0];
    OneFact(added[0]);
    assert added == [added[0]];
    LivePlan(base, added, records, plan, max);
    ghost var gists;
    r, gists := m.ApplyPlan("u", records, plan, true, |plan.fold|);
  }

  /**
    A refused `add` uses up a number but no insert sequence number, so a store reopened
    after it can hold an id its counter is still to reach. One heavy fact is then folded by
    two passes of one snapshot; between them another fact is stored, under the id that
    became free. The second pass finds that id live and deletes the later fact.
   */
  method ReopenedStoreLosesALateFact(text: string, other: string, max: nat)
    returns (m: Memory, records: seq<Rec>, late: Rec, r: Result<nat, MemoryError>)
    requires max >= 16 && Tokens(text) > max
    ensures fresh(m) && late.text == other && records == [Rec(Races.SECOND, text, Some("u"), "user")]
    ensures late == records[0].(text := other) && r == Ok(1) && m.store == []
  {
    hide Tokens, TotalTokens, Scoped, Without, IdsAt, UniqueIds, PlanFor, Ids, Applied, Split, IsGist, PickAt, Evolves,
         PlannedOn, Foldable, NonePast, Mintable, Races.SECOND;
    Nobody();
    var made := Connect([], 1, Some(max), false);
    m := made.value;
    r := m.Add([text], ["user"], Some("u"), true, false);
    r := m.Add([text], ["user"], Some("u"), true, true);
    records := m.store;
    assert records[0].role == ["user"][0] && TextsOf(m.store[0..]) == [text] && m.store[0..] == m.store;
    SecondId();
    assert records == [Rec(Races.SECOND, text, Some("u"), "user")];
    OneFact(records[0]);

    made := Connect(records, 2, Some(max), false);
    m := made.value;
    ghost var chunks, gists;
    var planned;
    planned, chunks := MakePlan(records, {}, max, None);
    var plan := planned.value;
    WholeFold(records[0], max, plan);
    OneId(records[0]);
    r, gists := m.ApplyPlan("u", records, plan, true, 1);
    NoTexts(gists);
    AllGone(records[0]);

    r := m.Add([other], ["user"], Some("u"), true, true);
    late := m.store[0];
    assert late.role == ["user"][0] && TextsOf(m.store[0..]) == [other] && m.store[0..] == m.store;
    assert late == records[0].(text := other) && m.store == [late];
    OneId(late);
    r, gists := m.ApplyPlan("u", records, plan, true, 1);
    NoTexts(gists);
    AllGone(late);
  }

  lemma {:induction false} Nobody()
    ensures UniqueIds([]) && forall n: nat :: NonePast(Some("u"), [], n)
  {
  }

  lemma {:induction false} SecondId()
    ensures I.IdOf(Some("u"), 2) == Races.SECOND
  {
    assert I.Decimal(2) == "2";
  }

  lemma {:induction false} WholeFold(x: Rec, max: nat, plan: Plan)
    requires max >= 16 && PlanFor([x], {}, max, false, plan) && Tokens(x.text) > max
    ensures plan.fold == [0] && plan.fold[..1] == [0] && plan.gists == [] && plan.gistRoles == []
  {
    hide Tokens, PlanFor;
    AllFolded([x], {}, max, false, plan);
    NoRoles([x], {}, max, plan);
    assert plan.fold[0] == 0;
  }

  lemma {:induction false} OneId(x: Rec)
    ensures IdsAt([x], [0]) == {x.id} == Ids([x])
  {
    assert [0][0] == 0 && x in [x];
  }

  lemma {:induction false} AllGone(x: Rec)
    ensures Applied([x], [], {x.id}) == []
  {
    assert [x] + [] == [x];
    WithoutSelf(x);
  }

  lemma {:induction false} OneFact(x: Rec)
    requires x.scope == Some("u")
    ensures UniqueIds([x]) && Scoped([x], Some("u")) == [x] && TextsOf([x]) == [x.text]
    ensures OwnedTokens([x], Some("u")) == Tokens(x.text) == TotalTokens([x.text])
  {
    hide Tokens, Scoped;
    ScopedAll([x], Some("u"), Some("u"));
    TotalOne(x.text);
    TextOfOne(x);
  }

  lemma {:induction false} LivePlan(base: seq<Rec>, added: seq<Rec>, records: seq<Rec>, plan: Plan, max: nat)
    requires max >= 16 && records == Scoped(base, Some("u")) && PlanFor(records, {}, max, false, plan)
    ensures InRange(plan.fold, |records|) && IdsAt(records, plan.fold) <= Ids(base + added)
    ensures PlannedOn(base + added, base, added, records, "u", plan)
  {
    hide Scoped, Split, TotalTokens, IsGist, PickAt;
    SnapIsLive(base, "u", plan.fold);
    assert forall x :: x in base ==> x in base + added;
  }
}
