/**
  Two compaction passes for one user, planned on the same snapshot (tsm/memory.py
  `_compact_user`: the plan is made without the lock, and the superseded ids are read afresh
  by each pass).
 */
module Races {
  import opened Wrappers
  import opened Text
  import opened Packing
  import opened Compaction
  import opened Planner
  import opened Store
  import opened Passes
  import opened MemoryApi

  // ----- the same superseded memories -------------------------------------------------------

  /** Whatever the summarizer says, the snapshot and the superseded ids decide what is folded. */
  lemma {:induction false} SameFold(snap: seq<Rec>, superseded: set<string>, max: nat, summarizer: bool, p: Plan, q: Plan)
    requires max >= 16 && PlanFor(snap, superseded, max, summarizer, p) && PlanFor(snap, superseded, max, summarizer, q)
    ensures p.fold == q.fold && p.keep == q.keep && p.fold != []
  {
  }

  /**
    Two passes that saw the same snapshot and the same superseded memories never both apply:
    after the first, the second one's check fails at every later moment, as soon as the
    counter had reached one of the folded memories.
   */
  lemma {:induction false} OnlyOneApplies(base: seq<Rec>, i: nat, at: seq<Rec>, j: nat, gists: seq<Rec>, hi: nat,
                                          later: seq<Rec>, k: nat, user: string, superseded: set<string>, max: nat,
                                          summarizer: bool, p: Plan, q: Plan)
    requires max >= 16 && PlanFor(Scoped(base, Some(user)), superseded, max, summarizer, p)
    requires PlanFor(Scoped(base, Some(user)), superseded, max, summarizer, q)
    requires Evolves(base, i, at, j) && Evolves(at, j, Applied(at, gists, IdsAt(Scoped(base, Some(user)), p.fold)), hi)
    requires Evolves(Applied(at, gists, IdsAt(Scoped(base, Some(user)), p.fold)), hi, later, k)
    requires exists id :: id in IdsAt(Scoped(base, Some(user)), p.fold) && !Mintable(id, i)
    ensures !(IdsAt(Scoped(base, Some(user)), q.fold) <= Ids(later))
  {
    hide Evolves, Mintable, Scoped, Applied, PlanFor;
    var snap := Scoped(base, Some(user));
    SameFold(snap, superseded, max, summarizer, p, q);
    PlanForShape(snap, superseded, max, summarizer, p);
    var gone := IdsAt(snap, p.fold);
    FoldedOnce(base, i, at, j, gists, hi, later, k, gone, gone);
  }

  /**
    And only then: over all courses of events, two passes of one snapshot and one superseded
    set never both apply if and only if the counter had reached one of the folded memories.
   */
  lemma {:induction false} OnlyOneAppliesIff(base: seq<Rec>, i: nat, user: string, superseded: set<string>, max: nat,
                                             summarizer: bool, p: Plan, q: Plan)
    requires max >= 16 && UniqueIds(base) && PlanFor(Scoped(base, Some(user)), superseded, max, summarizer, p)
    requires PlanFor(Scoped(base, Some(user)), superseded, max, summarizer, q)
    ensures var gone := IdsAt(Scoped(base, Some(user)), p.fold);
            NeverBoth(base, i, gone, IdsAt(Scoped(base, Some(user)), q.fold)) <==> exists id :: id in gone && !Mintable(id, i)
  {
    hide Mintable, Scoped, PlanFor, IdsAt, UniqueIds, NeverBoth, Ids;
    var snap := Scoped(base, Some(user));
    SameFold(snap, superseded, max, summarizer, p, q);
    PlanForShape(snap, superseded, max, summarizer, p);
    SnapIsLive(base, user, p.fold);
    NeverBothIff(base, i, IdsAt(snap, p.fold), IdsAt(snap, q.fold));
  }

  // ----- any two plans ----------------------------------------------------------------------------

  /** With nothing written in between, the second pass applies after the first if and only if they fold no memory in common. */
  lemma {:induction false} BothApplyIff(base: seq<Rec>, gists: seq<Rec>, first: set<string>, second: set<string>)
    requires first <= Ids(base) && second <= Ids(base) && Ids(base) !! Ids(gists)
    ensures second <= Ids(Applied(base, gists, first)) <==> first !! second
  {
    hide Without;
    var after := Applied(base, gists, first);
    forall id | id in Ids(base)
      ensures id in Ids(after) <==> id !in first
    {
      var x :| x in base && x.id == id;
      assert x in base + gists;
    }
  }

  lemma {:induction false} SplitTokens(snap: seq<Rec>, keep: seq<nat>, fold: seq<nat>)
    requires UniqueIds(snap) && Splits(|snap|, keep, fold) && Rising(fold)
    ensures TotalTokens(PickAt(TextsOf(snap), keep)) + TotalTokens(PickAt(TextsOf(snap), fold)) == TotalTokens(TextsOf(snap))
  {
    hide UniqueIds, TotalTokens, PickAt, Without, IdsAt;
    assert forall k :: 0 <= k < |fold| ==> snap[fold[k]] in snap;
    Whole(fold);
    RemovedTokens(snap, snap, fold, |fold|);
    FoldedLeaves(snap, keep, fold);
    PickTexts(snap, keep);
  }

  /**
    What two passes that both apply leave: what both of them kept, and both sets of gists.
    Their tokens are what each plan was to leave, added, less what was there: under the
    budget, because the snapshot was over it.
   */
  lemma {:induction false} BothLeave(base: seq<Rec>, user: string, a: set<string>, b: set<string>, max: nat, summarizer: bool,
                                     p: Plan, q: Plan, g: seq<Rec>, h: seq<Rec>)
    requires max >= 16 && UniqueIds(base + g + h) && OwnedBy(g, user) && OwnedBy(h, user)
    requires TextsOf(g) == p.gists && TextsOf(h) == q.gists
    requires PlanFor(Scoped(base, Some(user)), a, max, summarizer, p) && PlanFor(Scoped(base, Some(user)), b, max, summarizer, q)
    requires OwnedTokens(base, Some(user)) > max
    requires IdsAt(Scoped(base, Some(user)), p.fold) !! IdsAt(Scoped(base, Some(user)), q.fold)
    ensures var snap := Scoped(base, Some(user));
            var one, two := IdsAt(snap, p.fold), IdsAt(snap, q.fold);
            var after := Applied(Applied(base, g, one), h, two);
            && Scoped(after, Some(user)) == Without(snap, one + two) + g + h
            && OwnedTokens(after, Some(user)) + OwnedTokens(base, Some(user))
               == (TotalTokens(PickAt(TextsOf(snap), p.keep)) + TotalTokens(p.gists))
                  + (TotalTokens(PickAt(TextsOf(snap), q.keep)) + TotalTokens(q.gists))
            && OwnedTokens(after, Some(user)) < max
  {
    hide UniqueIds, TotalTokens, PickAt, Without, IdsAt, Scoped, Applied, Split, IsGist, Ids, FoldLive, RolesOf, Barred;
    var snap := Scoped(base, Some(user));
    var one, two := IdsAt(snap, p.fold), IdsAt(snap, q.fold);
    var mid := Applied(base, g, one);
    UniqueHalves(base + g, h);
    UniqueHalves(base, g);
    UniqueScoped(base, Some(user));
    Whole(p.fold);
    Whole(q.fold);
    OwnFoldLive(base, user, p.fold);
    PassEffect(base, g, user, snap, p.fold, |p.fold|);
    MidUnique(base, g, h, one);
    StillLive(base, g, user, q.fold, one);
    PassEffect(mid, h, user, snap, q.fold, |q.fold|);
    SplitTokens(snap, p.keep, p.fold);
    SplitTokens(snap, q.keep, q.fold);
    GistsApart(base, g, user, q.fold);
    WithoutConcat(Without(snap, one), g, two);
    WithoutNone(g, two);
    WithoutTwice(snap, one, two);
  }

  lemma {:induction false} GistsApart(base: seq<Rec>, g: seq<Rec>, user: string, fold: seq<nat>)
    requires Ids(base) !! Ids(g) && InRange(fold, |Scoped(base, Some(user))|)
    ensures Ids(g) !! IdsAt(Scoped(base, Some(user)), fold)
  {
    hide Scoped, IdsAt, Ids;
    SnapIsLive(base, user, fold);
  }

  lemma {:induction false} MidUnique(base: seq<Rec>, g: seq<Rec>, h: seq<Rec>, one: set<string>)
    requires UniqueIds(base + g + h)
    ensures UniqueIds(Applied(base, g, one) + h)
  {
    hide UniqueIds, Without, Ids;
    UniqueHalves(base + g, h);
    UniqueWithout(base + g, one);
    WithoutTakes(base + g, one);
    UniqueConcat(Applied(base, g, one), h);
  }

  /** A memory the first pass does not fold is there for the second. */
  lemma {:induction false} StillLive(base: seq<Rec>, g: seq<Rec>, user: string, fold: seq<nat>, one: set<string>)
    requires InRange(fold, |Scoped(base, Some(user))|) && one !! IdsAt(Scoped(base, Some(user)), fold)
    ensures FoldLive(Scoped(base, Some(user)), fold, Applied(base, g, one), user)
  {
    hide Scoped, Without;
    var snap := Scoped(base, Some(user));
    forall k | 0 <= k < |fold|
      ensures snap[fold[k]] in Applied(base, g, one) && snap[fold[k]].scope == Some(user)
    {
      var x := snap[fold[k]];
      assert x in snap && x.id in IdsAt(snap, fold);
      assert x in base + g;
    }
  }

  // ----- two passes that undo each other ---------------------------------------------------------------

  const FIRST: string := "u_1"
  const SECOND: string := "u_2"

  function Pair(text: string): (rs: seq<Rec>)
  {
    [Rec(FIRST, text, Some("u"), "user"), Rec(SECOND, text, Some("u"), "user")]
  }

  /**
    Two facts that fit one at a time, each pass seeing a different one superseded: the folds
    are disjoint, both passes apply, and nothing is left, though each plan kept a fact.
   */
  lemma {:induction false} BothPassesCanEmptyAUser(text: string, max: nat)
    requires max >= 16 && Tokens(text) <= max < 2 * Tokens(text)
    ensures var base := Pair(text);
            var p, q := Plan([1], [0], [], []), Plan([0], [1], [], []);
            && UniqueIds(base) && Scoped(base, Some("u")) == base && OwnedTokens(base, Some("u")) > max
            && PlanFor(base, {FIRST}, max, false, p) && PlanFor(base, {SECOND}, max, false, q)
            && IdsAt(base, q.fold) <= Ids(Applied(base, [], IdsAt(base, p.fold)))
            && Applied(Applied(base, [], IdsAt(base, p.fold)), [], IdsAt(base, q.fold)) == []
  {
    hide Tokens, PlanFor, Applied;
    var base := Pair(text);
    PairFacts(text);
    PairPlan(text, max, 0);
    PairPlan(text, max, 1);
    IdsOfPair(text);
    PairEmptied(text);
  }

  lemma {:induction false} PairFacts(text: string)
    ensures var base := Pair(text);
            && UniqueIds(base) && Scoped(base, Some("u")) == base
            && TextsOf(base) == [text, text] && RolesOf(base) == ["user", "user"]
            && OwnedTokens(base, Some("u")) == 2 * Tokens(text)
  {
    hide Tokens, Scoped;
    var base := Pair(text);
    assert FIRST[2] != SECOND[2];
    ScopedAll(base, Some("u"), Some("u"));
    assert TextsOf(base) == [text] + [text];
    TotalConcat([text], [text]);
    TotalOne(text);
    assert RolesOf(base) == ["user", "user"];
  }

  lemma {:induction false} IdsOfPair(text: string)
    ensures IdsAt(Pair(text), [0]) == {FIRST} && IdsAt(Pair(text), [1]) == {SECOND}
  {
    assert [0][0] == 0 && [1][0] == 1;
  }

  lemma {:induction false} PairEmptied(text: string)
    ensures var base := Pair(text);
            && Without(base, {FIRST}) == [base[1]] && Ids(Applied(base, [], {FIRST})) == {SECOND}
            && Applied(Applied(base, [], {FIRST}), [], {SECOND}) == []
  {
    var base := Pair(text);
    var x, y := base[0], base[1];
    assert FIRST[2] != SECOND[2];
    assert base + [] == base == [x] + [y];
    WithoutConcat([x], [y], {FIRST});
    WithoutSelf(x);
    WithoutNone([y], {FIRST});
    assert Applied(base, [], {FIRST}) == [y];
    assert [y] + [] == [y];
    WithoutSelf(y);
  }

  /** With fact `b` barred, the other one is kept. */
  lemma {:induction false} PairPlan(text: string, max: nat, b: nat)
    requires b < 2 && max >= 16 && Tokens(text) <= max < 2 * Tokens(text)
    ensures PlanFor(Pair(text), {if b == 0 then FIRST else SECOND}, max, false, Plan([1 - b], [b], [], []))
  {
    hide Tokens, TotalTokens, Split, Scoped, UniqueIds, OwnedTokens;
    PairFacts(text);
    var base, id := Pair(text), if b == 0 then FIRST else SECOND;
    assert FIRST[2] != SECOND[2];
    assert Barred(base, {id}) == {b as int};
    PairSplit(text, max, b);
    assert PickAt([text, text], [1 - b]) == [text];
    TotalOne(text);
    NoTokens();
  }

  lemma {:induction false} PairSplit(text: string, max: nat, b: nat)
    requires b < 2 && 0 < Tokens(text) <= max
    ensures Split([text, text], ["user", "user"], {b as int}, max) == ([1 - b], [b])
  {
    hide Tokens, Pack, RoleOrder, Candidates, KeepList, FoldList, Split, PickAt;
    PairCands(b);
    PairLists(1 - b);
    PairPicks("user", 1 - b);
    PairPicks(text, 1 - b);
    OneOrder();
    PackOne(text, max);
    SplitIs([text, text], ["user", "user"], {b as int}, max, [1 - b], [0], {0});
  }

  lemma {:induction false} PairCands(b: nat)
    requires b < 2
    ensures Candidates(["user", "user"], {b as int}, 2) == [1 - b]
  {
    hide Candidates, IsGist;
    NotAGist();
    CandidatesStep(["user", "user"], {b as int}, 0);
    CandidatesStep(["user", "user"], {b as int}, 1);
  }

  lemma {:induction false} PairLists(c: nat)
    requires c < 2
    ensures KeepList([c], {0}, 1) == [c] && FoldList([c], 2) == [1 - c]
  {
    hide KeepList, FoldList;
    KeepStep([c], {0}, 0);
    FoldsOne([c], 2, 1 - c);
  }

  lemma {:induction false} PairPicks<T>(x: T, c: nat)
    requires c < 2
    ensures PickAt([x, x], [c]) == [x]
  {
  }

  lemma {:induction false} OneOrder()
    ensures RoleOrder(["user"]) == [0]
  {
    var roles := ["user"];
    OneRoleOrder(roles, 1);
    assert Descending(0) == [];
    assert Descending(1) == [0];
  }

  lemma {:induction false} PackOne(text: string, max: nat)
    requires 0 < Tokens(text) <= max
    ensures Pack([text], max, [0]) == {0}
  {
    hide Tokens;
    var ws := Weights([text], [0]);
    assert ws == [Tokens(text)] && ws[1..] == [];
    assert Greedy([], Tokens(text), max) == [];
    assert Greedy(ws, 0, max) == [true];
    assert [true][0] && [0][0] == 0;
  }

  // ----- a superseded set that only grows --------------------------------------------------------------

  const THIRD: string := "u_3"

  function Triple(text: string): (rs: seq<Rec>)
  {
    Pair(text) + [Rec(THIRD, text, Some("u"), "user")]
  }

  /**
    Three facts that fit two at a time. The first pass sees nothing superseded and folds the
    oldest; the second sees the middle one superseded and folds that. Both apply: one fact
    is left, though each plan kept two.
   */
  lemma {:induction false} GrowingSetBothApply(text: string, max: nat)
    requires max >= 16 && 2 * Tokens(text) <= max < 3 * Tokens(text)
    ensures var base := Triple(text);
            var p, q := Plan([1, 2], [0], [], []), Plan([0, 2], [1], [], []);
            && UniqueIds(base) && Scoped(base, Some("u")) == base && OwnedTokens(base, Some("u")) > max
            && PlanFor(base, {}, max, false, p) && PlanFor(base, {SECOND}, max, false, q)
            && IdsAt(base, q.fold) <= Ids(Applied(base, [], IdsAt(base, p.fold)))
            && Applied(Applied(base, [], IdsAt(base, p.fold)), [], IdsAt(base, q.fold)) == [base[2]]
  {
    hide Tokens, PlanFor, Applied, UniqueIds, Scoped, OwnedTokens, Ids;
    TripleFacts(text);
    TriplePlan(text, max, false);
    TriplePlan(text, max, true);
    TripleLeft(text);
  }

  lemma {:induction false} TripleFacts(text: string)
    ensures var base := Triple(text);
            && UniqueIds(base) && Scoped(base, Some("u")) == base
            && TextsOf(base) == [text, text, text] && RolesOf(base) == ["user", "user", "user"]
            && OwnedTokens(base, Some("u")) == 3 * Tokens(text)
            && TotalTokens([text, text]) == 2 * Tokens(text)
  {
    hide Tokens, Scoped;
    var base := Triple(text);
    assert FIRST[2] != SECOND[2] && FIRST[2] != THIRD[2] && SECOND[2] != THIRD[2];
    ScopedAll(base, Some("u"), Some("u"));
    assert [text, text] == [text] + [text] && TextsOf(base) == [text, text] + [text];
    TotalConcat([text], [text]);
    TotalConcat([text, text], [text]);
    TotalOne(text);
    assert RolesOf(base) == ["user", "user", "user"];
  }

  lemma {:induction false} TripleLeft(text: string)
    ensures var base := Triple(text);
            && IdsAt(base, [0]) == {FIRST} && IdsAt(base, [1]) == {SECOND}
            && SECOND in Ids(Applied(base, [], {FIRST}))
            && Applied(Applied(base, [], {FIRST}), [], {SECOND}) == [base[2]]
  {
    hide Applied;
    var base := Triple(text);
    var x, y, z := base[0], base[1], base[2];
    assert FIRST[2] != SECOND[2] && FIRST[2] != THIRD[2] && SECOND[2] != THIRD[2];
    assert [0][0] == 0 && [1][0] == 1;
    assert base == [x] + [y, z] && [y, z] == [y] + [z];
    FirstGone(x, [y, z]);
    FirstGone(y, [z]);
    assert y in [y, z];
  }

  lemma {:induction false} FirstGone(x: Rec, rest: seq<Rec>)
    requires x.id !in Ids(rest)
    ensures Applied([x] + rest, [], {x.id}) == rest
  {
    hide Without;
    NoTail([x] + rest);
    WithoutConcat([x], rest, {x.id});
    WithoutSelf(x);
    WithoutNone(rest, {x.id});
  }

  /** The newest two are kept, or the other two when the middle one is barred. */
  lemma {:induction false} TriplePlan(text: string, max: nat, grown: bool)
    requires max >= 16 && 2 * Tokens(text) <= max < 3 * Tokens(text)
    ensures PlanFor(Triple(text), if grown then {SECOND} else {}, max, false,
                    if grown then Plan([0, 2], [1], [], []) else Plan([1, 2], [0], [], []))
  {
    hide Tokens, TotalTokens, Split, Scoped, UniqueIds, OwnedTokens, Barred, TextsOf, RolesOf, PickAt, PlanFor, Splits, Rising;
    TripleFacts(text);
    TripleBarred(text);
    TripleSplit(text, max, grown);
    TriplePicks(text);
    TripleSplits();
    if grown {
      PlainPlan(Triple(text), {SECOND}, max, [0, 2], [1]);
    } else {
      PlainPlan(Triple(text), {}, max, [1, 2], [0]);
    }
  }

  /** A plan without gists. */
  lemma {:induction false} PlainPlan(snap: seq<Rec>, superseded: set<string>, max: nat, keep: seq<nat>, fold: seq<nat>)
    requires max >= 16 && (keep, fold) == Split(TextsOf(snap), RolesOf(snap), Barred(snap, superseded), max)
    requires Splits(|snap|, keep, fold) && Rising(fold) && fold != [] && |keep| + |fold| == |snap|
    requires InRange(keep, |snap|) && TotalTokens(PickAt(TextsOf(snap), keep)) <= max
    ensures PlanFor(snap, superseded, max, false, Plan(keep, fold, [], []))
  {
    hide TotalTokens, Split, Barred, TextsOf, RolesOf, PickAt, Splits, Rising, IsGist;
    NoTokens();
  }

  lemma {:induction false} TripleSplits()
    ensures Splits(3, [0, 2], [1]) && Splits(3, [1, 2], [0]) && Rising([1]) && Rising([0])
  {
    assert [0, 2][0] == 0 && [0, 2][1] == 2 && [1, 2][0] == 1 && [1, 2][1] == 2 && [1][0] == 1 && [0][0] == 0;
  }

  lemma {:induction false} TripleBarred(text: string)
    ensures Barred(Triple(text), {SECOND}) == {1} && Barred(Triple(text), {}) == {}
  {
    assert FIRST[2] != SECOND[2] && SECOND[2] != THIRD[2];
  }

  lemma {:induction false} TripleSplit(text: string, max: nat, grown: bool)
    requires 0 < 2 * Tokens(text) <= max < 3 * Tokens(text)
    ensures Split([text, text, text], ["user", "user", "user"], if grown then {1} else {}, max)
            == if grown then ([0, 2], [1]) else ([1, 2], [0])
  {
    hide Tokens, Split;
    if grown {
      GrownSplit(text, max);
    } else {
      PlainSplit(text, max);
    }
  }

  lemma {:induction false} PlainSplit(text: string, max: nat)
    requires 0 < 2 * Tokens(text) <= max < 3 * Tokens(text)
    ensures Split([text, text, text], ["user", "user", "user"], {}, max) == ([1, 2], [0])
  {
    hide Tokens, Pack, RoleOrder, Candidates, KeepList, FoldList, Split, PickAt;
    TripleCands();
    TripleLists();
    PackTwo(text, max);
    UserOrder(3);
    TriplePicks("user");
    TriplePicks(text);
    SplitIs([text, text, text], ["user", "user", "user"], {}, max, [0, 1, 2], [2, 1, 0], {1, 2});
  }

  lemma {:induction false} GrownSplit(text: string, max: nat)
    requires 0 < 2 * Tokens(text) <= max < 3 * Tokens(text)
    ensures Split([text, text, text], ["user", "user", "user"], {1}, max) == ([0, 2], [1])
  {
    hide Tokens, Pack, RoleOrder, Candidates, KeepList, FoldList, Split, PickAt;
    TripleCands();
    TripleLists();
    PackTwo(text, max);
    UserOrder(2);
    TriplePicks("user");
    TriplePicks(text);
    SplitIs([text, text, text], ["user", "user", "user"], {1}, max, [0, 2], [1, 0], {0, 1});
  }

  lemma {:induction false} TriplePicks<T>(x: T)
    ensures PickAt([x, x, x], [0, 1, 2]) == [x, x, x] && PickAt([x, x, x], [0, 2]) == [x, x] == PickAt([x, x, x], [1, 2])
  {
  }

  lemma {:induction false} SplitIs(texts: seq<string>, roles: seq<string>, barred: set<int>, max: nat, cands: seq<nat>,
                                   order: seq<nat>, packed: set<nat>)
    requires |texts| == |roles| && InRange(cands, |roles|) && Candidates(roles, barred, |roles|) == cands
    requires RoleOrder(PickAt(roles, cands)) == order && InRange(order, |cands|)
    requires Pack(PickAt(texts, cands), max, order) == packed
    ensures var keep := KeepList(cands, packed, |cands|);
            Split(texts, roles, barred, max) == (keep, FoldList(keep, |texts|))
  {
    hide Pack, RoleOrder, Candidates, KeepList, FoldList, PickAt, IsGist;
  }

  lemma {:induction false} TripleCands()
    ensures Candidates(["user", "user", "user"], {}, 3) == [0, 1, 2] && Candidates(["user", "user", "user"], {1}, 3) == [0, 2]
  {
    hide Candidates, IsGist;
    var roles := ["user", "user", "user"];
    assert !IsGist("user") by { NotAGist(); }
    CandidatesStep(roles, {}, 0);
    CandidatesStep(roles, {}, 1);
    CandidatesStep(roles, {}, 2);
    CandidatesStep(roles, {1}, 0);
    CandidatesStep(roles, {1}, 1);
    CandidatesStep(roles, {1}, 2);
  }

  lemma {:induction false} NotAGist()
    ensures !IsGist("user")
  {
    assert |"user"| != |"summary"|;
  }

  lemma {:induction false} CandidatesStep(roles: seq<string>, barred: set<int>, n: nat)
    requires n < |roles| && !IsGist(roles[n])
    ensures Candidates(roles, barred, 0) == []
    ensures Candidates(roles, barred, n + 1) == Candidates(roles, barred, n) + if n in barred then [] else [n]
  {
  }

  lemma {:induction false} TripleLists()
    ensures KeepList([0, 2], {0, 1}, 2) == [0, 2] && KeepList([0, 1, 2], {1, 2}, 3) == [1, 2]
    ensures FoldList([0, 2], 3) == [1] && FoldList([1, 2], 3) == [0]
  {
    hide KeepList, FoldList;
    KeepsBoth();
    KeepsLast();
    FoldsOne([0, 2], 3, 1);
    FoldsOne([1, 2], 3, 0);
  }

  lemma {:induction false} FoldsOne(keep: seq<nat>, n: nat, b: nat)
    requires b < n && forall i: nat :: i < n ==> (i in keep <==> i != b)
    ensures FoldList(keep, n) == [b]
  {
    hide FoldList;
    OnlyOne(FoldList(keep, n), b);
  }

  lemma {:induction false} OnlyOne(s: seq<nat>, b: nat)
    requires Rising(s) && forall i: nat :: i in s <==> i == b
    ensures s == [b]
  {
    assert b in s;
    assert s[0] in s && s[|s| - 1] in s;
  }

  lemma {:induction false} KeepsBoth()
    ensures KeepList([0, 2], {0, 1}, 2) == [0, 2]
  {
    hide KeepList;
    KeepStep([0, 2], {0, 1}, 0);
    KeepStep([0, 2], {0, 1}, 1);
  }

  lemma {:induction false} KeepsLast()
    ensures KeepList([0, 1, 2], {1, 2}, 3) == [1, 2]
  {
    hide KeepList;
    KeepsMiddle();
    KeepStep([0, 1, 2], {1, 2}, 2);
  }

  lemma {:induction false} KeepsMiddle()
    ensures KeepList([0, 1, 2], {1, 2}, 2) == [1]
  {
    hide KeepList;
    KeepsNone();
    KeepStep([0, 1, 2], {1, 2}, 1);
  }

  lemma {:induction false} KeepsNone()
    ensures KeepList([0, 1, 2], {1, 2}, 1) == []
  {
    hide KeepList;
    KeepStep([0, 1, 2], {1, 2}, 0);
  }

  lemma {:induction false} KeepStep(cands: seq<nat>, packed: set<nat>, n: nat)
    requires n < |cands|
    ensures KeepList(cands, packed, 0) == []
    ensures KeepList(cands, packed, n + 1) == KeepList(cands, packed, n) + if n in packed then [cands[n]] else []
  {
  }

  lemma {:induction false} UserOrder(n: nat)
    requires 2 <= n <= 3
    ensures RoleOrder(if n == 2 then ["user", "user"] else ["user", "user", "user"]) == if n == 2 then [1, 0] else [2, 1, 0]
  {
    hide RoleOrder;
    if n == 2 {
      AllUsers(["user", "user"]);
      CountDown(2);
    } else {
      AllUsers(["user", "user", "user"]);
      CountDown(3);
    }
  }

  lemma {:induction false} AllUsers(roles: seq<string>)
    requires forall i :: 0 <= i < |roles| ==> roles[i] == "user"
    ensures RoleOrder(roles) == Descending(|roles|)
  {
    hide Newest, Descending;
    OneRoleOrder(roles, |roles|);
  }

  lemma {:induction false} CountDown(n: nat)
    requires 2 <= n <= 3
    ensures Descending(n) == if n == 2 then [1, 0] else [2, 1, 0]
  {
    hide Descending;
  }

  lemma {:induction false} PackTwo(text: string, max: nat)
    requires 0 < 2 * Tokens(text) <= max < 3 * Tokens(text)
    ensures Pack([text, text], max, [1, 0]) == {0, 1} && Pack([text, text, text], max, [2, 1, 0]) == {1, 2}
  {
    hide Tokens;
    var w := Tokens(text);
    assert Weights([text, text], [1, 0]) == [w, w] && Weights([text, text, text], [2, 1, 0]) == [w, w, w];
    assert [w, w, w][1..] == [w, w] && [w, w][1..] == [w] && [w][1..] == [];
    assert Greedy([], 2 * w, max) == [] && Greedy([w], 2 * w, max) == [false] && Greedy([w], w, max) == [true];
    assert Greedy([w, w], w, max) == [true, false] && Greedy([w, w], 0, max) == [true, true];
    assert Greedy([w, w, w], 0, max) == [true, true, false];
    PickedAll();
  }

  lemma {:induction false} PickedAll()
    ensures Picked([1, 0], [true, true]) == {0, 1} && Picked([2, 1, 0], [true, true, false]) == {1, 2}
  {
    var two, all := [true, true], [true, true, false];
    assert two[0] && two[1] && [1, 0][0] == 1 && [1, 0][1] == 0;
    assert all[0] && all[1] && !all[2] && [2, 1, 0][0] == 2 && [2, 1, 0][1] == 1;
  }
}
