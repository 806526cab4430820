/** Greedy packing of stored texts under a token budget (tsm/budget.py `_pack_indexes` and its callers). */
module Packing {
  import opened Wrappers
  import opened Text

  // ----- greedy choice over weights -------------------------------------------------

  predicate Takes(w: nat, used: nat, budget: int)
  {
    w > 0 && used + w <= budget
  }

  /** Which of the candidates, in order, the greedy pass takes when `used` is already spent. */
  function Greedy(ws: seq<nat>, used: nat, budget: int): (r: seq<bool>)
    ensures |r| == |ws|
  {
    if ws == [] then []
    else
      var take := Takes(ws[0], used, budget);
      [take] + Greedy(ws[1..], if take then used + ws[0] else used, budget)
  }

  /** Weight of a choice. */
  function Weight(ws: seq<nat>, choice: seq<bool>): (n: nat)
    requires |choice| == |ws|
  {
    if ws == [] then 0 else (if choice[0] then ws[0] else 0) + Weight(ws[1..], choice[1..])
  }

  /** A choice of nonblank texts that fits what is left of the budget. */
  ghost predicate Feasible(ws: seq<nat>, choice: seq<bool>, used: nat, budget: int)
    requires |choice| == |ws|
  {
    used + Weight(ws, choice) <= budget && forall i :: 0 <= i < |ws| && choice[i] ==> ws[i] > 0
  }

  lemma {:induction false} GreedyFits(ws: seq<nat>, used: nat, budget: int)
    requires used <= budget
    ensures Feasible(ws, Greedy(ws, used, budget), used, budget)
  {
    if ws != [] {
      var take := Takes(ws[0], used, budget);
      GreedyFits(ws[1..], if take then used + ws[0] else used, budget);
      var g := Greedy(ws, used, budget);
      forall i | 0 <= i < |ws| && g[i]
        ensures ws[i] > 0
      {
        if i > 0 {
          assert ws[1..][i - 1] == ws[i] && g[1..][i - 1] == g[i];
        }
      }
    }
  }

  /**
    Greedy is the lexicographically greatest feasible choice: wherever a feasible choice
    first departs from it, greedy has the candidate and the other choice does not.
   */
  lemma {:induction false} GreedyIsLexMax(ws: seq<nat>, used: nat, budget: int, other: seq<bool>) returns (k: nat)
    requires |other| == |ws| && Feasible(ws, other, used, budget)
    requires other != Greedy(ws, used, budget)
    ensures k < |ws| && other[..k] == Greedy(ws, used, budget)[..k]
    ensures Greedy(ws, used, budget)[k] && !other[k]
  {
    var g := Greedy(ws, used, budget);
    if other[0] == g[0] {
      assert other == [other[0]] + other[1..];
      FeasibleTail(ws, other, used, budget);
      k := GreedyIsLexMax(ws[1..], if g[0] then used + ws[0] else used, budget, other[1..]);
      k := k + 1;
      PrefixOfTail(other, g, k);
    } else {
      k := 0;
    }
  }

  lemma {:induction false} PrefixOfTail(a: seq<bool>, b: seq<bool>, k: nat)
    requires |a| == |b| && 1 <= k <= |a| && a[0] == b[0] && a[1..][..k - 1] == b[1..][..k - 1]
    ensures a[..k] == b[..k]
  {
    assert a[..k] == [a[0]] + a[1..][..k - 1] && b[..k] == [b[0]] + b[1..][..k - 1];
  }

  lemma {:induction false} FeasibleTail(ws: seq<nat>, other: seq<bool>, used: nat, budget: int)
    requires ws != [] && |other| == |ws| && Feasible(ws, other, used, budget)
    ensures Feasible(ws[1..], other[1..], if other[0] then used + ws[0] else used, budget)
  {
    forall i | 0 <= i < |ws| - 1 && other[1..][i]
      ensures ws[1..][i] > 0
    {
      assert other[i + 1];
    }
  }

  // ----- packing indexes -----------------------------------------------------------------

  predicate InRange(cands: seq<nat>, n: nat)
  {
    forall i :: 0 <= i < |cands| ==> cands[i] < n
  }

  predicate Rising(s: seq<nat>)
  {
    forall i, j :: 0 <= i < j < |s| ==> s[i] < s[j]
  }

  predicate Distinct(cands: seq<nat>)
  {
    forall i, j :: 0 <= i < j < |cands| ==> cands[i] != cands[j]
  }

  /** The token weights of the candidates, in candidate order. */
  function Weights(texts: seq<string>, cands: seq<nat>): (ws: seq<nat>)
    requires InRange(cands, |texts|)
    ensures |ws| == |cands| && forall i :: 0 <= i < |cands| ==> ws[i] == Tokens(texts[cands[i]])
  {
    if cands == [] then [] else [Tokens(texts[cands[0]])] + Weights(texts, cands[1..])
  }

  /** The candidates a choice picks. */
  function Picked(cands: seq<nat>, choice: seq<bool>): (r: set<nat>)
    requires |choice| == |cands|
    ensures forall i :: 0 <= i < |cands| && choice[i] ==> cands[i] in r
    ensures forall c :: c in r ==> exists i :: 0 <= i < |cands| && choice[i] && cands[i] == c
  {
    set i | 0 <= i < |cands| && choice[i] :: cands[i]
  }

  /** Tokens of the first `n` texts whose index is in `s`. */
  function SumSet(texts: seq<string>, s: set<nat>, n: nat): (r: nat)
    requires n <= |texts|
  {
    if n == 0 then 0 else SumSet(texts, s, n - 1) + (if n - 1 in s then Tokens(texts[n - 1]) else 0)
  }

  /** `[text for index, text in enumerate(texts) if index in s]`, over the first `n` texts. */
  function FilterSet(texts: seq<string>, s: set<nat>, n: nat): (r: seq<string>)
    requires n <= |texts|
  {
    if n == 0 then [] else FilterSet(texts, s, n - 1) + (if n - 1 in s then [texts[n - 1]] else [])
  }

  lemma {:induction false} FilterTotal(texts: seq<string>, s: set<nat>, n: nat)
    requires n <= |texts|
    ensures TotalTokens(FilterSet(texts, s, n)) == SumSet(texts, s, n)
  {
    if n > 0 {
      FilterTotal(texts, s, n - 1);
      TotalConcat(FilterSet(texts, s, n - 1), if n - 1 in s then [texts[n - 1]] else []);
    }
  }

  lemma {:induction false} SumSetAdd(texts: seq<string>, s: set<nat>, c: nat, n: nat)
    requires n <= |texts| && c < |texts| && c !in s
    ensures SumSet(texts, s + {c}, n) == SumSet(texts, s, n) + (if c < n then Tokens(texts[c]) else 0)
  {
    if n > 0 {
      SumSetAdd(texts, s, c, n - 1);
    }
  }

  lemma {:induction false} SumSetEmpty(texts: seq<string>, n: nat)
    requires n <= |texts|
    ensures SumSet(texts, {}, n) == 0
  {
    if n > 0 {
      SumSetEmpty(texts, n - 1);
    }
  }

  /** Splits the texts of an index set and its complement. */
  lemma {:induction false} SumSetSplit(texts: seq<string>, s: set<nat>, t: set<nat>, n: nat)
    requires n <= |texts| && forall i :: 0 <= i < n ==> (i in s <==> i !in t)
    ensures SumSet(texts, s, n) + SumSet(texts, t, n) == TotalTokens(texts[..n])
  {
    if n > 0 {
      SumSetSplit(texts, s, t, n - 1);
      assert texts[..n] == texts[..n - 1] + [texts[n - 1]];
      TotalConcat(texts[..n - 1], [texts[n - 1]]);
    }
  }

  /** With distinct candidates the weight of a choice is the tokens of what it picks. */
  lemma {:induction false} WeightIsTokens(texts: seq<string>, cands: seq<nat>, choice: seq<bool>)
    requires InRange(cands, |texts|) && Distinct(cands) && |choice| == |cands|
    ensures Weight(Weights(texts, cands), choice) == SumSet(texts, Picked(cands, choice), |texts|)
  {
    if cands == [] {
      assert Picked(cands, choice) == {};
      SumSetEmpty(texts, |texts|);
    } else {
      var rest := Picked(cands[1..], choice[1..]);
      WeightIsTokens(texts, cands[1..], choice[1..]);
      PickedCons(cands, choice);
      assert cands[0] !in rest;
      if choice[0] {
        SumSetAdd(texts, rest, cands[0], |texts|);
      } else {
        assert Picked(cands, choice) == rest;
      }
    }
  }

  lemma {:induction false} PickedCons(cands: seq<nat>, choice: seq<bool>)
    requires |choice| == |cands| > 0
    ensures Picked(cands, choice) == Picked(cands[1..], choice[1..]) + (if choice[0] then {cands[0]} else {})
  {
    var a, b := Picked(cands[1..], choice[1..]), Picked(cands, choice);
    forall c | c in a
      ensures c in b
    {
      var k :| 0 <= k < |cands| - 1 && choice[1..][k] && cands[1..][k] == c;
      assert choice[k + 1] && cands[k + 1] == c;
    }
    forall c | c in b
      ensures c in a || (choice[0] && c == cands[0])
    {
      var k :| 0 <= k < |cands| && choice[k] && cands[k] == c;
      if k > 0 {
        assert choice[1..][k - 1] && cands[1..][k - 1] == c;
      }
    }
  }

  /** What `_pack_indexes` selects. */
  function Pack(texts: seq<string>, budget: int, cands: seq<nat>): (r: set<nat>)
    requires InRange(cands, |texts|)
  {
    Picked(cands, Greedy(Weights(texts, cands), 0, budget))
  }

  method PackIndexes(texts: seq<string>, budget: int, cands: seq<nat>) returns (selected: set<nat>)
    requires InRange(cands, |texts|)
    ensures selected == Pack(texts, budget, cands)
  {
    hide Greedy, Picked, Weights;
    selected := {};
    var used := 0;
    ghost var ws := Weights(texts, cands);
    ghost var g := Greedy(ws, 0, budget);
    PackStart(cands, ws, g);
    for i := 0 to |cands|
      invariant g[i..] == Greedy(ws[i..], used, budget)
      invariant selected == Picked(cands[..i], g[..i])
    {
      var tokens := Tokens(texts[cands[i]]);
      GreedyOne(ws, g, used, budget, i);
      PickedSnoc(cands, g, i);
      if tokens > 0 && used + tokens <= budget {
        selected := selected + {cands[i]};
        used := used + tokens;
      }
    }
  }

  lemma {:induction false} PackStart(cands: seq<nat>, ws: seq<nat>, g: seq<bool>)
    requires |g| == |cands| == |ws|
    ensures Picked(cands[..0], g[..0]) == {} && g[0..] == g && ws[0..] == ws
    ensures cands[..|cands|] == cands && g[..|cands|] == g
  {
  }

  /** One step of the greedy scan, read off the whole outcome. */
  lemma {:induction false} GreedyOne(ws: seq<nat>, g: seq<bool>, used: nat, budget: int, i: nat)
    requires |g| == |ws| && i < |ws| && g[i..] == Greedy(ws[i..], used, budget)
    ensures g[i] == Takes(ws[i], used, budget)
    ensures g[i + 1..] == Greedy(ws[i + 1..], if g[i] then used + ws[i] else used, budget)
  {
    assert ws[i..][0] == ws[i] && ws[i..][1..] == ws[i + 1..];
    assert g[i] == g[i..][0] && g[i + 1..] == g[i..][1..];
  }

  lemma {:induction false} PickedSnoc(cands: seq<nat>, g: seq<bool>, i: nat)
    requires |g| == |cands| && i < |cands|
    ensures Picked(cands[..i + 1], g[..i + 1]) == Picked(cands[..i], g[..i]) + (if g[i] then {cands[i]} else {})
  {
    var a, b := Picked(cands[..i], g[..i]), Picked(cands[..i + 1], g[..i + 1]);
    forall c | c in a
      ensures c in b
    {
      var k :| 0 <= k < i && g[..i][k] && cands[..i][k] == c;
      assert g[..i + 1][k] && cands[..i + 1][k] == c;
    }
    forall c | c in b
      ensures c in a || (g[i] && c == cands[i])
    {
      var k :| 0 <= k < i + 1 && g[..i + 1][k] && cands[..i + 1][k] == c;
      if k < i {
        assert g[..i][k] && cands[..i][k] == c;
      }
    }
    if g[i] {
      assert g[..i + 1][i] && cands[..i + 1][i] == cands[i];
    }
  }

  /** A pack never exceeds its budget, and never takes a blank text. */
  lemma {:induction false} PackFits(texts: seq<string>, budget: nat, cands: seq<nat>)
    requires InRange(cands, |texts|) && Distinct(cands)
    ensures SumSet(texts, Pack(texts, budget, cands), |texts|) <= budget
    ensures forall c :: c in Pack(texts, budget, cands) ==> c in cands && c < |texts| && Tokens(texts[c]) > 0
  {
    hide Greedy, Weight, SumSet, Picked;
    var ws := Weights(texts, cands);
    GreedyFits(ws, 0, budget);
    WeightIsTokens(texts, cands, Greedy(ws, 0, budget));
  }

  // ----- role priority ------------------------------------------------------------------------

  /** Position of a role in the packing order. */
  function Rank(role: string): (r: nat)
    ensures r < 4
  {
    if role == "user" then 0 else if role == "system" then 1 else if role == "assistant" then 2 else 3
  }

  /** User facts come first, then the system's, then the assistant's, then everyone else's alike. */
  lemma {:induction false} RolesRank(role: string)
    ensures Rank("user") < Rank("system") < Rank("assistant") < 3
    ensures role != "user" && role != "system" && role != "assistant" ==> Rank(role) == 3
  {
  }

  /** The indexes below `n` of one rank, newest first. */
  function Newest(roles: seq<string>, rank: nat, n: nat): (r: seq<nat>)
    requires n <= |roles|
    ensures forall p :: 0 <= p < |r| ==> r[p] < n && Rank(roles[r[p]]) == rank
    ensures forall p, q :: 0 <= p < q < |r| ==> r[p] > r[q]
    ensures forall i :: 0 <= i < n && Rank(roles[i]) == rank ==> i in r
  {
    if n == 0 then []
    else if Rank(roles[n - 1]) == rank then [n - 1] + Newest(roles, rank, n - 1)
    else Newest(roles, rank, n - 1)
  }

  /** The candidate order of `pack_role_priority_recent_indexes`. */
  function RoleOrder(roles: seq<string>): (r: seq<nat>)
  {
    var n := |roles|;
    Newest(roles, 0, n) + Newest(roles, 1, n) + Newest(roles, 2, n) + Newest(roles, 3, n)
  }

  /** Packed before: a better rank, or the same rank and newer. */
  predicate Before(roles: seq<string>, a: nat, b: nat)
    requires a < |roles| && b < |roles|
  {
    Rank(roles[a]) < Rank(roles[b]) || (Rank(roles[a]) == Rank(roles[b]) && a > b)
  }

  /** The order is a permutation of all indexes, and the one sorted by role, then recency. */
  lemma {:induction false} RoleOrderSorts(roles: seq<string>)
    ensures InRange(RoleOrder(roles), |roles|) && Distinct(RoleOrder(roles))
    ensures forall i :: 0 <= i < |roles| ==> i in RoleOrder(roles)
    ensures var r := RoleOrder(roles); forall p, q :: 0 <= p < q < |r| ==> Before(roles, r[p], r[q])
  {
    hide Newest, Rank;
    var n := |roles|;
    var a, b, c, d := Newest(roles, 0, n), Newest(roles, 1, n), Newest(roles, 2, n), Newest(roles, 3, n);
    var r := RoleOrder(roles);
    forall p, q | 0 <= p < q < |r|
      ensures r[p] < n && r[q] < n && Before(roles, r[p], r[q])
    {
    }
    forall p | 0 <= p < |r|
      ensures r[p] < n
    {
    }
    forall i | 0 <= i < n
      ensures i in r
    {
      assert i in a || i in b || i in c || i in d;
    }
  }

  /** `pack_role_priority_recent_indexes`, including its length check. */
  method PackRolePriorityRecentIndexes(texts: seq<string>, roles: seq<string>, budget: int)
    returns (r: Option<set<nat>>)
    ensures r.None? <==> |texts| != |roles|
    ensures r.Some? ==> InRange(RoleOrder(roles), |texts|) && r.value == Pack(texts, budget, RoleOrder(roles))
  {
    if |texts| != |roles| {
      return None;
    }
    RoleOrderSorts(roles);
    var s := PackIndexes(texts, budget, RoleOrder(roles));
    return Some(s);
  }

  /**
    No other selection of nonblank texts within the budget beats this one: the first
    candidate, in role-then-recency order, on which it differs belongs to this one.
   */
  lemma {:induction false} RolePackIsLexMax(texts: seq<string>, roles: seq<string>, budget: nat, other: set<nat>)
    returns (c: nat)
    requires |texts| == |roles| && InRange(RoleOrder(roles), |texts|)
    requires (forall i :: i in other ==> i < |texts| && Tokens(texts[i]) > 0)
    requires SumSet(texts, other, |texts|) <= budget && other != Pack(texts, budget, RoleOrder(roles))
    ensures c < |roles| && c in Pack(texts, budget, RoleOrder(roles)) && c !in other
    ensures forall i :: 0 <= i < |roles| && Before(roles, i, c) ==>
              (i in other <==> i in Pack(texts, budget, RoleOrder(roles)))
  {
    var order := RoleOrder(roles);
    RoleOrderSorts(roles);
    hide RoleOrder, SumSet, Before, Rank, Greedy, Weight, Chosen;
    var ws := Weights(texts, order);
    var g := Greedy(ws, 0, budget);
    var pick := Chosen(order, other);
    PickedChosen(order, other, |texts|);
    WeightIsTokens(texts, order, pick);
    assert Feasible(ws, pick, 0, budget);
    var k := GreedyIsLexMax(ws, 0, budget, pick);
    c := order[k];
    forall i | 0 <= i < |roles| && Before(roles, i, c)
      ensures i in other <==> i in Picked(order, g)
    {
      AgreesBefore(roles, order, other, pick, g, k, i);
    }
  }

  lemma {:induction false} AgreesBefore(roles: seq<string>, order: seq<nat>, other: set<nat>, pick: seq<bool>, g: seq<bool>, k: nat, i: nat)
    requires InRange(order, |roles|) && Distinct(order) && i in order && i < |roles|
    requires forall p, q :: 0 <= p < q < |order| ==> Before(roles, order[p], order[q])
    requires |pick| == |g| == |order| && k < |order| && pick[..k] == g[..k]
    requires (forall p :: 0 <= p < |order| ==> pick[p] == (order[p] in other)) && Before(roles, i, order[k])
    ensures i in other <==> i in Picked(order, g)
  {
    hide Before;
    var p :| 0 <= p < |order| && order[p] == i;
    OrderIsStrict(roles, order, p, k);
    assert pick[..k][p] == g[..k][p];
    PackedAt(order, g, p);
  }

  lemma {:induction false} OrderIsStrict(roles: seq<string>, order: seq<nat>, p: nat, k: nat)
    requires InRange(order, |roles|) && p < |order| && k < |order| && Before(roles, order[p], order[k])
    requires forall p, q :: 0 <= p < q < |order| ==> Before(roles, order[p], order[q])
    ensures p < k
  {
  }

  lemma {:induction false} PackedAt(order: seq<nat>, g: seq<bool>, p: nat)
    requires Distinct(order) && |g| == |order| && p < |order|
    ensures order[p] in Picked(order, g) <==> g[p]
  {
  }

  function Chosen(order: seq<nat>, s: set<nat>): (r: seq<bool>)
    ensures |r| == |order| && forall i :: 0 <= i < |order| ==> r[i] == (order[i] in s)
  {
    if order == [] then [] else [order[0] in s] + Chosen(order[1..], s)
  }

  lemma {:induction false} PickedChosen(order: seq<nat>, s: set<nat>, n: nat)
    requires (forall i :: 0 <= i < n ==> i in order) && forall i :: i in s ==> i < n
    ensures Picked(order, Chosen(order, s)) == s
  {
    hide Chosen;
    var p := Picked(order, Chosen(order, s));
    forall c | c in s
      ensures c in p
    {
      assert c in order;
      var i :| 0 <= i < |order| && order[i] == c;
    }
  }

  // ----- recency ------------------------------------------------------------------------------

  /** `range(n - 1, -1, -1)`. */
  function Descending(n: nat): (r: seq<nat>)
    ensures |r| == n && forall i :: 0 <= i < n ==> r[i] == n - 1 - i
  {
    if n == 0 then [] else [n - 1] + Descending(n - 1)
  }

  /** What a newest-first pack keeps. */
  function Recent(texts: seq<string>, budget: int): (s: set<nat>)
  {
    Pack(texts, budget, Descending(|texts|))
  }

  function Rest(s: set<nat>, n: nat): (r: set<nat>)
  {
    set i: nat | i < n && i !in s
  }

  /** `pack_recent`: what fits, newest first, and what does not, both in input order. */
  method PackRecent(texts: seq<string>, budget: int) returns (kept: seq<string>, overflow: seq<string>)
    ensures kept == FilterSet(texts, Recent(texts, budget), |texts|)
    ensures overflow == FilterSet(texts, Rest(Recent(texts, budget), |texts|), |texts|)
    ensures budget >= 0 ==> TotalTokens(kept) <= budget
    ensures TotalTokens(kept) + TotalTokens(overflow) == TotalTokens(texts)
  {
    var n := |texts|;
    var order := Descending(n);
    var s := PackIndexes(texts, budget, order);
    var rest := Rest(s, n);
    kept, overflow := FilterSet(texts, s, n), FilterSet(texts, rest, n);
    if budget >= 0 {
      PackFits(texts, budget, order);
    }
    FilterTotal(texts, s, n);
    FilterTotal(texts, rest, n);
    SumSetSplit(texts, s, rest, n);
    assert texts[..n] == texts;
  }

  /** Newest first is role priority when everything has one role. */
  lemma {:induction false} OneRoleOrder(roles: seq<string>, n: nat)
    requires n <= |roles| && forall i :: 0 <= i < |roles| ==> roles[i] == "user"
    ensures Newest(roles, 0, n) == Descending(n)
    ensures Newest(roles, 1, n) == Newest(roles, 2, n) == Newest(roles, 3, n) == []
  {
    if n > 0 {
      OneRoleOrder(roles, n - 1);
    }
  }

  /**
    A newest-first pack keeps the best set there is, newest texts mattering most: where any
    other nonblank selection within the budget first differs from it, going back in time,
    it is the other one that misses a text.
   */
  lemma {:induction false} RecentIsLexMax(texts: seq<string>, budget: nat, other: set<nat>) returns (c: nat)
    requires (forall i :: i in other ==> i < |texts| && Tokens(texts[i]) > 0)
    requires SumSet(texts, other, |texts|) <= budget && other != Recent(texts, budget)
    ensures c < |texts| && c in Recent(texts, budget) && c !in other
    ensures forall i :: c < i < |texts| ==> (i in other <==> i in Recent(texts, budget))
  {
    hide Pack, Newest, SumSet, Tokens;
    var roles := seq(|texts|, _ => "user");
    OneRoleOrder(roles, |roles|);
    assert RoleOrder(roles) == Descending(|texts|);
    c := RolePackIsLexMax(texts, roles, budget, other);
    forall i | c < i < |texts|
      ensures i in other <==> i in Recent(texts, budget)
    {
      assert Before(roles, i, c);
    }
  }
}
