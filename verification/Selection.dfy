/**
  Choosing the best set of memories under a token budget: greedy maximal marginal
  relevance (tsm/budget.py `select_under_budget`, method "mmr").
 */
module Selection {
  import opened Wrappers
  import opened Packing

  const MAX_REDUNDANCY: real := 0.72
  const NEW_TURN_BONUS: real := 0.20
  const NO_GAIN: real := -1000000000.0

  datatype Item = Item(text: string, context: string, score: real, turn: Option<int>,
                       id: Option<string>, supersededBy: Option<string>)

  /**
    One selection problem. `sim` is the pairwise similarity of the texts' embeddings and
    `lam` the relevance weight.
   */
  datatype Problem = Problem(pool: seq<Item>, budget: int, sim: (nat, nat) -> real, lam: real, maxItems: Option<int>) {

    /** Tokens of what is shown: the context when there is one, the text otherwise. */
    function Cost(i: nat): (n: nat)
      requires i < |pool|
      ensures n >= 1
    {
      var shown := if pool[i].context != "" then pool[i].context else pool[i].text;
      if |shown| / 4 < 1 then 1 else |shown| / 4
    }

    /** A missing or zero limit means no limit. */
    function Cap(): (n: int)
      ensures maxItems.None? || maxItems.value == 0 ==> n == |pool|
      ensures maxItems.Some? && maxItems.value != 0 ==> n == maxItems.value
    {
      if maxItems.None? || maxItems.value == 0 then |pool| else maxItems.value
    }

    /** One of the two replaced the other. */
    predicate Replaces(a: nat, b: nat)
      requires a < |pool| && b < |pool|
    {
      || (pool[a].supersededBy.Some? && pool[a].supersededBy == pool[b].id)
      || (pool[b].supersededBy.Some? && pool[b].supersededBy == pool[a].id)
    }

    predicate Indexes(sel: seq<nat>)
    {
      forall k :: 0 <= k < |sel| ==> sel[k] < |pool|
    }

    function Used(sel: seq<nat>): (n: nat)
      requires Indexes(sel)
    {
      if sel == [] then 0 else Used(sel[..|sel| - 1]) + Cost(sel[|sel| - 1])
    }

    /** Highest similarity to a selected item that is not a replacement of `i`, if there is one. */
    function Closest(i: nat, sel: seq<nat>): (r: Option<real>)
      requires i < |pool| && Indexes(sel)
      ensures r.Some? ==> exists k :: 0 <= k < |sel| && !Replaces(i, sel[k]) && sim(i, sel[k]) == r.value
      ensures forall k :: 0 <= k < |sel| && !Replaces(i, sel[k]) ==> r.Some? && sim(i, sel[k]) <= r.value
    {
      if sel == [] then None
      else
        var rest := Closest(i, sel[..|sel| - 1]);
        var j := sel[|sel| - 1];
        assert forall k :: 0 <= k < |sel| - 1 ==> sel[..|sel| - 1][k] == sel[k];
        if Replaces(i, j) || (rest.Some? && rest.value >= sim(i, j)) then rest else Some(sim(i, j))
    }

    function Redundancy(i: nat, sel: seq<nat>): (r: real)
      requires i < |pool| && Indexes(sel)
    {
      match Closest(i, sel)
      case Some(x) => x
      case None => 0.0
    }

    predicate TurnCovered(t: int, sel: seq<nat>)
      requires Indexes(sel)
    {
      exists k :: 0 <= k < |sel| && pool[sel[k]].turn == Some(t)
    }

    function Gain(i: nat, sel: seq<nat>): (g: real)
      requires i < |pool| && Indexes(sel)
    {
      var bonus := if pool[i].turn.Some? && !TurnCovered(pool[i].turn.value, sel) then NEW_TURN_BONUS else 0.0;
      lam * pool[i].score - (1.0 - lam) * Redundancy(i, sel) + bonus
    }

    /** Fits the rest of the budget and is no near-duplicate of a selected item. */
    predicate Eligible(i: nat, sel: seq<nat>)
      requires i < |pool| && Indexes(sel)
    {
      Used(sel) + Cost(i) <= budget && Redundancy(i, sel) <= MAX_REDUNDANCY
    }

    /** Still open, eligible, and worth more than the sentinel. */
    predicate Open(i: nat, sel: seq<nat>)
      requires Indexes(sel)
    {
      i < |pool| && i !in sel && Eligible(i, sel) && Gain(i, sel) > NO_GAIN
    }

    /** `i` is the best open candidate, the earliest of equals. */
    ghost predicate Best(i: nat, sel: seq<nat>)
      requires Indexes(sel)
    {
      && Open(i, sel)
      && forall j :: Open(j, sel) ==> Gain(j, sel) < Gain(i, sel) || (Gain(j, sel) == Gain(i, sel) && i <= j)
    }

    /** Every item was the best choice given the ones before it. */
    ghost predicate Run(sel: seq<nat>)
      decreases |sel|
    {
      Indexes(sel) && (sel == [] || (Run(sel[..|sel| - 1]) && Best(sel[|sel| - 1], sel[..|sel| - 1])))
    }

    /** The cap is reached or nothing is left to choose. */
    ghost predicate Finished(sel: seq<nat>)
      requires Indexes(sel)
    {
      |sel| >= Cap() || forall i :: !Open(i, sel)
    }
  }

  function Without(s: seq<nat>, x: nat): (r: seq<nat>)
    requires Rising(s)
    ensures Rising(r) && forall y :: y in r <==> y in s && y != x
    ensures |r| >= |s| - 1 && (x in s ==> |r| == |s| - 1)
  {
    if s == [] then []
    else
      assert forall y :: y in s[1..] ==> y > s[0];
      if s[0] == x then s[1..]
      else
        var rest := Without(s[1..], x);
        assert forall k :: 0 <= k < |rest| ==> rest[k] in rest;
        [s[0]] + rest
  }

  /** `list(range(n))`. */
  function Upto(n: nat): (r: seq<nat>)
    ensures |r| == n && Rising(r) && forall i: nat :: i in r <==> i < n
  {
    if n == 0 then []
    else
      var front := Upto(n - 1);
      assert forall k :: 0 <= k < |front| ==> front[k] in front;
      front + [n - 1]
  }

  method SelectUnderBudget(p: Problem) returns (selected: seq<nat>)
    ensures p.Run(selected) && p.Finished(selected)
    ensures selected == [] || |selected| <= p.Cap()
  {
    selected := [];
    if p.pool == [] {
      return;
    }
    var n := |p.pool|;
    var used := 0;
    var remaining: seq<nat> := Upto(n);
    while remaining != [] && |selected| < p.Cap()
      invariant p.Run(selected) && used == p.Used(selected)
      invariant selected == [] || |selected| <= p.Cap()
      invariant Rising(remaining) && forall i: nat :: i in remaining <==> i < n && i !in selected
      decreases |remaining|
    {
      var best := PickBest(p, selected, used, remaining);
      if best.None? {
        return;
      }
      RunSnoc(p, selected, best.value);
      selected := selected + [best.value];
      used := used + p.Cost(best.value);
      remaining := Without(remaining, best.value);
    }
  }

  lemma {:induction false} RunSnoc(p: Problem, sel: seq<nat>, i: nat)
    requires p.Run(sel) && p.Best(i, sel)
    ensures p.Run(sel + [i]) && p.Used(sel + [i]) == p.Used(sel) + p.Cost(i)
  {
    assert (sel + [i])[..|sel|] == sel;
  }

  /** One scan over the remaining candidates. */
  method PickBest(p: Problem, sel: seq<nat>, used: nat, remaining: seq<nat>) returns (best: Option<nat>)
    requires p.Indexes(sel) && used == p.Used(sel) && Rising(remaining)
    requires forall i: nat :: i in remaining <==> i < |p.pool| && i !in sel
    ensures best.None? ==> forall i :: !p.Open(i, sel)
    ensures best.Some? ==> p.Best(best.value, sel)
  {
    best := None;
    var bestGain := NO_GAIN;
    for k := 0 to |remaining|
      invariant best.None? ==> bestGain == NO_GAIN && forall m :: 0 <= m < k ==> !p.Open(remaining[m], sel)
      invariant best.Some? ==> p.Open(best.value, sel) && bestGain == p.Gain(best.value, sel) && best.value in remaining[..k]
      invariant best.Some? ==> forall m :: 0 <= m < k && p.Open(remaining[m], sel) ==>
                  p.Gain(remaining[m], sel) < bestGain || (p.Gain(remaining[m], sel) == bestGain && best.value <= remaining[m])
    {
      var i := remaining[k];
      assert i in remaining;
      if used + p.Cost(i) <= p.budget && p.Redundancy(i, sel) <= MAX_REDUNDANCY {
        var gain := p.Gain(i, sel);
        if gain > bestGain {
          bestGain, best := gain, Some(i);
        }
      }
    }
    forall i | p.Open(i, sel)
      ensures exists m :: 0 <= m < |remaining| && remaining[m] == i
    {
      assert i in remaining;
    }
  }

  // ----- what a selection guarantees --------------------------------------------------------

  lemma {:induction false} RunAt(p: Problem, sel: seq<nat>, k: nat)
    requires p.Run(sel) && k < |sel|
    ensures p.Indexes(sel[..k]) && p.Best(sel[k], sel[..k])
    decreases |sel|
  {
    var front := sel[..|sel| - 1];
    if k < |front| {
      RunAt(p, front, k);
      assert front[..k] == sel[..k];
    }
  }

  /** Distinct items, within the token budget. */
  lemma {:induction false} SelectionFits(p: Problem, sel: seq<nat>)
    requires p.Run(sel)
    ensures forall i, j :: 0 <= i < j < |sel| ==> sel[i] != sel[j]
    ensures sel != [] ==> p.Used(sel) <= p.budget
  {
    forall i, j | 0 <= i < j < |sel|
      ensures sel[i] != sel[j]
    {
      RunAt(p, sel, j);
      assert sel[..j][i] == sel[i];
    }
    if sel != [] {
      RunAt(p, sel, |sel| - 1);
    }
  }

  /** Two items are a replacement and what it replaced, either way round. */
  lemma {:induction false} ReplacesIff(p: Problem, a: nat, b: nat)
    requires a < |p.pool| && b < |p.pool|
    ensures p.Replaces(a, b) <==>
            exists id :: (p.pool[a].supersededBy == Some(id) && p.pool[b].id == Some(id))
                         || (p.pool[b].supersededBy == Some(id) && p.pool[a].id == Some(id))
  {
    if p.pool[a].supersededBy.Some? && p.pool[a].supersededBy == p.pool[b].id {
      assert p.pool[b].id == Some(p.pool[a].supersededBy.value);
    } else if p.pool[b].supersededBy.Some? && p.pool[b].supersededBy == p.pool[a].id {
      assert p.pool[a].id == Some(p.pool[b].supersededBy.value);
    }
  }

  /** The redundancy of an item: its highest similarity to a selected one that is no replacement of it or by it, or zero. */
  lemma {:induction false} RedundancyIs(p: Problem, i: nat, sel: seq<nat>)
    requires i < |p.pool| && p.Indexes(sel)
    ensures var r := p.Redundancy(i, sel);
            && (forall k :: 0 <= k < |sel| && !p.Replaces(i, sel[k]) ==> p.sim(i, sel[k]) <= r)
            && (if forall k :: 0 <= k < |sel| ==> p.Replaces(i, sel[k]) then r == 0.0
                else exists k :: 0 <= k < |sel| && !p.Replaces(i, sel[k]) && p.sim(i, sel[k]) == r)
  {
    hide Problem.Replaces;
    var c := p.Closest(i, sel);
    if c.Some? {
      var k :| 0 <= k < |sel| && !p.Replaces(i, sel[k]) && p.sim(i, sel[k]) == c.value;
    }
  }

  /** The tokens an item costs: a quarter of the characters shown, at least one. */
  lemma {:induction false} CostIs(p: Problem, i: nat)
    requires i < |p.pool|
    ensures var shown := |if p.pool[i].context == "" then p.pool[i].text else p.pool[i].context|;
            p.Cost(i) == if shown < 8 then 1 else shown / 4
  {
  }

  /** What is used up is the cost of each selected item, once. */
  lemma {:induction false} UsedIs(p: Problem, sel: seq<nat>, k: nat)
    requires p.Indexes(sel) && k < |sel|
    ensures p.Indexes(sel[..k] + sel[k + 1..]) && p.Used(sel) == p.Used(sel[..k] + sel[k + 1..]) + p.Cost(sel[k])
    ensures p.Indexes([]) && p.Used([]) == 0
  {
    hide Problem.Cost;
    var m := |sel| - 1;
    if k == m {
      assert sel[..k] + sel[k + 1..] == sel[..m];
    } else {
      var front, rest := sel[..m], sel[..k] + sel[k + 1..];
      UsedIs(p, front, k);
      assert rest[..|rest| - 1] == front[..k] + front[k + 1..] && rest[|rest| - 1] == sel[m];
    }
  }

  /** The item's turn has not been shown yet. */
  ghost predicate NewTurn(p: Problem, i: nat, sel: seq<nat>)
    requires i < |p.pool| && p.Indexes(sel)
  {
    p.pool[i].turn.Some? && forall k :: 0 <= k < |sel| ==> p.pool[sel[k]].turn != p.pool[i].turn
  }

  /**
    Every choice beats what else was open: weighing relevance by `lam`, redundancy by the
    rest, and a turn not yet shown by a fifth, no open item had more.
   */
  lemma {:induction false} ChosenOver(p: Problem, sel: seq<nat>, k: nat, j: nat)
    requires p.Run(sel) && k < |sel| && p.Indexes(sel[..k]) && p.Open(j, sel[..k])
    ensures var i, before := sel[k], sel[..k];
            p.lam * p.pool[i].score - (1.0 - p.lam) * p.Redundancy(i, before) + (if NewTurn(p, i, before) then 0.2 else 0.0)
            >= p.lam * p.pool[j].score - (1.0 - p.lam) * p.Redundancy(j, before) + (if NewTurn(p, j, before) then 0.2 else 0.0)
  {
    hide Problem.Redundancy, Problem.Run;
    var before := sel[..k];
    RunAt(p, sel, k);
    TurnsAgree(p, sel[k], before);
    TurnsAgree(p, j, before);
  }

  lemma {:induction false} TurnsAgree(p: Problem, i: nat, sel: seq<nat>)
    requires i < |p.pool| && p.Indexes(sel)
    ensures p.pool[i].turn.Some? && !p.TurnCovered(p.pool[i].turn.value, sel) <==> NewTurn(p, i, sel)
  {
  }

  /** So between items that differ in nothing else, the more relevant goes first, the less redundant, and the new turn. */
  lemma {:induction false} ChosenFirst(p: Problem, sel: seq<nat>, k: nat, j: nat)
    requires p.Run(sel) && k < |sel| && p.Indexes(sel[..k]) && p.Open(j, sel[..k]) && 0.0 < p.lam < 1.0
    ensures var i, before := sel[k], sel[..k];
            var sameTurn := NewTurn(p, i, before) == NewTurn(p, j, before);
            var sameScore, sameRed := p.pool[i].score == p.pool[j].score, p.Redundancy(i, before) == p.Redundancy(j, before);
            && (sameTurn && sameRed ==> p.pool[i].score >= p.pool[j].score)
            && (sameTurn && sameScore ==> p.Redundancy(i, before) <= p.Redundancy(j, before))
            && (sameScore && sameRed && NewTurn(p, j, before) ==> NewTurn(p, i, before))
  {
    hide Problem.Redundancy, Problem.Run, NewTurn, Problem.Best, Problem.Eligible, Problem.Gain;
    RunAt(p, sel, k);
    var i, before := sel[k], sel[..k];
    InPool(p, i, before);
    ChosenOver(p, sel, k, j);
    Weighing(p.lam, 1.0 - p.lam, p.pool[i].score, p.Redundancy(i, before), if NewTurn(p, i, before) then 0.2 else 0.0,
             p.pool[j].score, p.Redundancy(j, before), if NewTurn(p, j, before) then 0.2 else 0.0);
  }

  lemma {:induction false} InPool(p: Problem, i: nat, sel: seq<nat>)
    requires p.Indexes(sel) && p.Best(i, sel)
    ensures i < |p.pool|
  {
  }

  lemma {:induction false} Weighing(lam: real, rest: real, s: real, r: real, b: real, t: real, q: real, c: real)
    requires lam > 0.0 && rest > 0.0 && lam * s - rest * r + b >= lam * t - rest * q + c
    ensures (b == c && r == q ==> s >= t) && (b == c && s == t ==> r <= q) && (s == t && r == q ==> b >= c)
  {
    Cancel(lam, s, t);
    Cancel(rest, q, r);
  }

  lemma {:induction false} Cancel(c: real, a: real, b: real)
    requires c > 0.0
    ensures c * a >= c * b ==> a >= b
  {
    assert c * a - c * b == c * (a - b);
  }

  /** No two selected items are near-duplicates, except a memory and the one it replaced. */
  lemma {:induction false} SelectionIsDiverse(p: Problem, sel: seq<nat>, i: nat, j: nat)
    requires p.Run(sel) && i < j < |sel|
    ensures p.Replaces(sel[j], sel[i]) || p.sim(sel[j], sel[i]) <= MAX_REDUNDANCY
  {
    RunAt(p, sel, j);
    assert sel[..j][i] == sel[i];
  }

  /**
    Nothing was left out needlessly: below the cap, every unselected item does not fit,
    is too similar to a selected item it did not replace, or is worth no more than the
    sentinel.
   */
  lemma {:induction false} SelectionIsMaximal(p: Problem, sel: seq<nat>, i: nat)
    requires p.Run(sel) && p.Finished(sel) && |sel| < p.Cap() && i < |p.pool| && i !in sel
    ensures p.Used(sel) + p.Cost(i) > p.budget
            || (exists k :: 0 <= k < |sel| && !p.Replaces(i, sel[k]) && p.sim(i, sel[k]) > MAX_REDUNDANCY)
            || p.Gain(i, sel) <= NO_GAIN
  {
    assert !p.Open(i, sel);
  }

  /** The selection is determined: two finished runs of one problem agree. */
  lemma {:induction false} SelectionIsUnique(p: Problem, a: seq<nat>, b: seq<nat>)
    requires p.Run(a) && p.Finished(a) && p.Run(b) && p.Finished(b)
    requires |a| <= p.Cap() && |b| <= p.Cap()
    ensures a == b
  {
    if |a| <= |b| {
      AgreeUpTo(p, a, b, |a|);
      assert a[..|a|] == a && b[..|b|] == b;
      if |a| < |b| {
        RunAt(p, b, |a|);
      }
    } else {
      AgreeUpTo(p, b, a, |b|);
      assert b[..|b|] == b;
      RunAt(p, a, |b|);
    }
  }

  lemma {:induction false} AgreeUpTo(p: Problem, a: seq<nat>, b: seq<nat>, k: nat)
    requires p.Run(a) && p.Run(b) && k <= |a| <= |b|
    ensures a[..k] == b[..k]
  {
    hide Problem.Run, Problem.Best, Problem.Indexes;
    if k > 0 {
      AgreeUpTo(p, a, b, k - 1);
      RunAt(p, a, k - 1);
      RunAt(p, b, k - 1);
      BestIsUnique(p, a[..k - 1], a[k - 1], b[k - 1]);
      assert a[..k] == a[..k - 1] + [a[k - 1]] && b[..k] == b[..k - 1] + [b[k - 1]];
    }
  }

  lemma {:induction false} BestIsUnique(p: Problem, sel: seq<nat>, i: nat, j: nat)
    requires p.Indexes(sel) && p.Best(i, sel) && p.Best(j, sel)
    ensures i == j
  {
    hide Problem.Open, Problem.Gain;
  }
}
