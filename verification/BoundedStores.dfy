/** Equal-budget comparison stores (benchmarks/cognitive_eval/budgeting.py `build_token_bounded_stores`). */
module BoundedStores {
  import opened Wrappers
  import opened Text
  import opened Gist
  import opened Packing
  import opened Compaction
  import opened Planner

  datatype Stores = Stores(naive: seq<string>, compressed: seq<string>, naiveOverflow: seq<string>,
                           compressedTail: seq<string>, limit: int, gistLimit: nat, gists: seq<string>)

  datatype StoresError = BadArguments | RolesMissing | Summarizer | BudgetExceeded

  predicate BadSettings(s: Settings)
  {
    s.budget < 2 || !(0.0 < s.share < 1.0) || s.chunkTokens < 1 || s.maxChunks < 1
  }

  /** There is something to store, and the arguments allow it. */
  predicate Due(facts: seq<string>, s: Settings, roles: Option<seq<string>>, roleAware: bool)
  {
    !BadSettings(s) && TotalTokens(facts) > s.budget && (roleAware ==> roles.Some? && |roles.value| == |facts|)
  }

  /** What the summarizer is asked without roles: everything but the recent facts. */
  function Tail(facts: seq<string>, s: Settings): (tail: seq<string>)
    requires s.budget >= 2
  {
    FilterSet(facts, Rest(Recent(facts, s.budget - GistLimit(s)), |facts|), |facts|)
  }

  /**
    Both stores respect the budget on both branches and for any summarizer, so the
    "exceeded its budget" assertion is never reached.
   */
  method BuildTokenBoundedStores(facts: seq<string>, s: Settings, summarize: Summarizer,
                                 roles: Option<seq<string>>, roleAware: bool)
    returns (r: Result<Option<Stores>, StoresError>, ghost chunks: seq<Chunk>)
    ensures r != Err(BudgetExceeded)
    ensures r == Err(BadArguments) <==>
              s.budget < 2 || s.share <= 0.0 || s.share >= 1.0 || s.chunkTokens <= 0 || s.maxChunks <= 0
    ensures !BadSettings(s) ==> (r == Ok(None) <==> TotalTokens(facts) <= s.budget)
    ensures r == Err(RolesMissing) <==>
              !BadSettings(s) && TotalTokens(facts) > s.budget && roleAware && !(roles.Some? && |roles.value| == |facts|)
    ensures Due(facts, s, roles, roleAware) && !roleAware ==>
              var reply := summarize(0, Tail(facts, s), GistLimit(s));
              && (r == Err(StoresError.Summarizer) <==> reply.None?)
              && (r.Ok? && r.value.Some? ==>
                    var gist := Join(Bullets(Kept(reply.value, GistLimit(s))));
                    r.value.value.gists == if gist == "" then [] else [gist])
    ensures Due(facts, s, roles, roleAware) && roleAware ==>
              var fold := Split(facts, roles.value, {}, s.budget - GistLimit(s)).1;
              && InRange(fold, |facts|) && Asked(facts, roles.value, fold, s, chunks)
              && (r == Err(StoresError.Summarizer) <==> !AllReplied(chunks, GistLimit(s), summarize, |chunks|))
              && (r.Ok? && r.value.Some? ==> r.value.value.gists == GistsOf(chunks, GistLimit(s), summarize, |chunks|).0)
    ensures r.Ok? && r.value.Some? ==>
              var b := r.value.value;
              && TotalTokens(b.compressed) <= s.budget && TotalTokens(b.naive) <= s.budget
              && TotalTokens(b.naive) + TotalTokens(b.naiveOverflow) == TotalTokens(facts)
              && b.naive == FilterSet(facts, Recent(facts, s.budget), |facts|)
    ensures r.Ok? && r.value.Some? && !roleAware ==>
              var b, recent := r.value.value, Recent(facts, s.budget - GistLimit(s));
              && b.compressed == FilterSet(facts, recent, |facts|) + b.gists
              && b.compressedTail == FilterSet(facts, Rest(recent, |facts|), |facts|)
    ensures r.Ok? && r.value.Some? && roleAware ==>
              && roles.Some? && |roles.value| == |facts|
              && var b, split := r.value.value, Split(facts, roles.value, {}, s.budget - GistLimit(s));
                 && InRange(split.0, |facts|) && InRange(split.1, |facts|)
                 && b.compressed == PickAt(facts, split.0) + b.gists && b.compressedTail == PickAt(facts, split.1)
  {
    hide TotalTokens, Kept, ValidPlan, Split, Recent, Rest, FilterSet, Asked, AllReplied, GistsOf, Join, Bullets;
    chunks := [];
    if BadSettings(s) {
      return Err(BadArguments), chunks;
    }
    if TotalTokens(facts) <= s.budget {
      return Ok(None), chunks;
    }
    var naive, naiveOverflow := PackRecent(facts, s.budget);
    var gistLimit := GistLimit(s);
    var survivors, tail, gists: seq<string>;
    if roleAware {
      if roles.None? || |roles.value| != |facts| {
        return Err(RolesMissing), chunks;
      }
      var plan, asked := PlanCompaction(facts, roles.value, s, Some(summarize), {});
      chunks := asked;
      if plan.Err? {
        return Err(StoresError.Summarizer), chunks;
      }
      PlanTotals(facts, roles.value, s.budget, plan.value.value);
      survivors := PickAt(facts, plan.value.value.keep);
      tail := PickAt(facts, plan.value.value.fold);
      gists := plan.value.value.gists;
    } else {
      survivors, tail := PackRecent(facts, s.budget - gistLimit);
      var reply := summarize(0, tail, gistLimit);
      if reply.None? {
        return Err(StoresError.Summarizer), chunks;
      }
      var gist := FitCompleteFacts(reply.value, gistLimit);
      FitIsWithinBudget(reply.value, gistLimit);
      gists := if gist != "" then [gist] else [];
      NoTokens();
      TotalOne(gist);
    }
    var compressed := survivors + gists;
    TotalConcat(survivors, gists);
    if TotalTokens(compressed) > s.budget {
      assert false;
    }
    return Ok(Some(Stores(naive, compressed, naiveOverflow, tail, s.budget, gistLimit, gists))), chunks;
  }

  lemma {:induction false} PlanTotals(texts: seq<string>, roles: seq<string>, budget: int, plan: Plan)
    requires |texts| == |roles| && ValidPlan(texts, roles, budget, {}, plan)
    ensures InRange(plan.keep, |texts|) && InRange(plan.fold, |texts|)
    ensures TotalTokens(PickAt(texts, plan.keep)) + TotalTokens(plan.gists) <= budget
  {
  }
}
