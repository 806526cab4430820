/** The whole of `plan_compaction` (tsm/compaction.py) and what it promises for any summarizer. */
module Planner {
  import opened Wrappers
  import opened Text
  import opened Gist
  import opened Packing
  import opened Partition
  import opened Compaction

  /** The caller's settings. */
  datatype Settings = Settings(budget: int, share: real, chunkTokens: int, maxChunks: int)

  /** `gist_limit`: the part of the budget set aside for gists. */
  function GistLimit(s: Settings): (n: nat)
    requires s.budget >= 2
    ensures 1 <= n < s.budget
  {
    var r := Round((s.budget as real) * s.share);
    var m := if r < s.budget - 1 then r else s.budget - 1;
    if m < 1 then 1 else m
  }

  function ChunkCount(s: Settings): (n: nat)
    requires s.budget >= 2 && s.chunkTokens >= 1 && s.maxChunks >= 1
    ensures 1 <= n <= s.maxChunks && n <= GistLimit(s)
  {
    var m := GistLimit(s) / s.chunkTokens;
    QuotientBelow(GistLimit(s), s.chunkTokens);
    var c := if m < 1 then 1 else m;
    if c < s.maxChunks then c else s.maxChunks
  }

  /** The gist share is the rounded share of the budget, but at least one token and not all of them. */
  lemma {:induction false} GistLimitIs(s: Settings)
    requires s.budget >= 2
    ensures var exact, n := (s.budget as real) * s.share, GistLimit(s);
            && (exact < 1.0 ==> n == 1) && (exact > (s.budget - 1) as real ==> n == s.budget - 1)
            && (1.0 <= exact <= (s.budget - 1) as real ==> exact - 0.5 <= n as real <= exact + 0.5)
  {
  }

  /** As many chunks as the share holds, but at least one and never more than allowed. */
  lemma {:induction false} ChunkCountIs(s: Settings)
    requires s.budget >= 2 && s.chunkTokens >= 1 && s.maxChunks >= 1
    ensures var n := ChunkCount(s);
            && 1 <= n <= s.maxChunks && (n == 1 || n * s.chunkTokens <= GistLimit(s))
            && (n == s.maxChunks || GistLimit(s) < (n + 1) * s.chunkTokens)
  {
    hide GistLimit;
    var limit, m, n := GistLimit(s), GistLimit(s) / s.chunkTokens, ChunkCount(s);
    Multiples(limit, s.chunkTokens);
    if n > 1 {
      Times(n, m, s.chunkTokens);
    }
    if n < s.maxChunks {
      Times(m + 1, n + 1, s.chunkTokens);
    }
  }

  lemma {:induction false} Multiples(a: nat, b: int)
    requires b >= 1
    ensures (a / b) * b <= a < (a / b + 1) * b
  {
  }

  lemma {:induction false} Times(a: int, b: int, c: int)
    requires a <= b && c >= 0
    ensures a * c <= b * c
  {
  }

  lemma {:induction false} QuotientBelow(a: nat, b: int)
    requires b >= 1
    ensures 0 <= a / b <= a
  {
  }

  /** Which error, if any, the arguments raise, in the order they are checked. */
  function ArgumentError(texts: seq<string>, roles: seq<string>, s: Settings): (e: Option<PlanError>)
  {
    if |texts| != |roles| then Some(LengthMismatch)
    else if s.budget < 2 then Some(BudgetTooSmall)
    else if !(0.0 < s.share < 1.0) then Some(BadGistShare)
    else if s.chunkTokens < 1 || s.maxChunks < 1 then Some(BadChunkSettings)
    else None
  }

  /** Exactly when the arguments are refused, and the first thing wrong with them decides how. */
  lemma {:induction false} ArgumentErrorIff(texts: seq<string>, roles: seq<string>, s: Settings)
    ensures var e := ArgumentError(texts, roles, s);
            && (e == Some(LengthMismatch) <==> |texts| != |roles|)
            && (|texts| == |roles| ==> (e == Some(BudgetTooSmall) <==> s.budget < 2))
            && (|texts| == |roles| && s.budget >= 2 ==> (e == Some(BadGistShare) <==> s.share <= 0.0 || s.share >= 1.0))
            && (|texts| == |roles| && s.budget >= 2 && 0.0 < s.share < 1.0 ==>
                  (e == Some(BadChunkSettings) <==> s.chunkTokens <= 0 || s.maxChunks <= 0)
                  && (e.None? <==> s.chunkTokens > 0 && s.maxChunks > 0))
  {
  }

  // ----- writing the gists ---------------------------------------------------------------

  /** The reply to the `k`-th chunk. */
  function Reply(chunks: seq<Chunk>, limit: nat, summarize: Summarizer, k: nat): (r: Option<string>)
    requires k < |chunks|
  {
    summarize(k, chunks[k].lines, Limit(limit, |chunks|, k))
  }

  /** None of the first `n` calls raised. */
  predicate AllReplied(chunks: seq<Chunk>, limit: nat, summarize: Summarizer, n: nat)
    requires n <= |chunks|
  {
    forall k :: 0 <= k < n ==> Reply(chunks, limit, summarize, k).Some?
  }

  /** The facts of the gist written from the `k`-th chunk. */
  function KeptFrom(chunks: seq<Chunk>, limit: nat, summarize: Summarizer, k: nat): (r: seq<string>)
    requires k < |chunks| && Reply(chunks, limit, summarize, k).Some?
  {
    Kept(Reply(chunks, limit, summarize, k).value, Limit(limit, |chunks|, k))
  }

  /** The first `n` chunks' gists with their roles; an empty gist is dropped. */
  function GistsOf(chunks: seq<Chunk>, limit: nat, summarize: Summarizer, n: nat): (r: (seq<string>, seq<string>))
    requires n <= |chunks| && AllReplied(chunks, limit, summarize, n)
    ensures |r.0| == |r.1|
  {
    if n == 0 then ([], [])
    else
      var front := GistsOf(chunks, limit, summarize, n - 1);
      var gist := Join(Bullets(KeptFrom(chunks, limit, summarize, n - 1)));
      if gist == "" then front else (front.0 + [gist], front.1 + [chunks[n - 1].role])
  }

  /** `gist` is what the summarizer replied about the lines of chunk `k`, cut to whole facts within that chunk's share. */
  ghost predicate WrittenFrom(chunks: seq<Chunk>, limit: nat, summarize: Summarizer, k: nat, gist: string)
    requires k < |chunks|
  {
    var share := limit / |chunks| + (if k < limit % |chunks| then 1 else 0);
    var reply := summarize(k, chunks[k].lines, share);
    reply.Some? && gist == Join(Bullets(Kept(reply.value, share)))
  }

  /** The gists are those of the chunks, in order, without the empty ones, each with its chunk's role. */
  lemma {:induction false} GistsAre(chunks: seq<Chunk>, limit: nat, summarize: Summarizer, n: nat) returns (at: seq<nat>)
    requires n <= |chunks| && AllReplied(chunks, limit, summarize, n)
    ensures var r := GistsOf(chunks, limit, summarize, n);
            && |at| == |r.0| == |r.1| && (forall k, l :: 0 <= k < l < |at| ==> at[k] < at[l])
            && (forall k :: 0 <= k < |at| ==>
                  at[k] < n && r.1[k] == chunks[at[k]].role && r.0[k] != "" && WrittenFrom(chunks, limit, summarize, at[k], r.0[k]))
            && (forall k: nat :: k < n && k !in at ==> WrittenFrom(chunks, limit, summarize, k, ""))
  {
    hide Kept, Join, Bullets, WrittenFrom;
    at := [];
    if n > 0 {
      at := GistsAre(chunks, limit, summarize, n - 1);
      var gist := Join(Bullets(KeptFrom(chunks, limit, summarize, n - 1)));
      WrittenNow(chunks, limit, summarize, n - 1);
      assert forall k :: 0 <= k < |at| ==> at[k] in at;
      if gist != "" {
        at := at + [n - 1];
      }
    }
  }

  lemma {:induction false} WrittenNow(chunks: seq<Chunk>, limit: nat, summarize: Summarizer, k: nat)
    requires k < |chunks| && Reply(chunks, limit, summarize, k).Some?
    ensures WrittenFrom(chunks, limit, summarize, k, Join(Bullets(KeptFrom(chunks, limit, summarize, k))))
  {
    hide Kept, Join, Bullets;
  }

  method WriteGists(chunks: seq<Chunk>, limit: nat, summarize: Summarizer)
    returns (r: Option<(seq<string>, seq<string>)>)
    ensures r.Some? <==> AllReplied(chunks, limit, summarize, |chunks|)
    ensures r.Some? ==> r.value == GistsOf(chunks, limit, summarize, |chunks|)
  {
    hide Kept, Join, Bullets, Limit;
    var gists: seq<string>, roles: seq<string> := [], [];
    for k := 0 to |chunks|
      invariant AllReplied(chunks, limit, summarize, k)
      invariant (gists, roles) == GistsOf(chunks, limit, summarize, k)
    {
      var share := Limit(limit, |chunks|, k);
      var reply := summarize(k, chunks[k].lines, share);
      if reply.None? {
        assert Reply(chunks, limit, summarize, k).None?;
        return None;
      }
      var gist := FitCompleteFacts(reply.value, share);
      if gist != "" {
        gists, roles := gists + [gist], roles + [chunks[k].role];
      }
    }
    return Some((gists, roles));
  }

  /** Whatever the summarizer says, its gists stay within the limits they were given. */
  lemma {:induction false} GistsFit(chunks: seq<Chunk>, limit: nat, summarize: Summarizer, n: nat)
    requires n <= |chunks| && AllReplied(chunks, limit, summarize, n)
    ensures TotalTokens(GistsOf(chunks, limit, summarize, n).0) <= if n == 0 then 0 else LimitSum(limit, |chunks|, n)
  {
    hide Limit, TotalTokens, Kept, Join, Bullets, Tokens;
    NoTokens();
    if n > 0 {
      GistsFit(chunks, limit, summarize, n - 1);
      var front := GistsOf(chunks, limit, summarize, n - 1);
      var gist := Join(Bullets(KeptFrom(chunks, limit, summarize, n - 1)));
      FitIsWithinBudget(Reply(chunks, limit, summarize, n - 1).value, Limit(limit, |chunks|, n - 1));
      TotalConcat(front.0, [gist]);
      TotalOne(gist);
    }
  }

  /** Stored gists are nonempty and carry a gist role. */
  lemma {:induction false} GistsAreGists(chunks: seq<Chunk>, limit: nat, summarize: Summarizer, n: nat)
    requires n <= |chunks| && AllReplied(chunks, limit, summarize, n)
    requires forall k :: 0 <= k < |chunks| ==> IsGist(chunks[k].role)
    ensures forall g :: g in GistsOf(chunks, limit, summarize, n).0 ==> g != ""
    ensures forall role :: role in GistsOf(chunks, limit, summarize, n).1 ==> IsGist(role)
  {
    hide Limit, Kept, Join, Bullets, IsGist;
    if n > 0 {
      GistsAreGists(chunks, limit, summarize, n - 1);
    }
  }

  lemma {:induction false} NoTokens()
    ensures TotalTokens([]) == 0
  {
  }

  lemma {:induction false} TotalOne(t: string)
    ensures TotalTokens([t]) == Tokens(t)
  {
    assert [t][1..] == [];
  }

  // ----- the plan ---------------------------------------------------------------------------

  /**
    What every plan guarantees: `keep` and `fold` are increasing and split the indexes, no
    gist and no barred memory survives, something is folded, and the kept texts and the
    gists together fit the budget.
   */
  ghost predicate ValidPlan(texts: seq<string>, roles: seq<string>, budget: int, barred: set<int>, plan: Plan)
    requires |texts| == |roles|
  {
    && Rising(plan.keep) && Rising(plan.fold) && plan.fold != []
    && InRange(plan.keep, |texts|) && InRange(plan.fold, |texts|)
    && (forall i: nat :: i < |texts| ==> (i in plan.keep <==> i !in plan.fold))
    && (forall i: nat :: i < |texts| && (IsGist(roles[i]) || i in barred) ==> i in plan.fold)
    && |plan.gists| == |plan.gistRoles|
    && (forall g :: g in plan.gists ==> g != "")
    && (forall role :: role in plan.gistRoles ==> IsGist(role))
    && TotalTokens(PickAt(texts, plan.keep)) + TotalTokens(plan.gists) <= budget
  }

  /** The kept indexes and their complement. */
  function Split(texts: seq<string>, roles: seq<string>, barred: set<int>, limit: int): (r: (seq<nat>, seq<nat>))
    requires |texts| == |roles|
  {
    var keep := KeepOf(texts, roles, barred, limit);
    (keep, FoldList(keep, |texts|))
  }

  lemma {:induction false} SplitIsValid(texts: seq<string>, roles: seq<string>, budget: int, barred: set<int>, limit: nat,
                                        gists: seq<string>, gistRoles: seq<string>)
    requires |texts| == |roles| && TotalTokens(texts) > budget && limit + TotalTokens(gists) <= budget
    requires |gists| == |gistRoles| && (forall g :: g in gists ==> g != "") && (forall role :: role in gistRoles ==> IsGist(role))
    ensures var s := Split(texts, roles, barred, limit);
            ValidPlan(texts, roles, budget, barred, Plan(s.0, s.1, gists, gistRoles))
  {
    hide KeepOf, FoldList, TotalTokens, IsGist, PickAt;
    var keep := KeepOf(texts, roles, barred, limit);
    var fold := FoldList(keep, |texts|);
    KeepFitsLimit(texts, roles, barred, limit);
    FoldIsRest(roles, barred, keep, fold);
    SomethingFolded(texts, keep, fold, limit);
  }

  lemma {:induction false} SomethingFolded(texts: seq<string>, keep: seq<nat>, fold: seq<nat>, limit: nat)
    requires Rising(keep) && InRange(keep, |texts|) && fold == FoldList(keep, |texts|)
    requires TotalTokens(PickAt(texts, keep)) <= limit < TotalTokens(texts)
    ensures fold != []
  {
    hide FoldList, TotalTokens, PickAt;
    NoTokens();
    if fold == [] {
      NothingFolded(texts, keep, fold);
    }
  }

  lemma {:induction false} FoldIsRest(roles: seq<string>, barred: set<int>, keep: seq<nat>, fold: seq<nat>)
    requires fold == FoldList(keep, |roles|) && InRange(keep, |roles|)
    requires forall k :: 0 <= k < |keep| ==> !IsGist(roles[keep[k]]) && keep[k] !in barred
    ensures InRange(fold, |roles|)
    ensures forall i: nat :: i < |roles| && (IsGist(roles[i]) || i in barred) ==> i in fold
  {
    hide FoldList, IsGist;
    assert forall k :: 0 <= k < |fold| ==> fold[k] in fold;
    forall i: nat | i < |roles| && (IsGist(roles[i]) || i in barred)
      ensures i !in keep
    {
    }
  }

  lemma {:induction false} NothingFolded(texts: seq<string>, keep: seq<nat>, fold: seq<nat>)
    requires texts != [] && Rising(keep) && InRange(keep, |texts|) && fold == FoldList(keep, |texts|) && fold == []
    ensures PickAt(texts, keep) == texts
  {
    hide FoldList;
    forall i: nat | i < |texts|
      ensures i in keep
    {
      assert i !in fold;
    }
    RisingIsAll(keep, |texts|);
  }

  /** An increasing sequence of all numbers below `n` is `0, 1, ..., n - 1`. */
  lemma {:induction false} RisingIsAll(s: seq<nat>, n: nat)
    requires n >= 1 && Rising(s) && InRange(s, n) && forall i: nat :: i < n ==> i in s
    ensures |s| == n && forall k :: 0 <= k < n ==> s[k] == k
  {
    assert n - 1 in s;
    var m := |s| - 1;
    var k :| 0 <= k < |s| && s[k] == n - 1;
    assert s[m] < n;
    assert k == m;
    if n == 1 {
      assert s[0] >= 0;
    } else {
      var front := s[..m];
      forall i: nat | i < n - 1
        ensures i in front
      {
        assert i in s;
        var j :| 0 <= j < |s| && s[j] == i;
        assert front[j] == i;
      }
      RisingIsAll(front, n - 1);
    }
  }

  /** What the summarizer is asked, when there is one. */
  ghost predicate Asked(texts: seq<string>, roles: seq<string>, fold: seq<nat>, s: Settings, chunks: seq<Chunk>)
    requires |texts| == |roles| && InRange(fold, |texts|) && ArgumentError(texts, roles, s).None?
  {
    var user, other := LinesFor(chunks, GIST_ROLE), LinesFor(chunks, GIST_OTHER_ROLE);
    && |chunks| <= ChunkCount(s)
    && (user != [] ==> |chunks| == if other != [] then Fewer(ChunkCount(s) - 1, |user|) + 1 else Fewer(ChunkCount(s), |user|))
    && (user == [] ==> |chunks| == Fewer(ChunkCount(s), |other|))
    && (forall k :: 0 <= k < |chunks| ==> chunks[k].lines != [])
    && Told(texts, roles, fold, true, user)
    && (if user == [] || ChunkCount(s) >= 4 then Told(texts, roles, fold, false, other) else other == [])
    && (chunks != [] ==>
          LimitSum(GistLimit(s), |chunks|, |chunks|) == GistLimit(s)
          && forall k :: 0 <= k < |chunks| ==> Limit(GistLimit(s), |chunks|, k) >= 1)
  }

  /**
    `plan_compaction`. `chunks` is what the summarizer was asked to write from: every
    folded user fact, after every line of the earlier user gists, once and in order; the
    other roles' history whole or not at all. A summarizer that raises aborts the plan.
   */
  method PlanCompaction(texts: seq<string>, roles: seq<string>, s: Settings, summarize: Option<Summarizer>, barred: set<int>)
    returns (r: Result<Option<Plan>, PlanError>, chunks: seq<Chunk>)
    ensures ArgumentError(texts, roles, s).Some? ==> r == Err(ArgumentError(texts, roles, s).value)
    ensures ArgumentError(texts, roles, s).None? ==> (r == Ok(None) <==> TotalTokens(texts) <= s.budget)
    ensures r.Ok? && r.value.Some? ==> |texts| == |roles| && ValidPlan(texts, roles, s.budget, barred, r.value.value)
    ensures r.Ok? && r.value.Some? ==>
              var limit := if summarize.None? then s.budget else s.budget - GistLimit(s);
              (r.value.value.keep, r.value.value.fold) == Split(texts, roles, barred, limit)
    ensures r.Ok? && r.value.Some? && summarize.None? ==> r.value.value.gists == []
    ensures r.Err? && ArgumentError(texts, roles, s).None? ==> summarize.Some? && r.error == SummarizerFailed
    ensures ArgumentError(texts, roles, s).None? && TotalTokens(texts) > s.budget && summarize.Some? ==>
              var fold := Split(texts, roles, barred, s.budget - GistLimit(s)).1;
              && InRange(fold, |texts|) && Asked(texts, roles, fold, s, chunks)
              && (r == Err(SummarizerFailed) <==> !AllReplied(chunks, GistLimit(s), summarize.value, |chunks|))
              && (r.Ok? ==> (r.value.value.gists, r.value.value.gistRoles)
                            == GistsOf(chunks, GistLimit(s), summarize.value, |chunks|))
  {
    hide TotalTokens, Split, GistsOf, Asked, ValidPlan, AllReplied;
    chunks := [];
    var bad := ArgumentError(texts, roles, s);
    if bad.Some? {
      return Err(bad.value), chunks;
    }
    if TotalTokens(texts) <= s.budget {
      return Ok(None), chunks;
    }
    if summarize.None? {
      var split := Split(texts, roles, barred, s.budget);
      NoTokens();
      SplitIsValid(texts, roles, s.budget, barred, s.budget, [], []);
      return Ok(Some(Plan(split.0, split.1, [], []))), chunks;
    }
    r, chunks := PlanWithGists(texts, roles, s, summarize.value, barred);
  }

  method PlanWithGists(texts: seq<string>, roles: seq<string>, s: Settings, summarize: Summarizer, barred: set<int>)
    returns (r: Result<Option<Plan>, PlanError>, chunks: seq<Chunk>)
    requires ArgumentError(texts, roles, s).None? && TotalTokens(texts) > s.budget
    ensures var split := Split(texts, roles, barred, s.budget - GistLimit(s));
            && InRange(split.1, |texts|) && Asked(texts, roles, split.1, s, chunks)
            && r == (if !AllReplied(chunks, GistLimit(s), summarize, |chunks|) then Err(SummarizerFailed)
                     else var g := GistsOf(chunks, GistLimit(s), summarize, |chunks|);
                          Ok(Some(Plan(split.0, split.1, g.0, g.1))))
    ensures r.Ok? ==> ValidPlan(texts, roles, s.budget, barred, r.value.value)
  {
    hide TotalTokens, Split, GistsOf, UserTail, OtherTail, Told, LinesFor, LimitSum, ValidPlan, IsGist;
    var limit := GistLimit(s);
    var split := Split(texts, roles, barred, s.budget - limit);
    FoldInRange(texts, roles, barred, s.budget - limit);
    var userTail, otherTail := BuildTails(texts, roles, split.1);
    chunks := PlanChunks(userTail, otherTail, ChunkCount(s));
    if chunks != [] {
      LimitsShareExactly(limit, |chunks|);
    }
    var written := WriteGists(chunks, limit, summarize);
    if written.None? {
      return Err(SummarizerFailed), chunks;
    }
    GistsFit(chunks, limit, summarize, |chunks|);
    GistsAreGists(chunks, limit, summarize, |chunks|);
    SplitIsValid(texts, roles, s.budget, barred, s.budget - limit, written.value.0, written.value.1);
    return Ok(Some(Plan(split.0, split.1, written.value.0, written.value.1))), chunks;
  }

  lemma {:induction false} FoldInRange(texts: seq<string>, roles: seq<string>, barred: set<int>, limit: int)
    requires |texts| == |roles|
    ensures InRange(Split(texts, roles, barred, limit).1, |texts|) && Rising(Split(texts, roles, barred, limit).1)
  {
    var fold := Split(texts, roles, barred, limit).1;
    assert forall k :: 0 <= k < |fold| ==> fold[k] in fold;
  }
}
