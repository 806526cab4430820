/** Planning one compaction of a user's memories (tsm/compaction.py `plan_compaction`). */
module Compaction {
  import opened Wrappers
  import opened Text
  import opened Gist
  import opened Packing
  import opened Partition

  const GIST_ROLE := "summary"
  const GIST_OTHER_ROLE := "summary-assistant"

  datatype Plan = Plan(keep: seq<nat>, fold: seq<nat>, gists: seq<string>, gistRoles: seq<string>)

  datatype PlanError = LengthMismatch | BudgetTooSmall | BadGistShare | BadChunkSettings | SummarizerFailed

  /**
    A summarizer: any reply, or none when it raises, to a numbered call with a chunk and a
    limit. The call number lets it answer the same chunk differently each time.
   */
  type Summarizer = (nat, seq<string>, nat) -> Option<string>

  predicate IsGist(role: string)
  {
    role == GIST_ROLE || role == GIST_OTHER_ROLE
  }

  // ----- what stays and what is folded ------------------------------------------------

  /** Indexes below `n` that may survive: not a gist, not barred. */
  function Candidates(roles: seq<string>, barred: set<int>, n: nat): (r: seq<nat>)
    requires n <= |roles|
    ensures forall i: nat :: i in r <==> i < n && !IsGist(roles[i]) && i !in barred
    ensures Rising(r)
  {
    if n == 0 then []
    else
      var front := Candidates(roles, barred, n - 1);
      assert forall k :: 0 <= k < |front| ==> front[k] in front;
      if IsGist(roles[n - 1]) || n - 1 in barred then front else front + [n - 1]
  }

  function PickAt<T>(xs: seq<T>, idx: seq<nat>): (r: seq<T>)
    requires InRange(idx, |xs|)
    ensures |r| == |idx| && forall k :: 0 <= k < |idx| ==> r[k] == xs[idx[k]]
  {
    seq(|idx|, k requires 0 <= k < |idx| => xs[idx[k]])
  }

  /** The candidates at the packed positions below `n`, in order. */
  function KeepList(cands: seq<nat>, packed: set<nat>, n: nat): (r: seq<nat>)
    requires n <= |cands|
    ensures forall k :: 0 <= k < |r| ==> r[k] in cands[..n]
    ensures Rising(cands) ==> Rising(r)
  {
    if n == 0 then []
    else
      var front := KeepList(cands, packed, n - 1);
      assert forall k :: 0 <= k < |front| ==> front[k] in cands[..n - 1];
      assert cands[..n] == cands[..n - 1] + [cands[n - 1]];
      if n - 1 in packed then front + [cands[n - 1]] else front
  }

  /** Indexes below `n` that are not kept. */
  function FoldList(keep: seq<nat>, n: nat): (r: seq<nat>)
    ensures forall i: nat :: i in r <==> i < n && i !in keep
    ensures Rising(r)
  {
    if n == 0 then []
    else
      var front := FoldList(keep, n - 1);
      assert forall k :: 0 <= k < |front| ==> front[k] in front;
      if n - 1 in keep then front else front + [n - 1]
  }

  /** The indexes kept when `limit` tokens are left to facts: the role-priority pack of the candidates. */
  function KeepOf(texts: seq<string>, roles: seq<string>, barred: set<int>, limit: int): (r: seq<nat>)
    requires |texts| == |roles|
  {
    var cands := Candidates(roles, barred, |roles|);
    CandidatesInRange(roles, barred);
    var order := RoleOrder(PickAt(roles, cands));
    RoleOrderSorts(PickAt(roles, cands));
    KeepList(cands, Pack(PickAt(texts, cands), limit, order), |cands|)
  }

  lemma {:induction false} CandidatesInRange(roles: seq<string>, barred: set<int>)
    ensures InRange(Candidates(roles, barred, |roles|), |roles|)
  {
    var c := Candidates(roles, barred, |roles|);
    assert forall k :: 0 <= k < |c| ==> c[k] in c;
  }

  lemma {:induction false} KeptTexts(texts: seq<string>, cands: seq<nat>, packed: set<nat>, n: nat)
    requires n <= |cands| && InRange(cands, |texts|)
    ensures var keep := KeepList(cands, packed, n);
            InRange(keep, |texts|)
            && PickAt(texts, keep) == FilterSet(PickAt(texts, cands), packed, n)
  {
    if n > 0 {
      KeptTexts(texts, cands, packed, n - 1);
    }
  }

  /** The kept texts fit the part of the budget set aside for facts. */
  lemma {:induction false} KeepFitsLimit(texts: seq<string>, roles: seq<string>, barred: set<int>, limit: nat)
    requires |texts| == |roles|
    ensures var keep := KeepOf(texts, roles, barred, limit);
            && Rising(keep) && InRange(keep, |texts|)
            && (forall k :: 0 <= k < |keep| ==> !IsGist(roles[keep[k]]) && keep[k] !in barred)
            && TotalTokens(PickAt(texts, keep)) <= limit
  {
    var cands := Candidates(roles, barred, |roles|);
    CandidatesInRange(roles, barred);
    var texts', roles' := PickAt(texts, cands), PickAt(roles, cands);
    RoleOrderSorts(roles');
    var packed := Pack(texts', limit, RoleOrder(roles'));
    PackFits(texts', limit, RoleOrder(roles'));
    KeptTexts(texts, cands, packed, |cands|);
    FilterTotal(texts', packed, |cands|);
    hide Pack, RoleOrder, SumSet, FilterSet, TotalTokens, KeepList, Candidates;
    var keep := KeepList(cands, packed, |cands|);
    forall k | 0 <= k < |keep|
      ensures keep[k] < |texts| && !IsGist(roles[keep[k]]) && keep[k] !in barred
    {
      assert keep[k] in cands;
    }
  }

  // ----- what the gists are written from -----------------------------------------------

  function Labelled(tag: string, lines: seq<string>): (r: seq<string>)
    ensures |r| == |lines| && forall i :: 0 <= i < |lines| ==> r[i] == tag + lines[i]
  {
    if lines == [] then [] else [tag + lines[0]] + Labelled(tag, lines[1..])
  }

  /** The lines of the folded gists of one role, oldest gist first. */
  function GistTail(texts: seq<string>, roles: seq<string>, fold: seq<nat>, role: string, tag: string): (r: seq<string>)
    requires |texts| == |roles| && InRange(fold, |texts|)
  {
    if fold == [] then []
    else
      var i := fold[|fold| - 1];
      GistTail(texts, roles, fold[..|fold| - 1], role, tag)
      + (if roles[i] == role then Labelled(tag, LinesOf(SplitLines(texts[i]))) else [])
  }

  /** The folded facts of the user, or of everyone else, oldest first. */
  function FactTail(texts: seq<string>, roles: seq<string>, fold: seq<nat>, user: bool): (r: seq<string>)
    requires |texts| == |roles| && InRange(fold, |texts|)
  {
    if fold == [] then []
    else
      var i := fold[|fold| - 1];
      FactTail(texts, roles, fold[..|fold| - 1], user)
      + (if !IsGist(roles[i]) && (roles[i] == "user") == user then ["[" + roles[i] + "] " + texts[i]] else [])
  }

  function UserTail(texts: seq<string>, roles: seq<string>, fold: seq<nat>): (r: seq<string>)
    requires |texts| == |roles| && InRange(fold, |texts|)
  {
    GistTail(texts, roles, fold, GIST_ROLE, "[user] ") + FactTail(texts, roles, fold, true)
  }

  function OtherTail(texts: seq<string>, roles: seq<string>, fold: seq<nat>): (r: seq<string>)
    requires |texts| == |roles| && InRange(fold, |texts|)
  {
    GistTail(texts, roles, fold, GIST_OTHER_ROLE, "[assistant] ") + FactTail(texts, roles, fold, false)
  }

  /** `source` names every line of every folded gist of `role`, memory and line, in order. */
  ghost predicate LinesAt(texts: seq<string>, roles: seq<string>, fold: seq<nat>, role: string, source: seq<(nat, nat)>)
    requires |texts| == |roles|
  {
    && (forall k :: 0 <= k < |source| ==>
          && source[k].0 in fold && source[k].0 < |texts| && roles[source[k].0] == role
          && source[k].1 < |LinesOf(SplitLines(texts[source[k].0]))|)
    && (forall i: nat, l: nat :: i in fold && i < |texts| && roles[i] == role && l < |LinesOf(SplitLines(texts[i]))| ==>
          (i, l) in source)
    && (forall k, m :: 0 <= k < m < |source| ==>
          source[k].0 < source[m].0 || (source[k].0 == source[m].0 && source[k].1 < source[m].1))
  }

  /** `facts` are the folded memories of the user, or of everyone else, that are no gists, in order. */
  ghost predicate FactsAt(roles: seq<string>, fold: seq<nat>, user: bool, facts: seq<nat>)
  {
    && Rising(facts) && InRange(facts, |roles|)
    && forall i: nat :: i < |roles| ==>
         (i in facts <==> i in fold && roles[i] != "summary" && roles[i] != "summary-assistant" && (roles[i] == "user" <==> user))
  }

  /** `lines` are the labelled lines of the folded gists, one by one, and then the labelled folded facts. */
  ghost predicate ToldBy(texts: seq<string>, roles: seq<string>, fold: seq<nat>, user: bool, lines: seq<string>,
                         source: seq<(nat, nat)>, facts: seq<nat>)
    requires |texts| == |roles|
  {
    && LinesAt(texts, roles, fold, if user then "summary" else "summary-assistant", source)
    && FactsAt(roles, fold, user, facts) && |lines| == |source| + |facts|
    && (forall k :: 0 <= k < |source| ==>
          lines[k] == (if user then "[user] " else "[assistant] ") + LinesOf(SplitLines(texts[source[k].0]))[source[k].1])
    && (forall k :: 0 <= k < |facts| ==> lines[|source| + k] == "[" + roles[facts[k]] + "] " + texts[facts[k]])
  }

  /** Everything folded of the user, or of everyone else, is told: each gist line and each fact once, oldest first. */
  ghost predicate Told(texts: seq<string>, roles: seq<string>, fold: seq<nat>, user: bool, lines: seq<string>)
    requires |texts| == |roles|
  {
    exists source, facts :: ToldBy(texts, roles, fold, user, lines, source, facts)
  }

  /** The labelled lines of one gist behind those of the gists before it. */
  function LinesOfOne(i: nat, n: nat): (r: seq<(nat, nat)>)
    ensures |r| == n && forall l :: 0 <= l < n ==> r[l] == (i, l)
  {
    seq(n, l requires 0 <= l < n => (i, l))
  }

  lemma {:induction false} GistsTell(texts: seq<string>, roles: seq<string>, fold: seq<nat>, role: string, tag: string)
    returns (source: seq<(nat, nat)>)
    requires |texts| == |roles| && InRange(fold, |texts|) && Rising(fold)
    ensures LinesAt(texts, roles, fold, role, source)
    ensures var tail := GistTail(texts, roles, fold, role, tag);
            |tail| == |source|
            && forall k :: 0 <= k < |source| ==> tail[k] == tag + LinesOf(SplitLines(texts[source[k].0]))[source[k].1]
  {
    hide LinesOf, SplitLines, LinesAt;
    source := [];
    assert fold == [] ==> LinesAt(texts, roles, fold, role, []) by { NoLinesYet(texts, roles, role); }
    if fold != [] {
      var front, i := fold[..|fold| - 1], fold[|fold| - 1];
      assert fold == front + [i];
      var before := GistsTell(texts, roles, front, role, tag);
      MoreLines(texts, roles, front, i, role, before);
      source := before + if roles[i] == role then LinesOfOne(i, |LinesOf(SplitLines(texts[i]))|) else [];
    }
  }

  lemma {:induction false} NoLinesYet(texts: seq<string>, roles: seq<string>, role: string)
    requires |texts| == |roles|
    ensures LinesAt(texts, roles, [], role, [])
  {
  }

  lemma {:induction false} MoreLines(texts: seq<string>, roles: seq<string>, front: seq<nat>, i: nat, role: string,
                                     before: seq<(nat, nat)>)
    requires |texts| == |roles| && i < |texts| && LinesAt(texts, roles, front, role, before)
    requires forall j :: j in front ==> j < i
    ensures LinesAt(texts, roles, front + [i], role,
                    before + if roles[i] == role then LinesOfOne(i, |LinesOf(SplitLines(texts[i]))|) else [])
  {
    hide LinesOf, SplitLines;
    var own := if roles[i] == role then LinesOfOne(i, |LinesOf(SplitLines(texts[i]))|) else [];
    var source := before + own;
    forall k | 0 <= k < |before|
      ensures before[k].0 < i
    {
      assert before[k].0 in front;
    }
    forall j: nat, l: nat | j in front + [i] && j < |texts| && roles[j] == role && l < |LinesOf(SplitLines(texts[j]))|
      ensures (j, l) in source
    {
      if j == i {
        assert own[l] == (i, l);
      } else {
        assert (j, l) in before;
      }
    }
  }

  lemma {:induction false} FactsTell(texts: seq<string>, roles: seq<string>, fold: seq<nat>, user: bool) returns (facts: seq<nat>)
    requires |texts| == |roles| && InRange(fold, |texts|) && Rising(fold)
    ensures FactsAt(roles, fold, user, facts)
    ensures var tail := FactTail(texts, roles, fold, user);
            |tail| == |facts| && forall k :: 0 <= k < |facts| ==> tail[k] == "[" + roles[facts[k]] + "] " + texts[facts[k]]
  {
    facts := [];
    if fold != [] {
      var front, i := fold[..|fold| - 1], fold[|fold| - 1];
      assert fold == front + [i];
      var before := FactsTell(texts, roles, front, user);
      forall k | 0 <= k < |before|
        ensures before[k] < i
      {
        assert before[k] in before && before[k] in front;
      }
      facts := before + if !IsGist(roles[i]) && (roles[i] == "user") == user then [i] else [];
    }
  }

  lemma {:induction false} TailIsTold(texts: seq<string>, roles: seq<string>, fold: seq<nat>, user: bool)
    requires |texts| == |roles| && InRange(fold, |texts|) && Rising(fold)
    ensures Told(texts, roles, fold, user, if user then UserTail(texts, roles, fold) else OtherTail(texts, roles, fold))
  {
    hide LinesOf, SplitLines, LinesAt, FactsAt, GistTail, FactTail;
    var role, tag := if user then "summary" else "summary-assistant", if user then "[user] " else "[assistant] ";
    var source := GistsTell(texts, roles, fold, role, tag);
    var facts := FactsTell(texts, roles, fold, user);
    assert ToldBy(texts, roles, fold, user, if user then UserTail(texts, roles, fold) else OtherTail(texts, roles, fold),
                  source, facts);
  }

  /** The two passes over the folded memories. */
  method BuildTails(texts: seq<string>, roles: seq<string>, fold: seq<nat>)
    returns (userTail: seq<string>, otherTail: seq<string>)
    requires |texts| == |roles| && InRange(fold, |texts|)
    ensures userTail == UserTail(texts, roles, fold) && otherTail == OtherTail(texts, roles, fold)
    ensures Rising(fold) ==> Told(texts, roles, fold, true, userTail) && Told(texts, roles, fold, false, otherTail)
  {
    hide Told;
    userTail, otherTail := [], [];
    for k := 0 to |fold|
      invariant userTail == GistTail(texts, roles, fold[..k], GIST_ROLE, "[user] ")
      invariant otherTail == GistTail(texts, roles, fold[..k], GIST_OTHER_ROLE, "[assistant] ")
    {
      assert fold[..k + 1][..k] == fold[..k];
      var i := fold[k];
      if roles[i] == GIST_ROLE {
        var lines := GistLines(texts[i]);
        userTail := userTail + Labelled("[user] ", lines);
      } else if roles[i] == GIST_OTHER_ROLE {
        var lines := GistLines(texts[i]);
        otherTail := otherTail + Labelled("[assistant] ", lines);
      }
    }
    ghost var userGists, otherGists := userTail, otherTail;
    for k := 0 to |fold|
      invariant userTail == userGists + FactTail(texts, roles, fold[..k], true)
      invariant otherTail == otherGists + FactTail(texts, roles, fold[..k], false)
    {
      assert fold[..k + 1][..k] == fold[..k];
      var i := fold[k];
      if !IsGist(roles[i]) {
        var entry := "[" + roles[i] + "] " + texts[i];
        if roles[i] == "user" {
          userTail := userTail + [entry];
        } else {
          otherTail := otherTail + [entry];
        }
      }
    }
    assert fold[..|fold|] == fold;
    if Rising(fold) {
      TailIsTold(texts, roles, fold, true);
      TailIsTold(texts, roles, fold, false);
    }
  }

  // ----- sharing the gist limit --------------------------------------------------------

  function Limit(total: nat, parts: nat, position: nat): (n: nat)
    requires parts > 0
  {
    total / parts + (if position < total % parts then 1 else 0)
  }

  function LimitSum(total: nat, parts: nat, upto: nat): (n: nat)
    requires parts > 0
  {
    if upto == 0 then 0 else LimitSum(total, parts, upto - 1) + Limit(total, parts, upto - 1)
  }

  lemma {:induction false} LimitSumIs(total: nat, parts: nat, upto: nat)
    requires parts > 0
    ensures LimitSum(total, parts, upto)
            == upto * (total / parts) + (if upto < total % parts then upto else total % parts)
  {
    if upto > 0 {
      LimitSumIs(total, parts, upto - 1);
      var base := total / parts;
      assert upto * base == (upto - 1) * base + base;
    }
  }

  /** The limits are all positive and add up to exactly the gist share. */
  lemma {:induction false} LimitsShareExactly(total: nat, parts: nat)
    requires 0 < parts <= total
    ensures LimitSum(total, parts, parts) == total
    ensures forall k :: 0 <= k < parts ==> Limit(total, parts, k) >= 1
  {
    LimitSumIs(total, parts, parts);
    assert parts * (total / parts) + total % parts == total;
    assert total / parts >= 1;
  }

  // ----- chunks --------------------------------------------------------------------------

  datatype Chunk = Chunk(role: string, lines: seq<string>)

  /** The lines of the chunks of one role, in the order they are summarized. */
  function LinesFor(chunks: seq<Chunk>, role: string): (r: seq<string>)
  {
    if chunks == [] then []
    else LinesFor(chunks[..|chunks| - 1], role)
         + (if chunks[|chunks| - 1].role == role then chunks[|chunks| - 1].lines else [])
  }

  /** The chunks given to each role: user history in order, one kept for the others once there are four. */
  method PlanChunks(userTail: seq<string>, otherTail: seq<string>, chunkCount: nat) returns (chunks: seq<Chunk>)
    requires chunkCount >= 1
    ensures |chunks| <= chunkCount && (chunks == [] <==> userTail == [] && otherTail == [])
    ensures |chunks| == if userTail == [] then Fewer(chunkCount, |otherTail|)
                        else if otherTail != [] && chunkCount >= 4 then Fewer(chunkCount - 1, |userTail|) + 1
                        else Fewer(chunkCount, |userTail|)
    ensures forall k, m :: 0 <= k < m < |chunks| && chunks[m].role == GIST_ROLE ==> chunks[k].role == GIST_ROLE
    ensures forall k :: 0 <= k < |chunks| ==> IsGist(chunks[k].role) && chunks[k].lines != []
    ensures LinesFor(chunks, GIST_ROLE) == userTail
    ensures LinesFor(chunks, GIST_OTHER_ROLE)
            == if userTail == [] || chunkCount >= 4 then otherTail else []
  {
    hide LinesFor, IsGist, Flatten, ChunkBound;
    RolesDiffer();
    NoLines();
    var otherChunks := if otherTail != [] && chunkCount >= 4 then 1 else 0;
    var userChunks := if userTail != [] then chunkCount - otherChunks else 0;
    if userChunks == 0 && otherTail != [] {
      otherChunks := chunkCount;
    }
    chunks := [];
    if userChunks > 0 {
      var parts := PartitionByTokenWeight(userTail, userChunks);
      chunks := AddChunks(chunks, parts.value, GIST_ROLE);
    }
    if otherChunks > 0 {
      var parts := PartitionByTokenWeight(otherTail, otherChunks);
      chunks := AddChunks(chunks, parts.value, GIST_OTHER_ROLE);
    }
  }

  function Fewer(a: nat, b: nat): (r: nat)
    ensures r <= a && r <= b && (r == a || r == b)
  {
    if a < b then a else b
  }

  method AddChunks(chunks: seq<Chunk>, parts: seq<seq<string>>, role: string) returns (r: seq<Chunk>)
    requires IsGist(role) && forall c :: c in parts ==> c != []
    requires forall k :: 0 <= k < |chunks| ==> IsGist(chunks[k].role) && chunks[k].lines != []
    ensures |r| == |chunks| + |parts| && chunks <= r && forall k :: |chunks| <= k < |r| ==> r[k].role == role
    ensures forall k :: 0 <= k < |r| ==> IsGist(r[k].role) && r[k].lines != []
    ensures LinesFor(r, role) == LinesFor(chunks, role) + Flatten(parts)
    ensures forall other :: other != role ==> LinesFor(r, other) == LinesFor(chunks, other)
  {
    hide LinesFor, IsGist, Flatten;
    r := chunks;
    assert parts[..0] == [];
    FlattenOfNothing(LinesFor(chunks, role));
    for k := 0 to |parts|
      invariant |r| == |chunks| + k && chunks <= r && forall m :: |chunks| <= m < |r| ==> r[m].role == role
      invariant forall m :: 0 <= m < |r| ==> IsGist(r[m].role) && r[m].lines != []
      invariant LinesFor(r, role) == LinesFor(chunks, role) + Flatten(parts[..k])
      invariant forall other :: other != role ==> LinesFor(r, other) == LinesFor(chunks, other)
    {
      var c := Chunk(role, parts[k]);
      LinesForSnoc(r, c);
      FlattenSnoc(parts[..k], parts[k]);
      assert parts[..k + 1] == parts[..k] + [parts[k]];
      assert parts[k] in parts;
      r := r + [c];
    }
    assert parts[..|parts|] == parts;
  }

  lemma {:induction false} RolesDiffer()
    ensures GIST_ROLE != GIST_OTHER_ROLE && IsGist(GIST_ROLE) && IsGist(GIST_OTHER_ROLE)
  {
  }

  lemma {:induction false} NoLines()
    ensures LinesFor([], GIST_ROLE) == [] && LinesFor([], GIST_OTHER_ROLE) == []
  {
  }

  lemma {:induction false} LinesForSnoc(chunks: seq<Chunk>, c: Chunk)
    ensures forall role {:trigger LinesFor(chunks + [c], role)} ::
              LinesFor(chunks + [c], role) == LinesFor(chunks, role) + (if c.role == role then c.lines else [])
  {
    assert (chunks + [c])[..|chunks|] == chunks;
  }
}
