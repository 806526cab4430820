/**
  Vetting proposed supersessions with a chat model (tsm/verification.py `LLMVerifier`).
  The model is an arbitrary function that may fail; a reply is already split into its
  numbered lines, each with the verdict found on it, if any.
 */
module Verification {
  import opened Wrappers

  datatype Verdict = Replaces | Same | Keeps

  datatype Line = Line(number: int, verdict: Option<Verdict>)

  type Pair = (string, string)

  // ----- reading a reply -----------------------------------------------------------------

  /** The first of the first `n` lines that is about position `i` and holds a verdict. */
  function FirstVerdict(lines: seq<Line>, i: int, n: nat): (v: Option<Verdict>)
    requires n <= |lines|
  {
    if n == 0 then None
    else
      var v := FirstVerdict(lines, i, n - 1);
      if v.Some? then v
      else if lines[n - 1].number - 1 == i then lines[n - 1].verdict else None
  }

  /** What a reply of these lines says about position `i` of a batch. */
  function ReadAt(lines: seq<Line>, i: int): (v: Option<Verdict>)
  {
    FirstVerdict(lines, i, |lines|)
  }

  /** Line numbers count from one, and the first line with a verdict decides. */
  lemma {:induction false} ReadAtIff(lines: seq<Line>, i: int, n: nat, v: Verdict)
    requires n <= |lines|
    ensures FirstVerdict(lines, i, n) == Some(v) <==>
            exists k :: && 0 <= k < n && lines[k].number == i + 1 && lines[k].verdict == Some(v)
                        && forall j :: 0 <= j < k && lines[j].number == i + 1 ==> lines[j].verdict.None?
    ensures FirstVerdict(lines, i, n).None? <==>
            forall k :: 0 <= k < n && lines[k].number == i + 1 ==> lines[k].verdict.None?
  {
    if n > 0 {
      ReadAtIff(lines, i, n - 1, v);
      var before := FirstVerdict(lines, i, n - 1);
      if before.Some? && before.value != v {
        ReadAtIff(lines, i, n - 1, before.value);
      }
    }
  }

  predicate Mentions(found: seq<(nat, Verdict)>, i: int)
  {
    exists a :: 0 <= a < |found| && found[a].0 == i
  }

  lemma {:induction false} MentionsSnoc(found: seq<(nat, Verdict)>, x: (nat, Verdict), i: int)
    ensures Mentions(found + [x], i) <==> Mentions(found, i) || x.0 == i
  {
    var all := found + [x];
    assert all[|found|] == x;
    assert forall a :: 0 <= a < |found| ==> all[a] == found[a];
  }

  /** Distinct positions below `count`, each with its verdict, none left out. */
  ghost predicate Reads(found: seq<(nat, Verdict)>, lines: seq<Line>, count: nat, n: nat)
    requires n <= |lines|
  {
    && (forall a, b :: 0 <= a < b < |found| ==> found[a].0 != found[b].0)
    && (forall a :: 0 <= a < |found| ==> found[a].0 < count && FirstVerdict(lines, found[a].0, n) == Some(found[a].1))
    && (forall i: nat :: i < count && FirstVerdict(lines, i, n).Some? ==> Mentions(found, i))
  }

  /** `_read_verdicts`, in the order the verdicts were found. */
  method ReadVerdicts(lines: seq<Line>, count: nat) returns (found: seq<(nat, Verdict)>)
    ensures Reads(found, lines, count, |lines|)
  {
    found := [];
    for n := 0 to |lines|
      invariant Reads(found, lines, count, n)
    {
      var index := lines[n].number - 1;
      ReadOn(found, lines, count, n, n + 1);
      if 0 <= index < count && !Mentions(found, index) && lines[n].verdict.Some? {
        found := found + [(index, lines[n].verdict.value)];
      }
    }
  }

  lemma {:induction false} ReadOn(found: seq<(nat, Verdict)>, lines: seq<Line>, count: nat, n: nat, m: nat)
    requires m == n + 1 <= |lines| && Reads(found, lines, count, n)
    ensures var index := lines[n].number - 1;
            if 0 <= index < count && !Mentions(found, index) && lines[n].verdict.Some?
            then Reads(found + [(index, lines[n].verdict.value)], lines, count, m) else Reads(found, lines, count, m)
  {
    var index := lines[n].number - 1;
    forall i: int
      ensures FirstVerdict(lines, i, m) ==
              if FirstVerdict(lines, i, n).None? && i == index then lines[n].verdict else FirstVerdict(lines, i, n)
    {
    }
    if 0 <= index < count && !Mentions(found, index) && lines[n].verdict.Some? {
      var x: (nat, Verdict) := (index, lines[n].verdict.value);
      forall i: nat
        ensures Mentions(found + [x], i) <==> Mentions(found, i) || x.0 == i
      {
        MentionsSnoc(found, x, i);
      }
    }
  }

  // ----- asking about many pairs ---------------------------------------------------------------

  type Key = (string, string) -> string
  type Cache = map<string, Verdict>

  /** The `b`-th request's reply lines, or nothing when the request failed for good. */
  type Model = (nat, seq<Pair>) -> Option<seq<Line>>

  function KeyOf(key: Key, p: Pair): (k: string)
  {
    key(p.0, p.1)
  }

  /** Positions below `n` that the cache does not answer. */
  function Todo(key: Key, cache: Cache, pairs: seq<Pair>, n: nat): (r: seq<nat>)
    requires n <= |pairs|
    ensures forall i: nat :: i in r <==> i < n && KeyOf(key, pairs[i]) !in cache
    ensures forall a, b :: 0 <= a < b < |r| ==> r[a] < r[b]
  {
    if n == 0 then []
    else
      var front := Todo(key, cache, pairs, n - 1);
      assert forall k :: 0 <= k < |front| ==> front[k] in front;
      if KeyOf(key, pairs[n - 1]) in cache then front else front + [n - 1]
  }

  function Unanswered(key: Key, cache: Cache, pairs: seq<Pair>): (r: seq<nat>)
  {
    Todo(key, cache, pairs, |pairs|)
  }

  function PairsAt(pairs: seq<Pair>, chunk: seq<nat>): (r: seq<Pair>)
    requires forall k :: 0 <= k < |chunk| ==> chunk[k] < |pairs|
    ensures |r| == |chunk| && forall k :: 0 <= k < |chunk| ==> r[k] == pairs[chunk[k]]
  {
    seq(|chunk|, k requires 0 <= k < |chunk| => pairs[chunk[k]])
  }

  function MinOf(a: nat, b: nat): (r: nat)
  {
    if a < b then a else b
  }

  /** The unanswered positions sent in the `b`-th request. */
  function ChunkAt(todo: seq<nat>, size: nat, b: nat): (r: seq<nat>)
  {
    todo[MinOf(b * size, |todo|)..MinOf(b * size + size, |todo|)]
  }

  /** What the model says about the `p`-th unanswered pair: its own line of its own request. */
  function Answer(pairs: seq<Pair>, todo: seq<nat>, size: nat, ask: Model, p: nat): (v: Option<Verdict>)
    requires size >= 1 && forall k :: 0 <= k < |todo| ==> todo[k] < |pairs|
  {
    var reply := ask(p / size, PairsAt(pairs, ChunkAt(todo, size, p / size)));
    if reply.None? then None else ReadAt(reply.value, p % size)
  }

  /** The cache grew only by verdicts given in this call, and by all of them. */
  ghost predicate CacheFrom(key: Key, pairs: seq<Pair>, out: seq<Option<Verdict>>, before: Cache, cache: Cache)
    requires |out| == |pairs|
  {
    && (forall k :: k in before ==> k in cache && cache[k] == before[k])
    && (forall k :: k in cache && k !in before ==>
          exists i :: 0 <= i < |pairs| && KeyOf(key, pairs[i]) == k && out[i] == Some(cache[k]))
    && (forall i :: 0 <= i < |pairs| && out[i].Some? ==> KeyOf(key, pairs[i]) in cache)
  }

  lemma {:induction false} CacheStep(key: Key, pairs: seq<Pair>, out: seq<Option<Verdict>>, before: Cache, cache: Cache,
                                     index: nat, v: Verdict)
    requires |out| == |pairs| && index < |pairs| && CacheFrom(key, pairs, out, before, cache)
    requires KeyOf(key, pairs[index]) !in before
    ensures CacheFrom(key, pairs, out[index := Some(v)], before, cache[KeyOf(key, pairs[index]) := v])
  {
    hide KeyOf;
    var k0 := KeyOf(key, pairs[index]);
    var out2, cache2 := out[index := Some(v)], cache[k0 := v];
    forall k | k in cache2 && k !in before
      ensures exists i :: 0 <= i < |pairs| && KeyOf(key, pairs[i]) == k && out2[i] == Some(cache2[k])
    {
      if k == k0 {
        assert out2[index] == Some(cache2[k]);
      } else {
        var i :| 0 <= i < |pairs| && KeyOf(key, pairs[i]) == k && out[i] == Some(cache[k]);
        assert out2[i] == Some(cache2[k]);
      }
    }
  }

  /** Writing one reply's verdicts where they belong. */
  method RecordVerdicts(key: Key, pairs: seq<Pair>, out0: seq<Option<Verdict>>, ghost before: Cache, cache0: Cache,
                        chunk: seq<nat>, lines: seq<Line>)
    returns (out: seq<Option<Verdict>>, cache: Cache)
    requires |out0| == |pairs| && (forall k :: 0 <= k < |chunk| ==> chunk[k] < |pairs|)
    requires forall a, b :: 0 <= a < b < |chunk| ==> chunk[a] < chunk[b]
    requires forall k :: 0 <= k < |chunk| ==> KeyOf(key, pairs[chunk[k]]) !in before && out0[chunk[k]].None?
    requires CacheFrom(key, pairs, out0, before, cache0)
    ensures |out| == |pairs| && CacheFrom(key, pairs, out, before, cache)
    ensures forall i: nat :: i < |pairs| && i !in chunk ==> out[i] == out0[i]
    ensures forall q :: 0 <= q < |chunk| ==> out[chunk[q]] == ReadAt(lines, q)
  {
    hide CacheFrom, KeyOf, FirstVerdict;
    out, cache := out0, cache0;
    var found := ReadVerdicts(lines, |chunk|);
    for a := 0 to |found|
      invariant |out| == |pairs| && CacheFrom(key, pairs, out, before, cache)
      invariant forall i: nat :: i < |pairs| && i !in chunk ==> out[i] == out0[i]
      invariant forall b :: 0 <= b < a ==> out[chunk[found[b].0]] == Some(found[b].1)
      invariant forall q :: 0 <= q < |chunk| && !Mentions(found[..a], q) ==> out[chunk[q]].None?
    {
      var index := chunk[found[a].0];
      CacheStep(key, pairs, out, before, cache, index, found[a].1);
      assert found[..a + 1] == found[..a] + [found[a]];
      forall q: int
        ensures Mentions(found[..a + 1], q) <==> Mentions(found[..a], q) || found[a].0 == q
      {
        MentionsSnoc(found[..a], found[a], q);
      }
      out := out[index := Some(found[a].1)];
      cache := cache[KeyOf(key, pairs[index]) := found[a].1];
    }
    assert found[..|found|] == found;
  }

  /** What the cache already says. */
  function Cached(key: Key, cache: Cache, pairs: seq<Pair>): (r: seq<Option<Verdict>>)
    ensures |r| == |pairs|
    ensures forall i :: 0 <= i < |pairs| ==>
              r[i] == if KeyOf(key, pairs[i]) in cache then Some(cache[KeyOf(key, pairs[i])]) else None
  {
    seq(|pairs|, i requires 0 <= i < |pairs| =>
      if KeyOf(key, pairs[i]) in cache then Some(cache[KeyOf(key, pairs[i])]) else None)
  }

  /** Every pair's verdict: the cached one, or the model's own answer about that very pair. */
  ghost predicate Judged(key: Key, before: Cache, pairs: seq<Pair>, size: nat, ask: Model, out: seq<Option<Verdict>>)
    requires size >= 1
  {
    var todo := Unanswered(key, before, pairs);
    && |out| == |pairs|
    && (forall p :: 0 <= p < |todo| ==> todo[p] in todo)
    && (forall i :: 0 <= i < |pairs| && KeyOf(key, pairs[i]) in before ==> out[i] == Some(before[KeyOf(key, pairs[i])]))
    && (forall p :: 0 <= p < |todo| ==> out[todo[p]] == Answer(pairs, todo, size, ask, p))
  }

  /** Every answered request says of each of its positions what is true of the pair sent there. */
  ghost predicate Truthful(ask: Model, truth: Pair -> Option<Verdict>)
  {
    forall b, sent, k :: 0 <= k < |sent| && ask(b, sent).Some? ==> ReadAt(ask(b, sent).value, k) == truth(sent[k])
  }

  /** Some request that held this pair failed. */
  ghost predicate Unasked(ask: Model, p: Pair)
  {
    exists b, sent :: p in sent && ask(b, sent).None?
  }

  /**
    Verdicts stay with their pairs: with a truthful model every pair the cache does not know
    gets what is true of it, and the cache learns it under that pair's key, unless its
    request failed.
   */
  lemma {:induction false} JudgedTruly(key: Key, before: Cache, pairs: seq<Pair>, size: nat, ask: Model, out: seq<Option<Verdict>>,
                                       cache: Cache, truth: Pair -> Option<Verdict>, i: nat)
    requires size >= 1 && Judged(key, before, pairs, size, ask, out) && CacheFrom(key, pairs, out, before, cache)
    requires Truthful(ask, truth) && i < |pairs| && key(pairs[i].0, pairs[i].1) !in before
    ensures out[i] == truth(pairs[i]) || (out[i].None? && Unasked(ask, pairs[i]))
    ensures out[i].Some? ==> key(pairs[i].0, pairs[i].1) in cache
  {
    hide ReadAt, Todo, PairsAt, ChunkAt, Truthful, Unasked, Answer;
    var todo := Unanswered(key, before, pairs);
    assert i in todo;
    var p :| 0 <= p < |todo| && todo[p] == i;
    TrueAnswer(pairs, todo, size, ask, truth, p);
  }

  lemma {:induction false} TrueAnswer(pairs: seq<Pair>, todo: seq<nat>, size: nat, ask: Model, truth: Pair -> Option<Verdict>, p: nat)
    requires size >= 1 && p < |todo| && (forall k :: 0 <= k < |todo| ==> todo[k] < |pairs|) && Truthful(ask, truth)
    ensures var v := Answer(pairs, todo, size, ask, p);
            v == truth(pairs[todo[p]]) || (v.None? && Unasked(ask, pairs[todo[p]]))
  {
    hide ReadAt, PairsAt, ChunkAt;
    ChunkHolds(todo, size, p);
    var sent := PairsAt(pairs, ChunkAt(todo, size, p / size));
    assert sent[p % size] == pairs[todo[p]];
    if ask(p / size, sent).None? {
      assert pairs[todo[p]] in sent;
    }
  }

  /** With keys that tell pairs apart, the cache then holds nothing but truths, old entries aside. */
  lemma {:induction false} CachedTruly(key: Key, before: Cache, pairs: seq<Pair>, size: nat, ask: Model, out: seq<Option<Verdict>>,
                                       cache: Cache, truth: Pair -> Option<Verdict>, p: Pair)
    requires size >= 1 && Judged(key, before, pairs, size, ask, out) && CacheFrom(key, pairs, out, before, cache)
    requires Truthful(ask, truth) && key(p.0, p.1) in cache && key(p.0, p.1) !in before
    requires forall q :: q in pairs && key(q.0, q.1) == key(p.0, p.1) ==> q == p
    ensures truth(p) == Some(cache[key(p.0, p.1)])
  {
    hide Judged, Truthful;
    JudgedLength(key, before, pairs, size, ask, out);
    var k := key(p.0, p.1);
    var i :| 0 <= i < |pairs| && KeyOf(key, pairs[i]) == k && out[i] == Some(cache[k]);
    JudgedTruly(key, before, pairs, size, ask, out, cache, truth, i);
  }

  /** The `p`-th unanswered pair is at place `p % size` of request `p / size`. */
  lemma {:induction false} ChunkHolds(todo: seq<nat>, size: nat, p: nat)
    requires size >= 1 && p < |todo|
    ensures var chunk := ChunkAt(todo, size, p / size);
            && p % size < |chunk| && chunk[p % size] == todo[p]
            && forall k :: 0 <= k < |chunk| ==> chunk[k] in todo
  {
    var b, q := p / size, p % size;
    var chunk := ChunkAt(todo, size, b);
    assert forall k :: 0 <= k < |chunk| ==> chunk[k] == todo[MinOf(b * size, |todo|) + k];
    Quotient(p, size);
    assert b * size + q == p;
  }

  lemma {:induction false} Quotient(p: nat, size: nat)
    requires size >= 1
    ensures (p / size) * size + p % size == p && p % size < size
  {
  }

  lemma {:induction false} ChunkPlace(size: nat, b: nat, q: nat)
    requires q < size
    ensures (b * size + q) / size == b && (b * size + q) % size == q
  {
    DivModOf(b * size + q, size, b, q);
  }

  lemma {:induction false} DivModOf(x: nat, d: nat, b: nat, q: nat)
    requires d > 0 && q < d && x == b * d + q
    ensures x / d == b && x % d == q
  {
    var k, r := x / d, x % d;
    assert x == d * k + r;
    Distribute(d, k, b);
    SmallMultiple(d, k - b);
  }

  lemma {:induction false} Distribute(d: int, k: int, b: int)
    ensures d * (k - b) == d * k - b * d
  {
  }

  lemma {:induction false} SmallMultiple(d: int, k: int)
    requires -d < d * k < d
    ensures k == 0
  {
  }

  class Verifier {
    const key: Key
    const accept: set<Verdict>
    const batchSize: nat
    var cache: Cache

    /** A batch size below one is taken as one. */
    constructor (key: Key, accept: set<Verdict>, batchSize: int, cache: Cache)
      ensures this.key == key && this.accept == accept && this.cache == cache
      ensures this.batchSize >= 1 && (batchSize >= 1 ==> this.batchSize == batchSize)
    {
      this.key, this.accept, this.cache := key, accept, cache;
      this.batchSize := if batchSize < 1 then 1 else batchSize;
    }

    method Judge(pairs: seq<Pair>, ask: Model) returns (out: seq<Option<Verdict>>)
      requires batchSize >= 1
      modifies this`cache
      ensures Judged(key, old(cache), pairs, batchSize, ask, out)
      ensures CacheFrom(key, pairs, out, old(cache), cache)
    {
      hide KeyOf, ReadAt, Unanswered, CacheFrom, Asked, TodoOk, Answer, Judged, Cached, PairsAt, StartsAt, Replied;
      ghost var before := cache;
      out := Cached(key, cache, pairs);
      CachedIsFrom(key, cache, pairs);
      var todo := Unanswered(key, cache, pairs);
      AskedNone(key, cache, pairs, batchSize, ask);
      var b, start := 0, 0;
      FirstStart(batchSize);
      while start < |todo|
        invariant StartsAt(b, batchSize, start) && |out| == |pairs|
        invariant CacheFrom(key, pairs, out, before, cache)
        invariant Asked(key, before, pairs, todo, batchSize, ask, start, out)
        decreases |todo| - start
      {
        ghost var earlier := out;
        var chunk := todo[start..MinOf(start + batchSize, |todo|)];
        ChunkIs(key, before, pairs, todo, batchSize, ask, start, out);
        var reply := ask(b, PairsAt(pairs, chunk));
        if reply.Some? {
          out, cache := RecordVerdicts(key, pairs, out, before, cache, chunk, reply.value);
        }
        ReplyIs(pairs, chunk, ask, b, earlier, out);
        AskedOn(key, before, pairs, todo, batchSize, ask, b, start, chunk, earlier, out);
        NextStart(b, batchSize, start);
        b, start := b + 1, start + batchSize;
      }
      AskedAll(key, before, pairs, todo, batchSize, ask, start, out);
    }

    /**
      `verify`: proposals without two nonempty texts are dropped, the rest are judged, and
      exactly the winners are returned. Failed requests leave their pairs uncommitted.
     */
    method Verify(proposed: seq<Row>, text: map<string, string>, ask: Model)
      returns (accepted: seq<Triple>, ghost verdicts: seq<Option<Verdict>>)
      requires batchSize >= 1
      modifies this`cache
      ensures var rows := Usable(proposed, text, |proposed|);
              && Judged(key, old(cache), PairsOf(rows, text), batchSize, ask, verdicts)
              && CacheFrom(key, PairsOf(rows, text), verdicts, old(cache), cache)
              && (forall i: nat :: i < |rows| && Wins(rows, verdicts, accept, i) ==> TripleOf(rows[i]) in accepted)
              && (forall t :: t in accepted ==> exists i: nat :: i < |rows| && Wins(rows, verdicts, accept, i) && t == TripleOf(rows[i]))
      ensures forall a, b :: 0 <= a < b < |accepted| ==> accepted[a].older != accepted[b].older
    {
      hide Wins, Usable, Judged, CacheFrom, Accepted, Better;
      var rows := Usable(proposed, text, |proposed|);
      var pairs := PairsOf(rows, text);
      var out := Judge(pairs, ask);
      JudgedLength(key, old(cache), pairs, batchSize, ask, out);
      verdicts := out;
      var picks;
      accepted, picks := Choose(rows, out, accept);
    }
  }

  /** Proposals whose memories both still have a text. */
  function Usable(proposed: seq<Row>, text: map<string, string>, n: nat): (r: seq<Row>)
    requires n <= |proposed|
    ensures forall x :: x in r <==> x in proposed[..n] && HasText(text, x.older) && HasText(text, x.newer)
    ensures forall k :: 0 <= k < |r| ==> HasText(text, r[k].older) && HasText(text, r[k].newer)
  {
    if n == 0 then []
    else
      assert proposed[..n] == proposed[..n - 1] + [proposed[n - 1]];
      var front, x := Usable(proposed, text, n - 1), proposed[n - 1];
      if HasText(text, x.older) && HasText(text, x.newer) then front + [x] else front
  }

  /** `rows` are the proposals at `at`: exactly those among the first `n` with two texts, in order. */
  ghost predicate UsableBy(proposed: seq<Row>, text: map<string, string>, n: nat, rows: seq<Row>, at: seq<nat>)
    requires n <= |proposed|
  {
    && |at| == |rows| && (forall k :: 0 <= k < |at| ==> at[k] < n && rows[k] == proposed[at[k]])
    && (forall k, l :: 0 <= k < l < |at| ==> at[k] < at[l])
    && (forall i: nat :: i < n ==> (i in at <==> HasText(text, proposed[i].older) && HasText(text, proposed[i].newer)))
  }

  /** Which proposals are judged, by position. */
  lemma {:induction false} UsableAt(proposed: seq<Row>, text: map<string, string>, n: nat) returns (at: seq<nat>)
    requires n <= |proposed|
    ensures UsableBy(proposed, text, n, Usable(proposed, text, n), at)
  {
    hide HasText, Usable, UsableBy;
    at := [];
    UsableStep(proposed, text, n);
    if n == 0 {
      NoneUsable(proposed, text);
    } else {
      at := UsableAt(proposed, text, n - 1);
      UsableMore(proposed, text, n - 1, Usable(proposed, text, n - 1), at);
      if HasText(text, proposed[n - 1].older) && HasText(text, proposed[n - 1].newer) {
        at := at + [n - 1];
      } else {
        NoMoreRows(Usable(proposed, text, n - 1));
      }
    }
  }

  lemma {:induction false} NoMoreRows(rows: seq<Row>)
    ensures rows + [] == rows
  {
  }

  lemma {:induction false} NoneUsable(proposed: seq<Row>, text: map<string, string>)
    ensures UsableBy(proposed, text, 0, [], [])
  {
  }

  lemma {:induction false} UsableMore(proposed: seq<Row>, text: map<string, string>, n: nat, rows: seq<Row>, at: seq<nat>)
    requires n < |proposed| && UsableBy(proposed, text, n, rows, at)
    ensures if HasText(text, proposed[n].older) && HasText(text, proposed[n].newer)
            then UsableBy(proposed, text, n + 1, rows + [proposed[n]], at + [n]) else UsableBy(proposed, text, n + 1, rows, at)
  {
    hide HasText;
    assert forall k :: 0 <= k < |at| ==> at[k] in at;
  }

  lemma {:induction false} UsableStep(proposed: seq<Row>, text: map<string, string>, n: nat)
    requires n <= |proposed|
    ensures n == 0 ==> Usable(proposed, text, n) == []
    ensures n > 0 ==> var x := proposed[n - 1];
              Usable(proposed, text, n)
              == Usable(proposed, text, n - 1) + if HasText(text, x.older) && HasText(text, x.newer) then [x] else []
  {
    hide HasText;
  }

  predicate HasText(text: map<string, string>, id: string)
  {
    id in text && text[id] != ""
  }

  /** An unknown memory has no text, and neither has one whose text is empty. */
  lemma {:induction false} HasTextIff(text: map<string, string>, id: string, t: string)
    ensures !HasText(text - {id}, id) && (HasText(text[id := t], id) <==> |t| > 0)
  {
  }

  function PairsOf(rows: seq<Row>, text: map<string, string>): (r: seq<Pair>)
    requires forall k :: 0 <= k < |rows| ==> HasText(text, rows[k].older) && HasText(text, rows[k].newer)
    ensures |r| == |rows|
    ensures forall k :: 0 <= k < |rows| ==>
              HasText(text, rows[k].older) && HasText(text, rows[k].newer) && r[k] == (text[rows[k].older], text[rows[k].newer])
  {
    seq(|rows|, k requires 0 <= k < |rows| =>
      assert HasText(text, rows[k].older) && HasText(text, rows[k].newer);
      (text[rows[k].older], text[rows[k].newer]))
  }

  lemma {:induction false} JudgedLength(key: Key, before: Cache, pairs: seq<Pair>, size: nat, ask: Model, out: seq<Option<Verdict>>)
    requires size >= 1 && Judged(key, before, pairs, size, ask, out)
    ensures |out| == |pairs|
  {
  }

  ghost predicate TodoOk(key: Key, before: Cache, pairs: seq<Pair>, todo: seq<nat>)
  {
    && (forall p :: 0 <= p < |todo| ==> todo[p] < |pairs| && KeyOf(key, pairs[todo[p]]) !in before)
    && (forall a, b :: 0 <= a < b < |todo| ==> todo[a] < todo[b])
  }

  /** The first `start` unanswered pairs have been asked about, the others have not. */
  ghost predicate Asked(key: Key, before: Cache, pairs: seq<Pair>, todo: seq<nat>, size: nat, ask: Model, start: nat,
                        out: seq<Option<Verdict>>)
  {
    && size >= 1 && |out| == |pairs| && TodoOk(key, before, pairs, todo)
    && (forall i :: 0 <= i < |pairs| && KeyOf(key, pairs[i]) in before ==> out[i] == Some(before[KeyOf(key, pairs[i])]))
    && (forall p :: start <= p < |todo| ==> out[todo[p]].None?)
    && (forall p :: 0 <= p < start && p < |todo| ==> out[todo[p]] == Answer(pairs, todo, size, ask, p))
  }

  lemma {:induction false} AskedNone(key: Key, before: Cache, pairs: seq<Pair>, size: nat, ask: Model)
    requires size >= 1
    ensures Asked(key, before, pairs, Unanswered(key, before, pairs), size, ask, 0, Cached(key, before, pairs))
  {
    hide KeyOf, Answer, Todo;
    var todo := Unanswered(key, before, pairs);
    TodoIsOk(key, before, pairs, todo);
  }

  lemma {:induction false} TodoIsOk(key: Key, before: Cache, pairs: seq<Pair>, todo: seq<nat>)
    requires forall i: nat :: i in todo <==> i < |pairs| && KeyOf(key, pairs[i]) !in before
    requires forall a, b :: 0 <= a < b < |todo| ==> todo[a] < todo[b]
    ensures TodoOk(key, before, pairs, todo)
  {
    hide KeyOf;
    assert forall p :: 0 <= p < |todo| ==> todo[p] in todo;
  }

  lemma {:induction false} ChunkIs(key: Key, before: Cache, pairs: seq<Pair>, todo: seq<nat>, size: nat, ask: Model, start: nat,
                                   out: seq<Option<Verdict>>)
    requires Asked(key, before, pairs, todo, size, ask, start, out) && start < |todo|
    ensures var chunk := todo[start..MinOf(start + size, |todo|)];
            && (forall k :: 0 <= k < |chunk| ==>
                  chunk[k] < |pairs| && KeyOf(key, pairs[chunk[k]]) !in before && out[chunk[k]].None?)
            && (forall a, b :: 0 <= a < b < |chunk| ==> chunk[a] < chunk[b])
  {
    hide KeyOf, Answer;
    var chunk := todo[start..MinOf(start + size, |todo|)];
    assert forall k :: 0 <= k < |chunk| ==> chunk[k] == todo[start + k];
  }

  /** Request `b` starts at unanswered pair `start`. */
  ghost predicate StartsAt(b: nat, size: nat, start: nat)
  {
    start == b * size
  }

  lemma {:induction false} FirstStart(size: nat)
    ensures StartsAt(0, size, 0)
  {
  }

  lemma {:induction false} NextStart(b: nat, size: nat, start: nat)
    requires StartsAt(b, size, start)
    ensures StartsAt(b + 1, size, start + size)
  {
  }

  /** `out` differs from `earlier` only by the reply to request `b`, read line by line. */
  ghost predicate Replied(pairs: seq<Pair>, chunk: seq<nat>, ask: Model, b: nat, earlier: seq<Option<Verdict>>,
                          out: seq<Option<Verdict>>)
  {
    && |earlier| == |out| == |pairs| && (forall k :: 0 <= k < |chunk| ==> chunk[k] < |pairs|)
    && (forall i: nat :: i < |pairs| && i !in chunk ==> out[i] == earlier[i])
    && var reply := ask(b, PairsAt(pairs, chunk));
       forall q :: 0 <= q < |chunk| ==> out[chunk[q]] == if reply.None? then None else ReadAt(reply.value, q)
  }

  lemma {:induction false} ReplyIs(pairs: seq<Pair>, chunk: seq<nat>, ask: Model, b: nat, earlier: seq<Option<Verdict>>,
                                   out: seq<Option<Verdict>>)
    requires |earlier| == |out| == |pairs| && (forall k :: 0 <= k < |chunk| ==> chunk[k] < |pairs| && earlier[chunk[k]].None?)
    requires var reply := ask(b, PairsAt(pairs, chunk));
             if reply.None? then out == earlier
             else (forall i: nat :: i < |pairs| && i !in chunk ==> out[i] == earlier[i])
                  && forall q :: 0 <= q < |chunk| ==> out[chunk[q]] == ReadAt(reply.value, q)
    ensures Replied(pairs, chunk, ask, b, earlier, out)
  {
    hide ReadAt, PairsAt;
  }

  /** A request answers for its own pairs and touches no others. */
  lemma {:induction false} AskedOn(key: Key, before: Cache, pairs: seq<Pair>, todo: seq<nat>, size: nat, ask: Model, b: nat,
                                   start: nat, chunk: seq<nat>, earlier: seq<Option<Verdict>>, out: seq<Option<Verdict>>)
    requires Asked(key, before, pairs, todo, size, ask, start, earlier) && StartsAt(b, size, start) && start < |todo|
    requires chunk == todo[start..MinOf(start + size, |todo|)] && Replied(pairs, chunk, ask, b, earlier, out)
    ensures Asked(key, before, pairs, todo, size, ask, start + size, out)
  {
    hide KeyOf, ReadAt, Answer, StartsAt, PairsAt;
    var end := MinOf(start + size, |todo|);
    forall p | start <= p < end
      ensures out[todo[p]] == Answer(pairs, todo, size, ask, p)
    {
      AnswerIs(pairs, todo, size, ask, b, start, p);
      assert chunk[p - start] == todo[p];
    }
    forall p: nat | p < |todo| && !(start <= p < end)
      ensures out[todo[p]] == earlier[todo[p]]
    {
      NotInChunk(todo, start, end, p);
    }
    forall i: nat | i < |pairs| && KeyOf(key, pairs[i]) in before
      ensures out[i] == earlier[i]
    {
      assert i !in chunk;
    }
  }

  /** The `p`-th unanswered pair is line `p - start` of the request that starts at `start`. */
  lemma {:induction false} AnswerIs(pairs: seq<Pair>, todo: seq<nat>, size: nat, ask: Model, b: nat, start: nat, p: nat)
    requires size >= 1 && (forall k :: 0 <= k < |todo| ==> todo[k] < |pairs|)
    requires StartsAt(b, size, start) && start <= p < start + size && p < |todo|
    ensures var reply := ask(b, PairsAt(pairs, todo[start..MinOf(start + size, |todo|)]));
            Answer(pairs, todo, size, ask, p) == if reply.None? then None else ReadAt(reply.value, p - start)
  {
    hide ReadAt, PairsAt;
    ChunkPlace(size, b, p - start);
  }

  lemma {:induction false} AskedAll(key: Key, before: Cache, pairs: seq<Pair>, todo: seq<nat>, size: nat, ask: Model, start: nat,
                                    out: seq<Option<Verdict>>)
    requires todo == Unanswered(key, before, pairs) && start >= |todo|
    requires Asked(key, before, pairs, todo, size, ask, start, out)
    ensures Judged(key, before, pairs, size, ask, out)
  {
    hide KeyOf, Answer;
    assert forall p :: 0 <= p < |todo| ==> todo[p] in todo;
  }

  lemma {:induction false} CachedIsFrom(key: Key, cache: Cache, pairs: seq<Pair>)
    ensures CacheFrom(key, pairs, Cached(key, cache, pairs), cache, cache)
  {
  }

  lemma {:induction false} NotInChunk(todo: seq<nat>, lo: nat, hi: nat, p: nat)
    requires lo <= hi <= |todo| && p < |todo| && !(lo <= p < hi)
    requires forall a, b :: 0 <= a < b < |todo| ==> todo[a] < todo[b]
    ensures todo[p] !in todo[lo..hi]
  {
  }

  // ----- choosing what to commit ---------------------------------------------------------------

  datatype Row = Row(older: string, newer: string, kind: string, cosine: real)
  datatype Triple = Triple(older: string, newer: string, kind: string)

  function TripleOf(r: Row): (t: Triple)
  {
    Triple(r.older, r.newer, r.kind)
  }

  /** Row `a` is tried before row `b`: closer, or as close and proposed earlier. */
  predicate Better(rows: seq<Row>, a: nat, b: nat)
    requires a < |rows| && b < |rows|
  {
    rows[a].cosine > rows[b].cosine || (rows[a].cosine == rows[b].cosine && a < b)
  }

  ghost predicate Ordered(rows: seq<Row>, s: seq<nat>, n: nat)
  {
    n <= |rows| && (forall i: nat :: i in s <==> i < n) && Sorts(rows, s, n)
  }

  ghost predicate Sorts(rows: seq<Row>, s: seq<nat>, n: nat)
    requires n <= |rows|
  {
    && (forall k :: 0 <= k < |s| ==> s[k] < n)
    && forall a, b :: 0 <= a < b < |s| ==> Better(rows, s[a], s[b])
  }

  /** Insertion that keeps the order stable. */
  function Place(rows: seq<Row>, s: seq<nat>, i: nat): (r: seq<nat>)
    requires i < |rows| && forall k :: 0 <= k < |s| ==> s[k] < |rows|
    ensures |r| == |s| + 1 && (forall j: nat :: j in r <==> j == i || j in s)
  {
    if s == [] then [i]
    else
      var front, last := s[..|s| - 1], s[|s| - 1];
      assert s == front + [last];
      if rows[last].cosine >= rows[i].cosine then s + [i] else Place(rows, front, i) + [last]
  }

  lemma {:induction false} PlaceSorts(rows: seq<Row>, s: seq<nat>, i: nat)
    requires i < |rows| && Sorts(rows, s, i)
    ensures Sorts(rows, Place(rows, s, i), i + 1)
  {
    if s != [] {
      var front, last := s[..|s| - 1], s[|s| - 1];
      if rows[last].cosine >= rows[i].cosine {
        assert forall k :: 0 <= k < |s| ==> s[k] == last || Better(rows, s[k], last);
      } else {
        PlaceSorts(rows, front, i);
        var p := Place(rows, front, i);
        forall k | 0 <= k < |p|
          ensures Better(rows, p[k], last)
        {
          assert p[k] in p;
          if p[k] != i {
            var m :| 0 <= m < |front| && front[m] == p[k];
            assert Better(rows, s[m], last);
          }
        }
      }
    }
  }

  /** `sorted(range(n), key=-cosine)`. */
  method Sorted(rows: seq<Row>) returns (order: seq<nat>)
    ensures Ordered(rows, order, |rows|)
  {
    order := [];
    for n := 0 to |rows|
      invariant Ordered(rows, order, n)
    {
      PlaceSorts(rows, order, n);
      order := Place(rows, order, n);
    }
  }

  predicate Accepted(verdicts: seq<Option<Verdict>>, accept: set<Verdict>, i: nat)
    requires i < |verdicts|
  {
    verdicts[i].Some? && verdicts[i].value in accept
  }

  /** Row `i` is accepted, and is the best accepted row for its older memory. */
  ghost predicate Wins(rows: seq<Row>, verdicts: seq<Option<Verdict>>, accept: set<Verdict>, i: nat)
    requires |rows| == |verdicts| && i < |rows|
  {
    && Accepted(verdicts, accept, i)
    && forall j: nat :: j < |rows| && j != i && Accepted(verdicts, accept, j) && rows[j].older == rows[i].older ==>
         Better(rows, i, j)
  }

  /** A winning row has an accepted verdict, and every other such row of its older memory is less close, or as close and later. */
  lemma {:induction false} WinsIff(rows: seq<Row>, verdicts: seq<Option<Verdict>>, accept: set<Verdict>, i: nat)
    requires |rows| == |verdicts| && i < |rows|
    ensures Wins(rows, verdicts, accept, i) <==>
            && (exists v :: v in accept && verdicts[i] == Some(v))
            && forall j: nat, v :: j < |rows| && j != i && v in accept && verdicts[j] == Some(v) && rows[j].older == rows[i].older ==>
                 rows[j].cosine < rows[i].cosine || (rows[j].cosine == rows[i].cosine && i < j)
  {
    if Wins(rows, verdicts, accept, i) {
      assert verdicts[i] == Some(verdicts[i].value);
      forall j: nat, v | j < |rows| && j != i && v in accept && verdicts[j] == Some(v) && rows[j].older == rows[i].older
        ensures rows[j].cosine < rows[i].cosine || (rows[j].cosine == rows[i].cosine && i < j)
      {
        assert Accepted(verdicts, accept, j);
      }
    }
  }

  /** The older memories of the accepted rows among the first `n` tried. */
  function Superseded(rows: seq<Row>, verdicts: seq<Option<Verdict>>, accept: set<Verdict>, order: seq<nat>, n: nat): (r: set<string>)
    requires |rows| == |verdicts| && n <= |order| && forall k :: 0 <= k < |order| ==> order[k] < |rows|
  {
    if n == 0 then {}
    else
      var front := Superseded(rows, verdicts, accept, order, n - 1);
      if Accepted(verdicts, accept, order[n - 1]) then front + {rows[order[n - 1]].older} else front
  }

  lemma {:induction false} SupersededIff(rows: seq<Row>, verdicts: seq<Option<Verdict>>, accept: set<Verdict>, order: seq<nat>,
                                         n: nat, older: string)
    requires |rows| == |verdicts| && n <= |order| && forall k :: 0 <= k < |order| ==> order[k] < |rows|
    ensures older in Superseded(rows, verdicts, accept, order, n)
            <==> exists k :: 0 <= k < n && Accepted(verdicts, accept, order[k]) && rows[order[k]].older == older
  {
    if n > 0 {
      SupersededIff(rows, verdicts, accept, order, n - 1, older);
    }
  }

  /** The first accepted row tried for an older memory is the one that wins it. */
  lemma {:induction false} FirstWins(rows: seq<Row>, verdicts: seq<Option<Verdict>>, accept: set<Verdict>, order: seq<nat>, n: nat)
    requires |rows| == |verdicts| && Ordered(rows, order, |rows|) && n < |order|
    ensures Wins(rows, verdicts, accept, order[n])
            <==> Accepted(verdicts, accept, order[n]) && rows[order[n]].older !in Superseded(rows, verdicts, accept, order, n)
  {
    hide Superseded, Accepted;
    var i := order[n];
    SupersededIff(rows, verdicts, accept, order, n, rows[i].older);
    if Accepted(verdicts, accept, i) && rows[i].older !in Superseded(rows, verdicts, accept, order, n) {
      forall j: nat | j < |rows| && j != i && Accepted(verdicts, accept, j) && rows[j].older == rows[i].older
        ensures Better(rows, i, j)
      {
        assert j in order;
        var k :| 0 <= k < |order| && order[k] == j;
        assert k > n;
      }
    }
    if rows[i].older in Superseded(rows, verdicts, accept, order, n) {
      var k :| 0 <= k < n && Accepted(verdicts, accept, order[k]) && rows[order[k]].older == rows[i].older;
      assert Better(rows, order[k], i) && !Better(rows, i, order[k]);
    }
  }

  /** The winners among the first `n` tried. */
  ghost predicate Picked(rows: seq<Row>, verdicts: seq<Option<Verdict>>, accept: set<Verdict>, order: seq<nat>, n: nat,
                         picks: seq<nat>)
    requires |rows| == |verdicts| && n <= |order| && forall k :: 0 <= k < |order| ==> order[k] < |rows|
  {
    && (forall m :: 0 <= m < |picks| ==> picks[m] < |rows| && Tried(order, n, picks[m]) && Wins(rows, verdicts, accept, picks[m]))
    && (forall k :: 0 <= k < n && Wins(rows, verdicts, accept, order[k]) ==> order[k] in picks)
    && (forall a, b :: 0 <= a < b < |picks| ==> Better(rows, picks[a], picks[b]))
  }

  /** Row `i` is among the first `n` tried. */
  ghost predicate Tried(order: seq<nat>, n: nat, i: nat)
    requires n <= |order|
  {
    exists k :: 0 <= k < n && order[k] == i
  }

  lemma {:induction false} PickOn(rows: seq<Row>, verdicts: seq<Option<Verdict>>, accept: set<Verdict>, order: seq<nat>,
                                  n: nat, picks: seq<nat>)
    requires |rows| == |verdicts| && Ordered(rows, order, |rows|) && n < |order|
    requires (forall k :: 0 <= k < |order| ==> order[k] < |rows|) && Picked(rows, verdicts, accept, order, n, picks)
    ensures Picked(rows, verdicts, accept, order, n + 1,
                   if Wins(rows, verdicts, accept, order[n]) then picks + [order[n]] else picks)
  {
    hide Wins, Better, Ordered, Tried;
    forall m | 0 <= m < |picks|
      ensures Better(rows, picks[m], order[n]) && Tried(order, n + 1, picks[m])
    {
      TriedEarlier(rows, order, n, picks[m]);
    }
    TriedNow(order, n);
    if Wins(rows, verdicts, accept, order[n]) {
      PickAdds(rows, verdicts, accept, order, n, picks);
    }
  }

  lemma {:induction false} PickAdds(rows: seq<Row>, verdicts: seq<Option<Verdict>>, accept: set<Verdict>, order: seq<nat>,
                                    n: nat, picks: seq<nat>)
    requires |rows| == |verdicts| && n < |order| && (forall k :: 0 <= k < |order| ==> order[k] < |rows|)
    requires Picked(rows, verdicts, accept, order, n, picks) && Wins(rows, verdicts, accept, order[n])
    requires forall m :: 0 <= m < |picks| ==> Better(rows, picks[m], order[n]) && Tried(order, n + 1, picks[m])
    requires Tried(order, n + 1, order[n])
    ensures Picked(rows, verdicts, accept, order, n + 1, picks + [order[n]])
  {
    hide Wins, Better, Tried;
    var all := picks + [order[n]];
    assert forall m :: 0 <= m < |picks| ==> all[m] == picks[m];
    assert all[|picks|] == order[n];
  }

  lemma {:induction false} TriedNow(order: seq<nat>, n: nat)
    requires n < |order|
    ensures Tried(order, n + 1, order[n])
  {
  }

  lemma {:induction false} TriedEarlier(rows: seq<Row>, order: seq<nat>, n: nat, i: nat)
    requires Ordered(rows, order, |rows|) && n < |order| && Tried(order, n, i)
    ensures i < |rows| && Better(rows, i, order[n]) && Tried(order, n + 1, i)
  {
    hide Better;
  }

  /**
    The end of `verify`: one triple for each older memory with an accepted verdict, namely
    its closest accepted pair, the earliest on a tie; none for any other; best match first.
   */
  method Choose(rows: seq<Row>, verdicts: seq<Option<Verdict>>, accept: set<Verdict>)
    returns (accepted: seq<Triple>, picks: seq<nat>)
    requires |rows| == |verdicts|
    ensures |picks| == |accepted|
    ensures forall m :: 0 <= m < |picks| ==>
              picks[m] < |rows| && accepted[m] == Triple(rows[picks[m]].older, rows[picks[m]].newer, rows[picks[m]].kind)
    ensures forall i: nat :: i < |rows| ==> (i in picks <==> Wins(rows, verdicts, accept, i))
    ensures forall a, b :: 0 <= a < b < |picks| ==> Better(rows, picks[a], picks[b])
    ensures forall a, b :: 0 <= a < b < |accepted| ==> accepted[a].older != accepted[b].older
    ensures forall i: nat :: i < |rows| && Accepted(verdicts, accept, i) ==> exists t :: t in accepted && t.older == rows[i].older
  {
    hide Wins, Superseded, Accepted, Better, Picked, Ordered;
    var order := Sorted(rows);
    OrderIs(rows, order);
    accepted, picks := [], [];
    var superseded: set<string> := {};
    NonePicked(rows, verdicts, accept, order);
    for n := 0 to |order|
      invariant |picks| == |accepted| && Picked(rows, verdicts, accept, order, n, picks)
      invariant superseded == Superseded(rows, verdicts, accept, order, n)
      invariant forall m :: 0 <= m < |picks| ==> picks[m] < |rows| && accepted[m] == TripleOf(rows[picks[m]])
    {
      var i := order[n];
      FirstWins(rows, verdicts, accept, order, n);
      PickOn(rows, verdicts, accept, order, n, picks);
      SupersededOn(rows, verdicts, accept, order, n);
      if Accepted(verdicts, accept, i) && rows[i].older !in superseded {
        superseded := superseded + {rows[i].older};
        accepted := accepted + [TripleOf(rows[i])];
        picks := picks + [i];
      }
    }
    PickedAll(rows, verdicts, accept, order, picks);
    forall i: nat | i < |rows| && Accepted(verdicts, accept, i)
      ensures exists t :: t in accepted && t.older == rows[i].older
    {
      var w := SomeoneWins(rows, verdicts, accept, order, i);
      var m :| 0 <= m < |picks| && picks[m] == w;
      assert accepted[m] in accepted;
    }
  }

  lemma {:induction false} OrderIs(rows: seq<Row>, order: seq<nat>)
    requires Ordered(rows, order, |rows|)
    ensures forall k :: 0 <= k < |order| ==> order[k] < |rows|
  {
  }

  lemma {:induction false} NonePicked(rows: seq<Row>, verdicts: seq<Option<Verdict>>, accept: set<Verdict>, order: seq<nat>)
    requires |rows| == |verdicts| && forall k :: 0 <= k < |order| ==> order[k] < |rows|
    ensures Picked(rows, verdicts, accept, order, 0, []) && Superseded(rows, verdicts, accept, order, 0) == {}
  {
  }

  lemma {:induction false} SupersededOn(rows: seq<Row>, verdicts: seq<Option<Verdict>>, accept: set<Verdict>, order: seq<nat>, n: nat)
    requires |rows| == |verdicts| && n < |order| && forall k :: 0 <= k < |order| ==> order[k] < |rows|
    ensures Superseded(rows, verdicts, accept, order, n + 1)
            == Superseded(rows, verdicts, accept, order, n)
               + if Accepted(verdicts, accept, order[n]) then {rows[order[n]].older} else {}
  {
  }

  lemma {:induction false} PickedAll(rows: seq<Row>, verdicts: seq<Option<Verdict>>, accept: set<Verdict>, order: seq<nat>,
                                     picks: seq<nat>)
    requires |rows| == |verdicts| && Ordered(rows, order, |rows|) && Picked(rows, verdicts, accept, order, |order|, picks)
    ensures forall i: nat :: i < |rows| ==> (i in picks <==> Wins(rows, verdicts, accept, i))
    ensures forall a, b :: 0 <= a < b < |picks| ==> Better(rows, picks[a], picks[b])
    ensures forall a, b :: 0 <= a < b < |picks| ==> rows[picks[a]].older != rows[picks[b]].older
  {
    forall i: nat | i < |rows| && Wins(rows, verdicts, accept, i)
      ensures i in picks
    {
      assert i in order;
    }
    forall a, b | 0 <= a < b < |picks|
      ensures rows[picks[a]].older != rows[picks[b]].older
    {
      var x, y := picks[a], picks[b];
      assert Better(rows, x, y) && !Better(rows, y, x) && Wins(rows, verdicts, accept, y);
    }
  }

  /** Some row wins each older memory that has an accepted row. */
  lemma {:induction false} SomeoneWins(rows: seq<Row>, verdicts: seq<Option<Verdict>>, accept: set<Verdict>, order: seq<nat>, i: nat)
    returns (w: nat)
    requires |rows| == |verdicts| && Ordered(rows, order, |rows|) && i < |rows| && Accepted(verdicts, accept, i)
    ensures w < |rows| && Wins(rows, verdicts, accept, w) && rows[w].older == rows[i].older
  {
    hide Wins, Superseded, Accepted;
    assert i in order;
    var k :| 0 <= k < |order| && order[k] == i;
    w := FirstUpTo(rows, verdicts, accept, order, k);
  }

  lemma {:induction false} FirstUpTo(rows: seq<Row>, verdicts: seq<Option<Verdict>>, accept: set<Verdict>, order: seq<nat>, k: nat)
    returns (w: nat)
    requires |rows| == |verdicts| && Ordered(rows, order, |rows|) && k < |order| && Accepted(verdicts, accept, order[k])
    ensures w < |rows| && Wins(rows, verdicts, accept, w) && rows[w].older == rows[order[k]].older
    decreases k
  {
    hide Wins, Superseded, Accepted;
    FirstWins(rows, verdicts, accept, order, k);
    if rows[order[k]].older !in Superseded(rows, verdicts, accept, order, k) {
      w := order[k];
    } else {
      SupersededIff(rows, verdicts, accept, order, k, rows[order[k]].older);
      var j :| 0 <= j < k && Accepted(verdicts, accept, order[j]) && rows[order[j]].older == rows[order[k]].older;
      w := FirstUpTo(rows, verdicts, accept, order, j);
    }
  }
}
