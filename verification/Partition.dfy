/** Contiguous chunks of roughly equal token weight (tsm/budget.py `partition_by_token_weight`). */
module Partition {
  import opened Wrappers
  import opened Text

  /** Python's `round`: to the nearest integer, ties to even. */
  function Round(x: real): (n: int)
    ensures x - 0.5 <= n as real <= x + 0.5
  {
    var f := x.Floor;
    var d := x - f as real;
    if d < 0.5 || (d == 0.5 && f % 2 == 0) then f else f + 1
  }

  /** A text's weight; a blank one still counts one. */
  function TextWeight(t: string): (w: nat)
    ensures w >= 1
  {
    if Tokens(t) < 1 then 1 else Tokens(t)
  }

  function Load(texts: seq<string>): (w: nat)
    ensures w >= |texts|
  {
    if texts == [] then 0 else TextWeight(texts[0]) + Load(texts[1..])
  }

  /** Weight of the heaviest text. */
  function Heaviest(texts: seq<string>): (w: nat)
    ensures w >= 1
    ensures forall i :: 0 <= i < |texts| ==> TextWeight(texts[i]) <= w
  {
    if texts == [] then 1
    else
      var w := Heaviest(texts[1..]);
      if TextWeight(texts[0]) > w then TextWeight(texts[0]) else w
  }

  lemma {:induction false} RoundTies(x: real)
    ensures Round(x) as real == x + 0.5 || Round(x) as real == x - 0.5 ==> Round(x) % 2 == 0
  {
  }

  /** The heaviest text weighs no more than one, or some text weighs that much. */
  lemma {:induction false} HeaviestIs(texts: seq<string>)
    ensures Heaviest(texts) == 1 || exists i :: 0 <= i < |texts| && TextWeight(texts[i]) == Heaviest(texts)
  {
    hide TextWeight;
    if texts != [] {
      HeaviestIs(texts[1..]);
      assert forall i :: 0 <= i < |texts| - 1 ==> texts[1..][i] == texts[i + 1];
    }
  }

  lemma {:induction false} LoadConcat(a: seq<string>, b: seq<string>)
    ensures Load(a + b) == Load(a) + Load(b)
  {
    if a == [] {
      assert a + b == b;
    } else {
      assert (a + b)[1..] == a[1..] + b;
      LoadConcat(a[1..], b);
    }
  }

  lemma {:induction false} LoadSnoc(texts: seq<string>, i: nat, j: nat)
    requires i <= j < |texts|
    ensures Load(texts[i..j + 1]) == Load(texts[i..j]) + TextWeight(texts[j])
  {
    assert texts[i..j + 1] == texts[i..j] + [texts[j]];
    LoadConcat(texts[i..j], [texts[j]]);
  }

  lemma {:induction false} LoadSplit(texts: seq<string>, i: nat, j: nat)
    requires i <= j <= |texts|
    ensures Load(texts[i..]) == Load(texts[i..j]) + Load(texts[j..])
  {
    assert texts[i..] == texts[i..j] + texts[j..];
    LoadConcat(texts[i..j], texts[j..]);
  }

  function Flatten(chunks: seq<seq<string>>): (r: seq<string>)
  {
    if chunks == [] then [] else chunks[0] + Flatten(chunks[1..])
  }

  lemma {:induction false} FlattenOfNothing(texts: seq<string>)
    ensures Flatten([]) == [] == texts[..0]
  {
  }

  lemma {:induction false} FlattenSnoc(chunks: seq<seq<string>>, c: seq<string>)
    ensures Flatten(chunks + [c]) == Flatten(chunks) + c
  {
    if chunks == [] {
      assert chunks + [c] == [c];
      assert [c][1..] == [];
    } else {
      assert (chunks + [c])[1..] == chunks[1..] + [c];
      FlattenSnoc(chunks[1..], c);
    }
  }

  lemma {:induction false} FlattenNext(chunks: seq<seq<string>>, texts: seq<string>, i: nat, j: nat)
    requires i <= j <= |texts| && Flatten(chunks) == texts[..i]
    ensures Flatten(chunks + [texts[i..j]]) == texts[..j]
  {
    FlattenSnoc(chunks, texts[i..j]);
    assert texts[..j] == texts[..i] + texts[i..j];
  }

  // ----- the balance bound -------------------------------------------------------------

  function Harmonic(k: nat): (h: real)
    ensures h >= 0.0
  {
    if k == 0 then 0.0 else Harmonic(k - 1) + 1.0 / (k as real)
  }

  /**
    An upper bound on the average weight left per chunk when `r` chunks remain of `k`,
    for total weight `total` and heaviest text `w`.
   */
  function Level(total: nat, k: nat, w: nat, r: nat): (x: real)
    requires 1 <= r <= k
  {
    (total as real) / (k as real) + (w as real - 0.5) * (Harmonic(k - 1) - Harmonic(r - 1))
  }

  /** No chunk is heavier than this: `max(W, T/K + (W - 1/2) H(K-1) + 1/2)`. */
  function ChunkBound(texts: seq<string>, k: nat): (x: real)
    requires k >= 1
  {
    var w := Heaviest(texts);
    var even := Level(Load(texts), k, w, 1) + 0.5;
    if even < w as real then w as real else even
  }

  lemma {:induction false} LevelStep(total: nat, k: nat, w: nat, r: nat)
    requires 2 <= r <= k && w >= 1
    ensures Level(total, k, w, r - 1) == Level(total, k, w, r) + (w as real - 0.5) / ((r - 1) as real)
  {
    var c := w as real - 0.5;
    var h, g, d := Harmonic(k - 1), Harmonic(r - 1), 1.0 / ((r - 1) as real);
    assert g == Harmonic(r - 2) + d;
    Spread(c, h, g, d);
    assert c * d == c / ((r - 1) as real);
  }

  lemma {:induction false} Spread(c: real, h: real, g: real, d: real)
    ensures c * (h - (g - d)) == c * (h - g) + c * d
  {
  }

  lemma {:induction false} LevelGrows(total: nat, k: nat, w: nat, r: nat)
    requires 1 <= r <= k && w >= 1
    ensures Level(total, k, w, r) <= Level(total, k, w, 1)
    decreases r
  {
    if r > 1 {
      LevelStep(total, k, w, r);
      PositiveQuotient(w as real - 0.5, (r - 1) as real);
      LevelGrows(total, k, w, r - 1);
    }
  }

  lemma {:induction false} PositiveQuotient(c: real, d: real)
    requires c >= 0.0 && d > 0.0
    ensures c / d >= 0.0
  {
  }

  /** Taking at least the average less `c` leaves the others an average that rose by at most `c / (r - 1)`. */
  lemma {:induction false} AverageStep(left: real, r: real, level: real, c: real, next: real, q: real)
    requires r >= 2.0 && left <= r * level && next <= left - left / r + c && q == level + c / (r - 1.0)
    ensures next <= (r - 1.0) * q
  {
    var a := left / r;
    assert a * r == left;
    assert a <= level by {
      if a > level {
        LessTimes(level, a, r);
      }
    }
    assert left - a == (r - 1.0) * a;
    TimesLess(a, level, r - 1.0);
    var e := c / (r - 1.0);
    assert e * (r - 1.0) == c;
    assert (r - 1.0) * (level + e) == (r - 1.0) * level + e * (r - 1.0);
  }

  lemma {:induction false} LessTimes(x: real, y: real, r: real)
    requires x < y && r > 0.0
    ensures x * r < y * r
  {
  }

  lemma {:induction false} TimesLess(x: real, y: real, r: real)
    requires x <= y && r > 0.0
    ensures r * x <= r * y
  {
  }

  // ----- the partition --------------------------------------------------------------------

  ghost predicate Chunked(chunks: seq<seq<string>>, bound: real)
  {
    forall c :: c in chunks ==> c != [] && Load(c) as real <= bound
  }

  /** The texts from `start` on, to be cut into `left` more chunks, are either one each or not above the level. */
  ghost predicate Balanced(texts: seq<string>, k: nat, start: nat, left: nat)
    requires start <= |texts| && 1 <= left <= k
  {
    || |texts| - start == left
    || Load(texts[start..]) as real <= (left as real) * Level(Load(texts), k, Heaviest(texts), left)
  }

  /**
    Exactly `min(chunk_count, len(texts))` nonempty contiguous chunks whose concatenation
    is the input, none heavier than `ChunkBound`; an error for fewer than one chunk.
   */
  method PartitionByTokenWeight(texts: seq<string>, chunkCount: int) returns (r: Option<seq<seq<string>>>)
    ensures r.None? <==> chunkCount < 1
    ensures r.Some? ==> |r.value| == (if chunkCount < |texts| then chunkCount else |texts|)
    ensures r.Some? ==> Flatten(r.value) == texts
    ensures r.Some? && texts != [] ==> Chunked(r.value, ChunkBound(texts, |r.value|))
  {
    if chunkCount < 1 {
      return None;
    }
    if texts == [] {
      FlattenOfNothing(texts);
      return Some([]);
    }
    hide CutSoFar, Taken, Load, Flatten, Chunked, ChunkBound;
    var k := if chunkCount < |texts| then chunkCount else |texts|;
    var chunks: seq<seq<string>> := [];
    var start := 0;
    var remaining := Load(texts);
    NothingCut(texts, k);
    for index := 0 to k - 1
      invariant |chunks| == index && CutSoFar(texts, k, chunks, start, remaining, k - index)
    {
      CutNeeds(texts, k, chunks, start, remaining, k - index);
      var end, used := TakeChunk(texts, start, remaining, k - index);
      CutOne(texts, k, chunks, start, remaining, k - index, end, used);
      chunks := chunks + [texts[start..end]];
      start := end;
      remaining := remaining - used;
    }
    CutLast(texts, k, chunks, start, remaining);
    chunks := chunks + [texts[start..]];
    return Some(chunks);
  }

  /** `chunks` cover the first `start` texts, and the rest, of weight `remaining`, is to be cut into `left` more. */
  ghost predicate CutSoFar(texts: seq<string>, k: nat, chunks: seq<seq<string>>, start: nat, remaining: nat, left: nat)
  {
    && 1 <= left <= k && start + left <= |texts| && Flatten(chunks) == texts[..start]
    && Chunked(chunks, ChunkBound(texts, k))
    && remaining == Load(texts[start..])
    && Balanced(texts, k, start, left)
  }

  lemma {:induction false} NothingCut(texts: seq<string>, k: nat)
    requires 1 <= k <= |texts|
    ensures CutSoFar(texts, k, [], 0, Load(texts), k)
  {
    hide Balanced, Load, ChunkBound, Flatten, Chunked;
    assert texts[0..] == texts;
    FlattenOfNothing(texts);
    LevelStart(texts, k);
    NoChunks(ChunkBound(texts, k));
  }

  lemma {:induction false} CutNeeds(texts: seq<string>, k: nat, chunks: seq<seq<string>>, start: nat, remaining: nat, left: nat)
    requires CutSoFar(texts, k, chunks, start, remaining, left)
    ensures start + left <= |texts| && remaining == Load(texts[start..])
  {
  }

  lemma {:induction false} CutOne(texts: seq<string>, k: nat, chunks: seq<seq<string>>, start: nat, remaining: nat, left: nat,
                                  end: nat, used: nat)
    requires CutSoFar(texts, k, chunks, start, remaining, left) && left >= 2
    requires start < end && end + (left - 1) <= |texts| && used == Load(texts[start..end])
    requires Taken(texts, start, end, used, remaining, left) && (|texts| - start == left ==> end == start + 1)
    ensures used <= remaining && CutSoFar(texts, k, chunks + [texts[start..end]], end, remaining - used, left - 1)
  {
    hide Balanced, Load, ChunkBound, Taken, Flatten, Chunked;
    LoadSplit(texts, start, end);
    NextLevel(texts, k, start, end, remaining, left);
    FlattenNext(chunks, texts, start, end);
    ChunkedSnoc(chunks, texts[start..end], ChunkBound(texts, k));
  }

  lemma {:induction false} CutLast(texts: seq<string>, k: nat, chunks: seq<seq<string>>, start: nat, remaining: nat)
    requires CutSoFar(texts, k, chunks, start, remaining, 1)
    ensures start <= |texts| && Flatten(chunks + [texts[start..]]) == texts
    ensures Chunked(chunks + [texts[start..]], ChunkBound(texts, k))
  {
    hide Balanced, Load, ChunkBound, Flatten, Chunked;
    var n := |texts|;
    LastChunk(texts, k, start);
    FlattenNext(chunks, texts, start, n);
    assert texts[start..n] == texts[start..] && texts[..n] == texts;
    ChunkedSnoc(chunks, texts[start..], ChunkBound(texts, k));
  }

  lemma {:induction false} NoChunks(bound: real)
    ensures Chunked([], bound)
  {
  }

  lemma {:induction false} ChunkedSnoc(chunks: seq<seq<string>>, c: seq<string>, bound: real)
    requires Chunked(chunks, bound) && c != [] && Load(c) as real <= bound
    ensures Chunked(chunks + [c], bound)
  {
    hide Load;
  }

  lemma {:induction false} LevelAll(total: nat, k: nat, w: nat)
    requires k >= 1
    ensures total as real == (k as real) * Level(total, k, w, k)
  {
    hide Harmonic;
    var a := (total as real) / (k as real);
    assert a * (k as real) == total as real;
    assert (w as real - 0.5) * 0.0 == 0.0;
  }

  lemma {:induction false} LevelStart(texts: seq<string>, k: nat)
    requires k >= 1
    ensures Balanced(texts, k, 0, k)
  {
    hide Load, Heaviest, Harmonic;
    assert texts[0..] == texts;
    LevelAll(Load(texts), k, Heaviest(texts));
  }

  /** What the inner loop guarantees about the chunk it takes when `left` chunks are still to be made. */
  ghost predicate Taken(texts: seq<string>, start: nat, end: nat, used: nat, remaining: nat, left: nat)
    requires start < end <= |texts| && left >= 2
  {
    var average := (remaining as real) / (left as real);
    && (end == start + 1 || used as real <= average + 0.5)
    && (|texts| - end == left - 1
        || (end < |texts| && (used + TextWeight(texts[end])) as real >= average + 0.5))
  }

  method TakeChunk(texts: seq<string>, start: nat, remaining: nat, left: nat) returns (end: nat, used: nat)
    requires left >= 2 && start + left <= |texts| && remaining == Load(texts[start..])
    ensures start < end && end + (left - 1) <= |texts| && used == Load(texts[start..end])
    ensures Taken(texts, start, end, used, remaining, left)
    ensures |texts| - start == left ==> end == start + 1
  {
    var average := (remaining as real) / (left as real);
    AtLeastOne(remaining, left);
    var target := Round(average);
    if target < 1 {
      target := 1;
    }
    end, used := start, 0;
    var maxEnd := |texts| - (left - 1);
    assert texts[start..start] == [];
    while end < maxEnd
      invariant start <= end <= maxEnd && used == Load(texts[start..end])
      invariant end <= start + 1 || used <= target
    {
      var tokens := TextWeight(texts[end]);
      if end > start && used + tokens > target {
        break;
      }
      LoadSnoc(texts, start, end);
      used := used + tokens;
      end := end + 1;
    }
    if end == start {
      assert false;
    }
  }

  lemma {:induction false} AtLeastOne(remaining: nat, left: nat)
    requires 1 <= left <= remaining
    ensures (remaining as real) / (left as real) >= 1.0
  {
  }

  lemma {:induction false} NextLevel(texts: seq<string>, k: nat, start: nat, end: nat, remaining: nat, left: nat)
    requires 2 <= left <= k && start < end && start + left <= |texts| && end + (left - 1) <= |texts|
    requires remaining == Load(texts[start..]) == Load(texts[start..end]) + Load(texts[end..])
    requires Taken(texts, start, end, Load(texts[start..end]), remaining, left)
    requires (|texts| - start == left ==> end == start + 1) && Balanced(texts, k, start, left)
    ensures Load(texts[start..end]) as real <= ChunkBound(texts, k)
    ensures Balanced(texts, k, end, left - 1)
  {
    hide Heaviest, Level, Load, ChunkBound;
    var w, total := Heaviest(texts), Load(texts);
    TakenBound(texts, k, start, end, remaining, left);
    if |texts| - end != left - 1 {
      LevelStep(total, k, w, left);
      NextAverage(remaining, Load(texts[start..end]), Load(texts[end..]), left, TextWeight(texts[end]), w,
                  Level(total, k, w, left), Level(total, k, w, left - 1));
    }
  }

  lemma {:induction false} TakenBound(texts: seq<string>, k: nat, start: nat, end: nat, remaining: nat, left: nat)
    requires 2 <= left <= k && start < end && start + left <= |texts| && end + (left - 1) <= |texts|
    requires remaining == Load(texts[start..])
    requires Taken(texts, start, end, Load(texts[start..end]), remaining, left)
    requires (|texts| - start == left ==> end == start + 1) && Balanced(texts, k, start, left)
    ensures Load(texts[start..end]) as real <= ChunkBound(texts, k)
  {
    hide Heaviest, Level, Load;
    var w, total := Heaviest(texts), Load(texts);
    LevelGrows(total, k, w, left);
    if end == start + 1 {
      SingleLoad(texts, start);
    } else {
      AverageBelow(remaining as real, left as real, Level(total, k, w, left));
    }
  }

  lemma {:induction false} NextAverage(remaining: nat, used: nat, next: nat, left: nat, x: nat, w: nat, level: real, q: real)
    requires left >= 2 && remaining == used + next && x <= w
    requires (used + x) as real >= (remaining as real) / (left as real) + 0.5
    requires remaining as real <= (left as real) * level && q == level + (w as real - 0.5) / ((left - 1) as real)
    ensures next as real <= ((left - 1) as real) * q
  {
    AverageStep(remaining as real, left as real, level, w as real - 0.5, next as real, q);
  }

  lemma {:induction false} SingleLoad(texts: seq<string>, i: nat)
    requires i < |texts|
    ensures Load(texts[i..i + 1]) == TextWeight(texts[i])
  {
    assert texts[i..i + 1] == [texts[i]];
  }

  lemma {:induction false} AverageBelow(left: real, r: real, level: real)
    requires r > 0.0 && left <= r * level
    ensures left / r <= level
  {
    var a := left / r;
    assert a * r == left;
    if a > level {
      LessTimes(level, a, r);
    }
  }

  lemma {:induction false} LastChunk(texts: seq<string>, k: nat, start: nat)
    requires k >= 1 && start < |texts| && Balanced(texts, k, start, 1)
    ensures Load(texts[start..]) as real <= ChunkBound(texts, k)
  {
    if |texts| - start == 1 {
      assert texts[start..] == texts[start..start + 1];
      SingleLoad(texts, start);
    }
  }
}
