/**
  The cached embedding client (tsm/embedders.py `OpenAIEmbedder.encode`). The service is an
  arbitrary function of the request that may fail or answer with the wrong number or size of
  vectors; an answer that passes those checks is assumed to be its embedding of each text.
 */
module Embedder {
  import opened Wrappers
  import Text
  import opened Vectors

  type Cache = map<string, Vec>

  /** The answer to the `n`-th request of a call, or nothing when every retry failed. */
  type Service = (nat, seq<string>) -> Option<seq<Vec>>

  /** How often that request is sent before it is answered or given up. */
  type Tries = (nat, seq<string>) -> nat

  /** All sendings of these requests. */
  function Sendings(requests: seq<seq<string>>, tries: Tries): (n: nat)
  {
    if requests == [] then 0
    else Sendings(requests[..|requests| - 1], tries) + tries(|requests| - 1, requests[|requests| - 1])
  }

  datatype EncodeError = RequestFailed | WrongAnswer | NothingToStack

  /** Blank texts become a single space. */
  function Normal(t: string): (r: string)
    ensures r != "" && (Text.IsBlank(t) ==> r == " ") && (!Text.IsBlank(t) ==> r == t)
  {
    if Text.IsBlank(t) then " " else t
  }

  function NormalAll(ts: seq<string>): (r: seq<string>)
    ensures |r| == |ts| && forall i :: 0 <= i < |ts| ==> r[i] == Normal(ts[i])
  {
    seq(|ts|, i requires 0 <= i < |ts| => Normal(ts[i]))
  }

  /** The uncached texts among the first `n`, each once, in first-seen order. */
  function Missing(norm: seq<string>, cache: Cache, n: nat): (r: seq<string>)
    requires n <= |norm|
    ensures forall t :: t in r <==> t in norm[..n] && t !in cache
    ensures forall i, j :: 0 <= i < j < |r| ==> r[i] != r[j]
  {
    if n == 0 then []
    else
      assert norm[..n] == norm[..n - 1] + [norm[n - 1]];
      var front, t := Missing(norm, cache, n - 1), norm[n - 1];
      if t in cache || t in front then front else front + [t]
  }

  /** What a call for these items has to ask the service. */
  function Unknown(items: seq<string>, cache: Cache): (r: seq<string>)
  {
    Missing(NormalAll(items), cache, |items|)
  }

  predicate WellShaped(answer: seq<Vec>, count: nat, dim: nat)
  {
    |answer| == count && forall k :: 0 <= k < |answer| ==> |answer[k]| == dim
  }

  /** Accepted answers are the embedding `f`, text by text. */
  ghost predicate Honest(service: Service, f: string -> Vec, dim: nat)
  {
    forall n, chunk :: service(n, chunk).Some? && WellShaped(service(n, chunk).value, |chunk|, dim) ==>
      forall k :: 0 <= k < |chunk| ==> service(n, chunk).value[k] == f(chunk[k])
  }

  ghost predicate Faithful(cache: Cache, f: string -> Vec)
  {
    forall t :: t in cache ==> cache[t] == f(t)
  }

  /** The texts of all requests, in order. */
  function Sent(requests: seq<seq<string>>): (r: seq<string>)
  {
    if requests == [] then [] else Sent(requests[..|requests| - 1]) + requests[|requests| - 1]
  }

  /** The requests a call makes when nothing fails: the missing texts, `batch` at a time. */
  function Batches(missing: seq<string>, batch: nat): (r: seq<seq<string>>)
    requires batch >= 1
    decreases |missing|
  {
    if missing == [] then []
    else if |missing| <= batch then [missing]
    else [missing[..batch]] + Batches(missing[batch..], batch)
  }

  /** Every batch but the last is full and the last is not empty, ... */
  lemma {:induction false} BatchesAreFull(missing: seq<string>, batch: nat, k: nat)
    requires batch >= 1 && k < |Batches(missing, batch)|
    ensures var r := Batches(missing, batch); if k < |r| - 1 then |r[k]| == batch else 1 <= |r[k]| <= batch
    decreases |missing|
  {
    if |missing| > batch && k > 0 {
      BatchesAreFull(missing[batch..], batch, k - 1);
    } else if |missing| > batch {
      assert missing[batch..] != [] && Batches(missing[batch..], batch) != [];
    }
  }

  function Concat(parts: seq<seq<string>>): (r: seq<string>)
  {
    if parts == [] then [] else parts[0] + Concat(parts[1..])
  }

  /** ... and together they are the missing texts. */
  lemma {:induction false} BatchesConcat(missing: seq<string>, batch: nat)
    requires batch >= 1
    ensures Concat(Batches(missing, batch)) == missing
    decreases |missing|
  {
    if |missing| > batch {
      BatchesConcat(missing[batch..], batch);
      assert ([missing[..batch]] + Batches(missing[batch..], batch))[1..] == Batches(missing[batch..], batch);
    } else if missing != [] {
      assert [missing][1..] == [] && missing + [] == missing;
    }
  }

  /** The missing texts are sent in the order of their first occurrence: `at` are the positions. */
  lemma {:induction false} MissingInOrder(norm: seq<string>, cache: Cache, n: nat) returns (at: seq<nat>)
    requires n <= |norm|
    ensures var r := Missing(norm, cache, n);
            && |at| == |r| && (forall k, l :: 0 <= k < l < |at| ==> at[k] < at[l])
            && (forall k :: 0 <= k < |at| ==> at[k] < n && r[k] == norm[at[k]] && r[k] !in norm[..at[k]])
  {
    hide Missing;
    at := [];
    MissingStep(norm, cache, n);
    if n > 0 {
      at := MissingInOrder(norm, cache, n - 1);
      if norm[n - 1] !in cache && norm[n - 1] !in Missing(norm, cache, n - 1) {
        at := at + [n - 1];
      }
    }
  }

  lemma {:induction false} MissingStep(norm: seq<string>, cache: Cache, n: nat)
    requires n <= |norm|
    ensures n == 0 ==> Missing(norm, cache, n) == []
    ensures n > 0 ==> var front, t := Missing(norm, cache, n - 1), norm[n - 1];
              Missing(norm, cache, n) == front + if t in cache || t in front then [] else [t]
  {
  }

  /** What goes wrong with the `n`-th request, if anything. */
  function Trouble(service: Service, n: nat, chunk: seq<string>, dim: nat): (e: Option<EncodeError>)
  {
    if service(n, chunk).None? then Some(RequestFailed)
    else if !WellShaped(service(n, chunk).value, |chunk|, dim) then Some(WrongAnswer)
    else None
  }

  /** Every one of these requests is answered well. */
  ghost predicate AllWell(requests: seq<seq<string>>, service: Service, dim: nat)
  {
    forall k: nat :: k < |requests| ==> Trouble(service, k, requests[k], dim).None?
  }

  ghost predicate Sized(requests: seq<seq<string>>, batch: nat)
  {
    forall q :: q in requests ==> 0 < |q| <= batch
  }

  /** `requests` are the batches up to and including the first in trouble, and `failure` is that trouble. */
  ghost predicate StopsAt(batches: seq<seq<string>>, service: Service, dim: nat, requests: seq<seq<string>>,
                          failure: Option<EncodeError>)
  {
    && requests <= batches && (failure.None? ==> requests == batches)
    && (forall k: nat :: k + 1 < |requests| ==> Trouble(service, k, requests[k], dim).None?)
    && (requests != [] ==> failure == Trouble(service, |requests| - 1, requests[|requests| - 1], dim))
    && (requests == [] ==> failure == None)
  }

  /** So a call fails exactly when some batch is answered wrongly or not at all. */
  lemma {:induction false} FailsIff(batches: seq<seq<string>>, service: Service, dim: nat, requests: seq<seq<string>>,
                                    failure: Option<EncodeError>)
    requires StopsAt(batches, service, dim, requests, failure)
    ensures failure.None? <==> AllWell(batches, service, dim)
  {
    hide Trouble;
    if failure.None? {
      forall k: nat | k < |batches|
        ensures Trouble(service, k, batches[k], dim).None?
      {
        assert k + 1 < |requests| || k == |requests| - 1;
      }
    } else {
      var k := |requests| - 1;
      assert batches[k] == requests[k];
    }
  }

  class Client {
    const dim: nat
    const batch: nat
    var cache: Cache
    var calls: nat

    constructor (dim: nat, batch: nat, cache: Cache)
      requires batch >= 1
      ensures this.dim == dim && this.batch == batch && this.cache == cache && calls == 0
    {
      this.dim, this.batch, this.cache, calls := dim, batch, cache, 0;
    }

    /** `_embed_batch`. */
    method EmbedBatch(n: nat, chunk: seq<string>, service: Service, tries: Tries) returns (r: Result<seq<Vec>, EncodeError>)
      modifies this`calls
      ensures calls == old(calls) + tries(n, chunk)
      ensures r.Ok? <==> service(n, chunk).Some? && WellShaped(service(n, chunk).value, |chunk|, dim)
      ensures r.Ok? ==> r.value == service(n, chunk).value
      ensures r.Err? ==> Some(r.error) == Trouble(service, n, chunk, dim)
    {
      calls := calls + tries(n, chunk);
      var answer := service(n, chunk);
      if answer.None? {
        return Err(RequestFailed);
      }
      if !WellShaped(answer.value, |chunk|, dim) {
        return Err(WrongAnswer);
      }
      return Ok(answer.value);
    }

    /**
      The request loop. However many requests succeed before one fails, the cache stays the
      service's own function and gains exactly the texts answered.
     */
    method Fetch(missing: seq<string>, service: Service, tries: Tries, ghost f: string -> Vec)
      returns (failure: Option<EncodeError>, requests: seq<seq<string>>)
      requires batch >= 1 && Honest(service, f, dim) && Faithful(cache, f)
      modifies this`cache, this`calls
      ensures Faithful(cache, f) && calls == old(calls) + Sendings(requests, tries)
      ensures StopsAt(Batches(missing, batch), service, dim, requests, failure)
      ensures Sent(requests) <= missing && (failure.None? ==> Sent(requests) == missing)
      ensures cache.Keys == old(cache).Keys + Texts(Answered(requests, failure))
      ensures Sized(requests, batch)
      ensures failure.Some? ==> missing != []
    {
      hide Sent, Faithful, Honest, Texts, WellShaped, Sendings, Batches, Trouble, StopsAt, AllWell, Sized;
      requests := [];
      ghost var done: seq<string> := [];
      var start := 0;
      NothingSent(cache.Keys, tries);
      NoneYet(missing, batch, service, dim);
      while start < |missing|
        invariant 0 <= start <= |missing| && done == missing[..start] && Sent(requests) == done
        invariant calls == old(calls) + Sendings(requests, tries) && Faithful(cache, f)
        invariant cache.Keys == old(cache).Keys + Texts(done)
        invariant requests + Batches(missing[start..], batch) == Batches(missing, batch)
        invariant AllWell(requests, service, dim) && Sized(requests, batch)
      {
        var end := if start + batch < |missing| then start + batch else |missing|;
        var chunk := missing[start..end];
        SentSnoc(requests, chunk);
        SendingsSnoc(requests, chunk, tries);
        Pieces(missing, start, end);
        NextBatch(missing, start, end, batch, requests);
        SizedSnoc(requests, chunk, batch);
        var vectors := EmbedBatch(|requests|, chunk, service, tries);
        if vectors.Err? {
          StopsBad(requests, chunk, Batches(missing[end..], batch), service, dim);
          return Some(vectors.error), requests + [chunk];
        }
        HonestAt(service, f, dim, |requests|, chunk);
        WellSnoc(requests, chunk, service, dim);
        requests := requests + [chunk];
        cache := Stored(cache, chunk, vectors.value, f);
        TextsConcat(done, chunk);
        done := done + chunk;
        start := end;
      }
      Whole(missing);
      NoMore(missing, batch, requests);
      StopsGood(requests, service, dim);
      return None, requests;
    }

    /**
      `encode` on a list: every row is the direct embedding of its normalized text, and what
      is sent is the missing texts, in order, each once.
     */
    method Encode(items: seq<string>, service: Service, tries: Tries, ghost f: string -> Vec)
      returns (r: Result<seq<Vec>, EncodeError>, requests: seq<seq<string>>, ghost failure: Option<EncodeError>)
      requires batch >= 1 && Honest(service, f, dim) && Faithful(cache, f)
      modifies this`cache, this`calls
      ensures Faithful(cache, f) && calls == old(calls) + Sendings(requests, tries)
      ensures var missing := Unknown(items, old(cache));
              && StopsAt(Batches(missing, batch), service, dim, requests, failure)
              && Sent(requests) <= missing && (failure.None? ==> Sent(requests) == missing)
      ensures cache.Keys == old(cache).Keys + Texts(Answered(requests, failure))
      ensures Sized(requests, batch)
      ensures r.Ok? <==> failure.None? && items != []
      ensures failure.None? <==> AllWell(Batches(Unknown(items, old(cache)), batch), service, dim)
      ensures r.Ok? ==> |r.value| == |items| && forall i :: 0 <= i < |items| ==> r.value[i] == f(if Text.IsBlank(items[i]) then " " else items[i])
      ensures r.Err? ==> r.error == if items == [] then NothingToStack else failure.value
    {
      hide Sent, Honest, Answered, Normal, Sendings, Batches, Trouble, StopsAt, AllWell, Sized, Unknown, Faithful, Texts;
      var missing := Unknown(items, cache);
      ghost var before := cache;
      var outcome;
      outcome, requests := Fetch(missing, service, tries, f);
      failure := outcome;
      FailsIff(Batches(missing, batch), service, dim, requests, failure);
      if outcome.Some? {
        NothingMissing(before, items);
        return Err(outcome.value), requests, failure;
      }
      if items == [] {
        return Err(NothingToStack), requests, failure;
      }
      AllCached(items, before, requests);
      var rows := Rows(items, cache, f);
      return Ok(rows), requests, failure;
    }
  }

  /** `np.stack` of the cached rows. */
  method Rows(items: seq<string>, cache: Cache, ghost f: string -> Vec) returns (r: seq<Vec>)
    requires Faithful(cache, f) && forall t :: t in NormalAll(items) ==> t in cache
    ensures |r| == |items| && forall i :: 0 <= i < |items| ==> r[i] == f(Normal(items[i]))
  {
    hide Normal;
    var norm := NormalAll(items);
    r := seq(|norm|, i requires 0 <= i < |norm| && norm[i] in cache => cache[norm[i]]);
  }

  lemma {:induction false} NextBatch(missing: seq<string>, start: nat, end: nat, batch: nat, requests: seq<seq<string>>)
    requires batch >= 1 && start < |missing| && end == if start + batch < |missing| then start + batch else |missing|
    ensures requests + Batches(missing[start..], batch) == requests + [missing[start..end]] + Batches(missing[end..], batch)
  {
    var rest := missing[start..];
    if |rest| > batch {
      assert rest[..batch] == missing[start..end] && rest[batch..] == missing[end..];
    } else {
      assert rest == missing[start..end] && missing[end..] == [];
    }
  }

  lemma {:induction false} NoMore(missing: seq<string>, batch: nat, requests: seq<seq<string>>)
    requires batch >= 1
    ensures requests + Batches(missing[|missing|..], batch) == requests
  {
  }

  lemma {:induction false} NoneYet(missing: seq<string>, batch: nat, service: Service, dim: nat)
    requires batch >= 1
    ensures [] + Batches(missing[0..], batch) == Batches(missing, batch) && AllWell([], service, dim) && Sized([], batch)
    ensures missing[..0] == []
  {
    assert missing[0..] == missing;
  }

  lemma {:induction false} SizedSnoc(requests: seq<seq<string>>, chunk: seq<string>, batch: nat)
    requires Sized(requests, batch) && 0 < |chunk| <= batch
    ensures Sized(requests + [chunk], batch)
  {
  }

  lemma {:induction false} WellSnoc(requests: seq<seq<string>>, chunk: seq<string>, service: Service, dim: nat)
    requires AllWell(requests, service, dim)
    requires service(|requests|, chunk).Some? && WellShaped(service(|requests|, chunk).value, |chunk|, dim)
    ensures AllWell(requests + [chunk], service, dim)
  {
    hide WellShaped;
  }

  lemma {:induction false} StopsGood(requests: seq<seq<string>>, service: Service, dim: nat)
    requires AllWell(requests, service, dim)
    ensures StopsAt(requests, service, dim, requests, None)
  {
    hide Trouble;
  }

  lemma {:induction false} StopsBad(requests: seq<seq<string>>, chunk: seq<string>, rest: seq<seq<string>>, service: Service, dim: nat)
    requires AllWell(requests, service, dim) && Trouble(service, |requests|, chunk, dim).Some?
    ensures StopsAt(requests + [chunk] + rest, service, dim, requests + [chunk], Trouble(service, |requests|, chunk, dim))
  {
    hide Trouble;
  }

  function Texts(ts: seq<string>): (r: set<string>)
  {
    set t | t in ts
  }

  /** The texts whose request succeeded: all of them, or all but the last request's. */
  function Answered(requests: seq<seq<string>>, failure: Option<EncodeError>): (ts: seq<string>)
  {
    if failure.None? || requests == [] then Sent(requests) else Sent(requests[..|requests| - 1])
  }

  lemma {:induction false} NothingSent(keys: set<string>, tries: Tries)
    ensures Sent([]) == [] && Sendings([], tries) == 0 && keys + Texts([]) == keys
  {
  }

  lemma {:induction false} Pieces(missing: seq<string>, start: nat, end: nat)
    requires start <= end <= |missing|
    ensures missing[..start] + missing[start..end] == missing[..end] <= missing
  {
  }

  lemma {:induction false} Whole(missing: seq<string>)
    ensures missing[..|missing|] == missing
  {
  }

  lemma {:induction false} TextsConcat(a: seq<string>, b: seq<string>)
    ensures Texts(a + b) == Texts(a) + Texts(b)
  {
  }

  lemma {:induction false} HonestAt(service: Service, f: string -> Vec, dim: nat, n: nat, chunk: seq<string>)
    requires Honest(service, f, dim) && service(n, chunk).Some? && WellShaped(service(n, chunk).value, |chunk|, dim)
    ensures |service(n, chunk).value| == |chunk| && forall k :: 0 <= k < |chunk| ==> service(n, chunk).value[k] == f(chunk[k])
  {
  }

  /** With no texts there is nothing to send, so nothing can fail. */
  lemma {:induction false} NothingMissing(cache: Cache, items: seq<string>)
    ensures items == [] ==> Unknown(items, cache) == []
  {
  }

  lemma {:induction false} SendingsSnoc(requests: seq<seq<string>>, chunk: seq<string>, tries: Tries)
    ensures Sendings(requests + [chunk], tries) == Sendings(requests, tries) + tries(|requests|, chunk)
  {
    assert (requests + [chunk])[..|requests + [chunk]| - 1] == requests;
  }

  lemma {:induction false} SentSnoc(requests: seq<seq<string>>, chunk: seq<string>)
    ensures Sent(requests + [chunk]) == Sent(requests) + chunk && (requests + [chunk])[..|requests|] == requests
  {
    assert (requests + [chunk])[..|requests + [chunk]| - 1] == requests;
  }

  /** `for t, v in zip(chunk, vectors): cache[t] = v`. */
  method Stored(cache: Cache, chunk: seq<string>, vectors: seq<Vec>, ghost f: string -> Vec) returns (r: Cache)
    requires |chunk| == |vectors| && Faithful(cache, f) && forall k :: 0 <= k < |chunk| ==> vectors[k] == f(chunk[k])
    ensures r.Keys == cache.Keys + Texts(chunk) && Faithful(r, f)
  {
    r := cache;
    for k := 0 to |chunk|
      invariant r.Keys == cache.Keys + Texts(chunk[..k]) && Faithful(r, f)
    {
      r := r[chunk[k] := vectors[k]];
      assert chunk[..k + 1] == chunk[..k] + [chunk[k]];
    }
    assert chunk[..|chunk|] == chunk;
  }

  lemma {:induction false} AllCached(items: seq<string>, before: Cache, requests: seq<seq<string>>)
    requires Sent(requests) == Unknown(items, before)
    ensures forall t :: t in NormalAll(items) ==> t in before.Keys + Texts(Answered(requests, None))
  {
    hide Sent, Normal;
    var norm := NormalAll(items);
    assert norm[..|items|] == norm;
  }
}
