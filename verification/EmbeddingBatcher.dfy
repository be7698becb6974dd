/** Batching of embedding requests under a token cap: a greedy loop that is transparent to
    its caller and never uses more requests than necessary. */
module EmbeddingBatcher {
  import opened Domain
  import opened Text

  datatype Result<T> = Ok(value: T) | TooLarge(tokens: nat) | ProviderError

  /** The batch limit, well below the provider's own. */
  const CAP: nat := 200_000

  /** A rough estimate of a text's tokens: one for two runes, and never below its words. */
  function EstimateTokens(text: string): nat {
    if text == "" then 0
    else
      var byRunes := (|text| + 1) / 2;
      if byRunes < |Fields(text)| then |Fields(text)| else byRunes
  }

  function Weight(batch: seq<string>): nat {
    if batch == [] then 0 else EstimateTokens(batch[0]) + Weight(batch[1..])
  }

  predicate AllSmall(texts: seq<string>) {
    forall i :: 0 <= i < |texts| ==> EstimateTokens(texts[i]) <= CAP
  }

  /** How many leading texts fit into the room. */
  function Fit(texts: seq<string>, room: int): (n: nat)
    ensures n <= |texts|
  {
    if texts == [] || EstimateTokens(texts[0]) > room then 0
    else 1 + Fit(texts[1..], room - EstimateTokens(texts[0]))
  }

  function FirstLength(texts: seq<string>): (n: nat)
    requires texts != []
    ensures 1 <= n <= |texts|
  {
    if Fit(texts, CAP) == 0 then 1 else Fit(texts, CAP)
  }

  /** The requests: each takes as many of the remaining texts as fit. */
  function Greedy(texts: seq<string>): seq<seq<string>> {
    if texts == [] then []
    else var n := FirstLength(texts); [texts[..n]] + Greedy(texts[n..])
  }

  /** The estimate is the least number that is half the runes, rounded up, and the words at least. */
  lemma EstimateIsLeast(text: string, n: nat)
    ensures EstimateTokens(text) <= n <==> 2 * n >= |text| && n >= |Fields(text)|
  {
    hide Fields;
    NoWords();
  }

  lemma NoWords()
    ensures Fields("") == []
  {
  }

  /* ---------- Facts about the greedy split ---------- */

  lemma {:induction false} WeightOfConcat(a: seq<string>, b: seq<string>)
    ensures Weight(a + b) == Weight(a) + Weight(b)
  {
    if a == [] {
      assert a + b == b;
    } else {
      assert (a + b)[1..] == a[1..] + b;
      WeightOfConcat(a[1..], b);
    }
  }

  /** `Fit` is the longest prefix within the room. */
  lemma {:induction false} FitIsLongest(texts: seq<string>, room: int, m: nat)
    requires m <= |texts| && room >= 0
    ensures Weight(texts[..m]) <= room <==> m <= Fit(texts, room)
  {
    hide EstimateTokens;
    if m > 0 {
      var first := EstimateTokens(texts[0]);
      assert texts[..m][1..] == texts[1..][..m - 1];
      if first <= room {
        FitIsLongest(texts[1..], room - first, m - 1);
      }
    }
  }

  lemma {:induction false} GreedyIsASplit(texts: seq<string>)
    ensures Flatten(Greedy(texts)) == texts
  {
    hide EstimateTokens, Fit, FirstLength;
    if texts != [] {
      var n := FirstLength(texts);
      GreedyIsASplit(texts[n..]);
      assert Greedy(texts)[1..] == Greedy(texts[n..]);
      assert texts == texts[..n] + texts[n..];
    }
  }

  lemma FirstFits(texts: seq<string>)
    requires texts != [] && AllSmall(texts)
    ensures FirstLength(texts) == Fit(texts, CAP) && Weight(texts[..FirstLength(texts)]) <= CAP
  {
    FitIsLongest(texts, CAP, FirstLength(texts));
  }

  /** Without over-large texts no request is empty or estimated above 200000 tokens, and each is
      followed by another only because the next text would have brought it above that. */
  lemma {:induction false} RequestsAreFull(texts: seq<string>, k: nat)
    requires k < |Greedy(texts)|
    requires forall i :: 0 <= i < |texts| ==> EstimateTokens(texts[i]) <= 200_000
    ensures Greedy(texts)[k] != [] && Weight(Greedy(texts)[k]) <= 200_000
    ensures k + 1 < |Greedy(texts)| ==>
              Greedy(texts)[k + 1] != [] && Weight(Greedy(texts)[k]) + EstimateTokens(Greedy(texts)[k + 1][0]) > 200_000
  {
    hide EstimateTokens, Fit, Weight;
    var n := FirstLength(texts);
    var rest := texts[n..];
    FirstFits(texts);
    if k > 0 {
      RequestsAreFull(rest, k - 1);
    } else if rest != [] {
      RequestsAreFull(rest, 0);
      FitIsLongest(texts, CAP, n + 1);
      assert texts[..n + 1] == texts[..n] + [rest[0]];
      WeightOfOne(texts[..n], rest[0]);
    }
  }

  lemma {:induction false} SuffixNeedsNoMore(texts: seq<string>, k: nat)
    requires AllSmall(texts) && k <= |texts|
    ensures |Greedy(texts[k..])| <= |Greedy(texts)|
    decreases |texts|
  {
    hide EstimateTokens, Fit, Weight;
    if k == 0 {
      assert texts[k..] == texts;
    } else if k < |texts| {
      var n := FirstLength(texts);
      var tail := texts[k..];
      var reach := k + FirstLength(tail);
      assert reach >= n by {
        if k < n {
          FirstFits(texts);
          assert texts[..n] == texts[..k] + tail[..n - k];
          WeightOfConcat(texts[..k], tail[..n - k]);
          FitIsLongest(tail, CAP, n - k);
        }
      }
      if k >= n {
        assert texts[n..][k - n..] == tail;
        SuffixNeedsNoMore(texts[n..], k - n);
      } else {
        assert tail[reach - k..] == texts[n..][reach - n..];
        SuffixNeedsNoMore(texts[n..], reach - n);
      }
    }
  }

  /** No contiguous split of the texts into batches within the cap uses fewer requests. */
  lemma {:induction false} GreedyIsOptimal(texts: seq<string>, split: seq<seq<string>>)
    requires Flatten(split) == texts
    requires forall k :: 0 <= k < |split| ==> Weight(split[k]) <= CAP
    requires AllSmall(texts)
    ensures |Greedy(texts)| <= |split|
    decreases |split|
  {
    hide EstimateTokens, Fit, Weight;
    if split != [] && texts != [] {
      var m := |split[0]|;
      var n := FirstLength(texts);
      assert texts[..m] == split[0] && texts[m..] == Flatten(split[1..]);
      FitIsLongest(texts, CAP, m);
      FirstFits(texts);
      GreedyIsOptimal(texts[m..], split[1..]);
      assert texts[m..][n - m..] == texts[n..];
      SuffixNeedsNoMore(texts[m..], n - m);
    }
  }

  /* ---------- The requests made one text at a time ---------- */

  lemma {:induction false} FitOfConcat(batch: seq<string>, rest: seq<string>, room: int)
    requires Weight(batch) <= room
    ensures Fit(batch + rest, room) == |batch| + Fit(rest, room - Weight(batch))
  {
    hide EstimateTokens;
    if batch == [] {
      assert batch + rest == rest;
    } else {
      assert (batch + rest)[1..] == batch[1..] + rest;
      FitOfConcat(batch[1..], rest, room - EstimateTokens(batch[0]));
    }
  }

  /** A batch that the next text no longer fits behind is the next request. */
  lemma BatchIsNext(batch: seq<string>, rest: seq<string>)
    requires batch != [] && Weight(batch) <= CAP
    requires rest == [] || Weight(batch) + EstimateTokens(rest[0]) > CAP
    ensures Greedy(batch + rest) == [batch] + Greedy(rest)
  {
    hide EstimateTokens, Weight;
    FitOfConcat(batch, rest, CAP);
    assert (batch + rest)[..|batch|] == batch;
    assert (batch + rest)[|batch|..] == rest;
  }

  /* ---------- The embedder ---------- */

  /** What the provider answers to the k-th request, or nothing when the call fails. */
  type Provider = (nat, seq<string>) -> Result<seq<Vector>>

  /** All answers put together, unless one of them is an error. */
  function Collect(provider: Provider, requests: seq<seq<string>>): seq<Vector> {
    if requests == [] then []
    else
      var k := |requests| - 1;
      Collect(provider, requests[..k]) +
      (match provider(k, requests[k]) case Ok(data) => data case _ => [])
  }

  predicate Answered(provider: Provider, requests: seq<seq<string>>) {
    forall k :: 0 <= k < |requests| ==> provider(k, requests[k]).Ok?
  }

  method Flush(provider: Provider, out: seq<Vector>, batch: seq<string>, requests: seq<seq<string>>)
    returns (out': seq<Vector>, requests': seq<seq<string>>, failed: bool)
    requires Answered(provider, requests) && out == Collect(provider, requests)
    ensures requests' == if batch == [] then requests else requests + [batch]
    ensures failed <==> !Answered(provider, requests')
    ensures !failed ==> out' == Collect(provider, requests')
  {
    out', requests', failed := out, requests, false;
    if |batch| == 0 {
      return;
    }
    requests' := requests + [batch];
    assert requests'[..|requests|] == requests;
    var resp := provider(|requests|, batch);
    assert requests'[|requests|] == batch;
    match resp {
      case Ok(data) =>
        for i := 0 to |data|
          invariant out' == out + data[..i]
        {
          out' := out' + [data[i]];
        }
        assert data[..|data|] == data;
      case _ =>
        failed := true;
    }
  }

  /** Between two texts: what was sent, what is batched and what is still to come make up the
      greedy split. */
  ghost predicate Sending(provider: Provider, all: seq<seq<string>>, batch: seq<string>, rest: seq<string>,
                          batchTokens: nat, out: seq<Vector>, requests: seq<seq<string>>) {
    && batchTokens == Weight(batch) <= CAP
    && all == requests + Greedy(batch + rest)
    && Answered(provider, requests) && out == Collect(provider, requests)
    && AllSent(requests)
  }

  ghost predicate AllSent(requests: seq<seq<string>>) {
    forall k :: 0 <= k < |requests| ==> requests[k] != [] && Weight(requests[k]) <= CAP
  }

  /** Makes room for the next text, if it no longer fits. */
  method FlushIfFull(provider: Provider, text: string, batch: seq<string>, batchTokens: nat, out: seq<Vector>,
                     requests: seq<seq<string>>, ghost all: seq<seq<string>>, ghost rest: seq<string>)
    returns (batch': seq<string>, batchTokens': nat, out': seq<Vector>, requests': seq<seq<string>>, failed: bool)
    requires Sending(provider, all, batch, [text] + rest, batchTokens, out, requests) && EstimateTokens(text) <= CAP
    ensures requests' <= all && AllSent(requests') && (failed <==> !Answered(provider, requests'))
    ensures !failed ==> Sending(provider, all, batch', [text] + rest, batchTokens', out', requests')
    ensures !failed ==> Weight(batch') + EstimateTokens(text) <= CAP
  {
    hide EstimateTokens, Greedy, Fit, Collect, Weight, Answered;
    batch', batchTokens', out', requests', failed := batch, batchTokens, out, requests, false;
    if batchTokens + EstimateTokens(text) > CAP && |batch| > 0 {
      BatchIsNext(batch, [text] + rest);
      Assoc(requests, [batch], Greedy([text] + rest));
      out', requests', failed := Flush(provider, out, batch, requests);
      batch', batchTokens' := [], 0;
      NoTexts(provider);
      assert [] + ([text] + rest) == [text] + rest;
    } else if |batch| == 0 {
      NoTexts(provider);
    }
  }

  /** The requests sent are, in order, those of the greedy split: all of them when the call
      succeeds, and otherwise those up to the one that failed or up to an over-large text. */
  method Embed(provider: Provider, texts: seq<string>) returns (r: Result<seq<Vector>>, requests: seq<seq<string>>)
    ensures r.Ok? <==> AllSmall(texts) && Answered(provider, Greedy(texts))
    ensures r.Ok? ==> requests == Greedy(texts) && r.value == Collect(provider, requests)
    ensures requests <= Greedy(texts) && AllSent(requests)
    ensures r.ProviderError? <==> !Answered(provider, requests)
    ensures r.TooLarge? ==>
              exists i :: 0 <= i < |texts| && AllSmall(texts[..i]) && r.tokens == EstimateTokens(texts[i]) > 200_000
  {
    hide EstimateTokens, Greedy, Fit, Collect, Weight, Answered, Sending;
    requests := [];
    NoTexts(provider);
    if |texts| == 0 {
      return Ok([]), [];
    }
    var out: seq<Vector>, batch: seq<string>, batchTokens: nat := [], [], 0;
    ghost var all := Greedy(texts);
    NothingSent(provider, texts);
    for i := 0 to |texts|
      invariant i > 0 ==> batch != []
      invariant Sending(provider, all, batch, texts[i..], batchTokens, out, requests)
      invariant AllSmall(texts[..i])
    {
      var text := texts[i];
      var tokens := EstimateTokens(text);
      if tokens > CAP {
        SentSoFar(provider, all, batch, texts[i..], batchTokens, out, requests);
        assert !AllSmall(texts);
        return TooLarge(tokens), requests;
      }
      ghost var rest := texts[i + 1..];
      assert texts[i..] == [text] + rest;
      var failed;
      batch, batchTokens, out, requests, failed := FlushIfFull(provider, text, batch, batchTokens, out, requests, all, rest);
      if failed {
        NotAnswered(provider, requests, all);
        return ProviderError, requests;
      }
      TextBatched(provider, all, batch, text, rest, batchTokens, out, requests);
      batch := batch + [text];
      batchTokens := batchTokens + tokens;
      assert AllSmall(texts[..i + 1]);
    }
    assert texts[..|texts|] == texts && texts[|texts|..] == [];
    LastBatch(provider, all, batch, batchTokens, out, requests);
    var failed;
    out, requests, failed := Flush(provider, out, batch, requests);
    if failed {
      return ProviderError, requests;
    }
    return Ok(out), requests;
  }

  lemma NothingSent(provider: Provider, texts: seq<string>)
    ensures Sending(provider, Greedy(texts), [], texts[0..], 0, [], [])
  {
    hide Greedy;
    assert [] + texts[0..] == texts;
  }

  lemma SentSoFar(provider: Provider, all: seq<seq<string>>, batch: seq<string>, rest: seq<string>,
                  batchTokens: nat, out: seq<Vector>, requests: seq<seq<string>>)
    requires Sending(provider, all, batch, rest, batchTokens, out, requests)
    ensures requests <= all && AllSent(requests) && Answered(provider, requests)
  {
    hide Greedy, Collect, Weight;
  }

  /** The next text joins a batch that has room for it. */
  lemma TextBatched(provider: Provider, all: seq<seq<string>>, batch: seq<string>, text: string, rest: seq<string>,
                    batchTokens: nat, out: seq<Vector>, requests: seq<seq<string>>)
    requires Sending(provider, all, batch, [text] + rest, batchTokens, out, requests)
    requires Weight(batch) + EstimateTokens(text) <= CAP
    ensures Sending(provider, all, batch + [text], rest, batchTokens + EstimateTokens(text), out, requests)
  {
    hide Greedy, Collect, Weight, EstimateTokens, Answered;
    WeightOfOne(batch, text);
    Assoc(batch, [text], rest);
  }

  /** When no text is left, one request is. */
  lemma LastBatch(provider: Provider, all: seq<seq<string>>, batch: seq<string>, batchTokens: nat, out: seq<Vector>,
                  requests: seq<seq<string>>)
    requires Sending(provider, all, batch, [], batchTokens, out, requests) && batch != []
    ensures all == requests + [batch] && AllSent(all)
    ensures Answered(provider, requests) && out == Collect(provider, requests)
  {
    hide Collect, Weight, EstimateTokens, Answered;
    BatchIsNext(batch, []);
    assert batch + [] == batch;
  }

  lemma NoTexts(provider: Provider)
    ensures Greedy([]) == [] && Collect(provider, []) == [] && Weight([]) == 0
    ensures Answered(provider, [])
  {
  }

  lemma WeightOfOne(batch: seq<string>, text: string)
    ensures Weight(batch + [text]) == Weight(batch) + EstimateTokens(text)
  {
    WeightOfConcat(batch, [text]);
    assert [text][1..] == [];
  }

  lemma NotAnswered(provider: Provider, some: seq<seq<string>>, all: seq<seq<string>>)
    requires some <= all && !Answered(provider, some)
    ensures !Answered(provider, all)
  {
  }

  /* ---------- Transparency ---------- */

  function Vectors(vec: string -> Vector, texts: seq<string>): seq<Vector> {
    seq(|texts|, i requires 0 <= i < |texts| => vec(texts[i]))
  }

  lemma {:induction false} CollectIsPerText(provider: Provider, vec: string -> Vector, requests: seq<seq<string>>)
    requires forall k :: 0 <= k < |requests| ==> provider(k, requests[k]) == Ok(Vectors(vec, requests[k]))
    ensures Collect(provider, requests) == Vectors(vec, Flatten(requests))
  {
    if requests != [] {
      var k := |requests| - 1;
      CollectIsPerText(provider, vec, requests[..k]);
      assert requests == requests[..k] + [requests[k]];
      FlattenAppend(requests[..k], [requests[k]]);
      assert [requests[k]][1..] == [];
      assert Flatten([requests[k]]) == requests[k];
    }
  }

  /** When each request that is sent is answered with one vector per text, output i is the vector
      of text i, however the texts were batched. */
  lemma BatchingIsTransparent(provider: Provider, vec: string -> Vector, texts: seq<string>)
    requires var sent := Greedy(texts);
             forall k :: 0 <= k < |sent| ==> provider(k, sent[k]) == Ok(Vectors(vec, sent[k]))
    ensures Answered(provider, Greedy(texts))
    ensures Collect(provider, Greedy(texts)) == Vectors(vec, texts)
  {
    GreedyIsASplit(texts);
    CollectIsPerText(provider, vec, Greedy(texts));
  }

  /* ---------- Answers of any length ---------- */

  function AnswerTo(provider: Provider, requests: seq<seq<string>>, k: nat): seq<Vector>
    requires Answered(provider, requests) && k < |requests|
  {
    provider(k, requests[k]).value
  }

  /** Where the texts of the k-th request stand among all the texts. */
  function TextStart(requests: seq<seq<string>>, k: nat): nat
    requires k <= |requests|
  {
    |Flatten(requests[..k])|
  }

  /** Where the vectors it was answered with stand in the output. */
  function VectorStart(provider: Provider, requests: seq<seq<string>>, k: nat): nat
    requires k <= |requests|
  {
    |Collect(provider, requests[..k])|
  }

  lemma VectorsNext(provider: Provider, requests: seq<seq<string>>, k: nat)
    requires Answered(provider, requests) && k < |requests|
    ensures Collect(provider, requests[..k + 1]) == Collect(provider, requests[..k]) + AnswerTo(provider, requests, k)
  {
    assert requests[..k + 1][..k] == requests[..k];
  }

  lemma TextsNext(requests: seq<seq<string>>, k: nat)
    requires k < |requests|
    ensures Flatten(requests[..k + 1]) == Flatten(requests[..k]) + requests[k]
  {
    assert requests[..k + 1] == requests[..k] + [requests[k]];
    FlattenAppend(requests[..k], [requests[k]]);
    assert [requests[k]][1..] == [];
    assert Flatten([requests[k]]) == requests[k];
  }

  /** The texts of the k-th request stand where they are said to. */
  lemma {:induction false} TextsStand(requests: seq<seq<string>>, k: nat, n: nat)
    requires k < n <= |requests|
    ensures var t := TextStart(requests, k);
            && t + |requests[k]| <= |Flatten(requests[..n])|
            && Flatten(requests[..n])[t..t + |requests[k]|] == requests[k]
    decreases n
  {
    TextsNext(requests, n - 1);
    hide Flatten;
    if k < n - 1 {
      TextsStand(requests, k, n - 1);
      KeepsSlice(Flatten(requests[..n - 1]), requests[n - 1], TextStart(requests, k), |requests[k]|);
    }
  }

  /** And so do the vectors it was answered with. */
  lemma {:induction false} VectorsStand(provider: Provider, requests: seq<seq<string>>, k: nat, n: nat)
    requires Answered(provider, requests) && k < n <= |requests|
    ensures var v, answer := VectorStart(provider, requests, k), AnswerTo(provider, requests, k);
            && v + |answer| <= |Collect(provider, requests[..n])|
            && Collect(provider, requests[..n])[v..v + |answer|] == answer
    decreases n
  {
    VectorsNext(provider, requests, n - 1);
    hide Collect, Answered;
    if k < n - 1 {
      VectorsStand(provider, requests, k, n - 1);
      KeepsSlice(Collect(provider, requests[..n - 1]), AnswerTo(provider, requests, n - 1),
                 VectorStart(provider, requests, k), |AnswerTo(provider, requests, k)|);
    }
  }

  lemma KeepsSlice<T>(s: seq<T>, more: seq<T>, from: nat, length: nat)
    requires from + length <= |s|
    ensures (s + more)[from..from + length] == s[from..from + length]
  {
  }

  /** The vectors of the k-th request begin where its texts do. */
  predicate Aligned(provider: Provider, requests: seq<seq<string>>, k: nat)
    requires k <= |requests|
  {
    VectorStart(provider, requests, k) == TextStart(requests, k)
  }

  predicate InFull(provider: Provider, requests: seq<seq<string>>, k: nat)
    requires Answered(provider, requests) && k < |requests|
  {
    |AnswerTo(provider, requests, k)| == |requests[k]|
  }

  /** The service only logs it when an answer has another length than its request. The vectors of
      all requests up to the n-th begin where their texts do exactly when each request before it
      was answered with as many vectors as it had texts; otherwise vectors are taken for those of
      other texts. */
  lemma {:induction false} AlignedIff(provider: Provider, requests: seq<seq<string>>, n: nat)
    requires Answered(provider, requests) && n <= |requests|
    ensures (forall k :: 0 <= k <= n ==> Aligned(provider, requests, k)) <==>
            (forall k :: 0 <= k < n ==> InFull(provider, requests, k))
  {
    if n == 0 {
      assert requests[..0] == [];
    } else {
      AlignedIff(provider, requests, n - 1);
      VectorsNext(provider, requests, n - 1);
      TextsNext(requests, n - 1);
      hide Collect, Flatten, Answered, AnswerTo;
      assert Aligned(provider, requests, n - 1) ==>
          (Aligned(provider, requests, n) <==> InFull(provider, requests, n - 1));
    }
  }
}
