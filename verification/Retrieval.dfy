/** Similarity search over the chunks of documents, and the final cut made for an answer. */
module Retrieval {
  import opened Documents
  import opened Domain
  import opened Ranking

  datatype Chunk = Chunk(document: DocId, index: nat, content: string, embedding: Vector, createdAt: int)

  datatype Hit = Hit(chunk: Chunk, document: Document)

  /** An empty list of ids or statuses does not restrict the search. */
  datatype Filter = Filter(documents: seq<DocId>, statuses: seq<Status>) {
    predicate Allows(doc: Document) {
      && (documents != [] ==> doc.id in documents)
      && (statuses != [] ==> doc.status in statuses)
    }
  }

  function ScoreChunks(sqrt: real -> real, query: Vector, doc: Document, chunks: seq<Chunk>): seq<Scored<Hit>> {
    if chunks == [] then []
    else ScoreChunks(sqrt, query, doc, chunks[..|chunks| - 1]) +
         [Scored(Hit(chunks[|chunks| - 1], doc), Cosine(sqrt, query, chunks[|chunks| - 1].embedding))]
  }

  /** The candidates of some documents, in the order the documents are visited. */
  function Candidates(sqrt: real -> real, query: Vector, docs: map<DocId, Document>,
                      data: map<DocId, seq<Chunk>>, order: seq<DocId>): seq<Scored<Hit>>
    requires forall d :: d in order ==> d in docs && d in data
  {
    if order == [] then []
    else
      var d := order[|order| - 1];
      Candidates(sqrt, query, docs, data, order[..|order| - 1]) + ScoreChunks(sqrt, query, docs[d], data[d])
  }

  /** Each document that passes the filters, once. */
  ghost predicate Visits(order: seq<DocId>, docs: map<DocId, Document>, data: map<DocId, seq<Chunk>>,
                         user: int, filter: Filter) {
    && (forall i, j :: 0 <= i < j < |order| ==> order[i] != order[j])
    && (forall d :: d in order <==> d in data && d in docs && docs[d].user == user && filter.Allows(docs[d]))
  }

  /** The outcome of a search: the chunks of the visited documents, best first, for some order
      of the visits. */
  ghost predicate Found(sqrt: real -> real, query: Vector, docs: map<DocId, Document>, data: map<DocId, seq<Chunk>>,
                        user: int, filter: Filter, results: seq<Scored<Hit>>) {
    exists order :: Visits(order, docs, data, user, filter)
                    && TopK(Candidates(sqrt, query, docs, data, order), results, 0)
  }

  class ChunkRepository {
    var docs: map<DocId, Document>
    var data: map<DocId, seq<Chunk>>

    ghost predicate Valid()
      reads this
    {
      forall d :: d in docs ==> docs[d].id == d
    }

    /** Every chunk of every document that passes, best first. The documents are visited in
        an arbitrary order. */
    method SearchSimilar(sqrt: real -> real, user: int, query: Vector, filter: Filter)
      returns (results: seq<Scored<Hit>>)
      requires Valid()
      ensures Found(sqrt, query, docs, data, user, filter, results)
    {
      hide TopK, Cosine, Candidates, ScoreChunks;
      NoVisits(sqrt, query, docs, data);
      results := [];
      ghost var order: seq<DocId> := [];
      var pending := data.Keys;
      while pending != {}
        invariant pending <= data.Keys
        invariant forall i, j :: 0 <= i < j < |order| ==> order[i] != order[j]
        invariant forall d :: d in order <==> d in data.Keys - pending && Passes(d, user, filter)
        invariant forall d :: d in order ==> d in docs && d in data
        invariant results == Candidates(sqrt, query, docs, data, order)
        decreases pending
      {
        var docID :| docID in pending;
        pending := pending - {docID};
        if |filter.documents| > 0 && docID !in filter.documents {
          continue;
        }
        if docID !in docs || docs[docID].user != user {
          continue;
        }
        var doc := docs[docID];
        if |filter.statuses| > 0 && doc.status !in filter.statuses {
          continue;
        }
        results := AppendScores(sqrt, query, doc, data[docID], results);
        OneMoreVisit(sqrt, query, docs, data, order, docID);
        order := order + [docID];
      }
      results := Rank(results, 0);
      assert Visits(order, docs, data, user, filter);
    }

    /** Every chunk of one document. */
    method AppendScores(sqrt: real -> real, query: Vector, doc: Document, chunks: seq<Chunk>, before: seq<Scored<Hit>>)
      returns (results: seq<Scored<Hit>>)
      ensures results == before + ScoreChunks(sqrt, query, doc, chunks)
    {
      results := before;
      for i := 0 to |chunks|
        invariant results == before + ScoreChunks(sqrt, query, doc, chunks[..i])
      {
        assert chunks[..i + 1][..i] == chunks[..i];
        var score := CosineSimilarity(sqrt, query, chunks[i].embedding);
        results := results + [Scored(Hit(chunks[i], doc), score)];
      }
      assert chunks[..|chunks|] == chunks;
    }

    predicate Passes(d: DocId, user: int, filter: Filter)
      reads this
    {
      d in docs && docs[d].user == user && filter.Allows(docs[d])
    }
  }

  lemma NoVisits(sqrt: real -> real, query: Vector, docs: map<DocId, Document>, data: map<DocId, seq<Chunk>>)
    ensures Candidates(sqrt, query, docs, data, []) == []
  {
  }

  lemma OneMoreVisit(sqrt: real -> real, query: Vector, docs: map<DocId, Document>, data: map<DocId, seq<Chunk>>,
                     order: seq<DocId>, d: DocId)
    requires forall d' :: d' in order + [d] ==> d' in docs && d' in data
    ensures Candidates(sqrt, query, docs, data, order + [d]) ==
            Candidates(sqrt, query, docs, data, order) + ScoreChunks(sqrt, query, docs[d], data[d])
  {
    assert (order + [d])[..|order|] == order;
  }

  /* ---------- What a search returns ---------- */

  lemma {:induction false} ScoredChunks(sqrt: real -> real, query: Vector, doc: Document, chunks: seq<Chunk>, x: Scored<Hit>)
    ensures x in ScoreChunks(sqrt, query, doc, chunks) <==>
              && x.item.document == doc && x.item.chunk in chunks
              && x.score == Cosine(sqrt, query, x.item.chunk.embedding)
  {
    if chunks != [] {
      var n := |chunks| - 1;
      ScoredChunks(sqrt, query, doc, chunks[..n], x);
      assert chunks == chunks[..n] + [chunks[n]];
      assert x == Scored(x.item, x.score) && x.item == Hit(x.item.chunk, x.item.document);
    }
  }

  lemma {:induction false} CandidateIs(sqrt: real -> real, query: Vector, docs: map<DocId, Document>,
                                       data: map<DocId, seq<Chunk>>, order: seq<DocId>, x: Scored<Hit>)
    requires forall d :: d in order ==> d in docs && d in data
    ensures x in Candidates(sqrt, query, docs, data, order) <==>
              exists d :: d in order && x.item.document == docs[d] && x.item.chunk in data[d]
                && x.score == Cosine(sqrt, query, x.item.chunk.embedding)
  {
    if order != [] {
      var n := |order| - 1;
      var d := order[n];
      CandidateIs(sqrt, query, docs, data, order[..n], x);
      ScoredChunks(sqrt, query, docs[d], data[d], x);
      assert order == order[..n] + [d];
    }
  }

  /** A search returns exactly the chunks of the user's documents that pass the filter, each
      with its cosine score. */
  lemma SearchReturnsExactly(sqrt: real -> real, query: Vector, docs: map<DocId, Document>,
                             data: map<DocId, seq<Chunk>>, user: int, filter: Filter,
                             results: seq<Scored<Hit>>, x: Scored<Hit>)
    requires Found(sqrt, query, docs, data, user, filter, results)
    ensures x in results <==>
              exists d :: d in data && d in docs && docs[d].user == user
                && (filter.documents != [] ==> docs[d].id in filter.documents)
                && (filter.statuses != [] ==> docs[d].status in filter.statuses)
                && x.item.document == docs[d] && x.item.chunk in data[d]
                && x.score == Cosine(sqrt, query, x.item.chunk.embedding)
  {
    var order :| Visits(order, docs, data, user, filter)
                 && TopK(Candidates(sqrt, query, docs, data, order), results, 0);
    var cands := Candidates(sqrt, query, docs, data, order);
    CandidateIs(sqrt, query, docs, data, order, x);
    SubMultisetOfSameSize(multiset(results), multiset(cands));
    assert x in results <==> x in multiset(results);
    assert x in cands <==> x in multiset(cands);
  }

  lemma OneMore<T>(s: seq<T>, y: T, x: T)
    ensures multiset(s + [y])[x] == multiset(s)[x] + if y == x then 1 else 0
  {
  }

  lemma {:induction false} ChunkCount(sqrt: real -> real, query: Vector, doc: Document, chunks: seq<Chunk>, x: Scored<Hit>)
    ensures multiset(ScoreChunks(sqrt, query, doc, chunks))[x] ==
            if x.item.document == doc && x.score == Cosine(sqrt, query, x.item.chunk.embedding)
            then multiset(chunks)[x.item.chunk] else 0
  {
    hide Cosine;
    if chunks != [] {
      var n := |chunks| - 1;
      ChunkCount(sqrt, query, doc, chunks[..n], x);
      var y := Scored(Hit(chunks[n], doc), Cosine(sqrt, query, chunks[n].embedding));
      OneMore(ScoreChunks(sqrt, query, doc, chunks[..n]), y, x);
      OneMore(chunks[..n], chunks[n], x.item.chunk);
      assert chunks == chunks[..n] + [chunks[n]];
      assert x == Scored(x.item, x.score) && x.item == Hit(x.item.chunk, x.item.document);
    }
  }

  /** Each document is visited once, so each chunk is scored as often as it is stored. */
  lemma {:induction false} CandidateCount(sqrt: real -> real, query: Vector, docs: map<DocId, Document>,
                                          data: map<DocId, seq<Chunk>>, order: seq<DocId>, x: Scored<Hit>)
    requires forall d :: d in order ==> d in docs && d in data && docs[d].id == d
    requires forall i, j :: 0 <= i < j < |order| ==> order[i] != order[j]
    ensures multiset(Candidates(sqrt, query, docs, data, order))[x] ==
            var d := x.item.document.id;
            if d in order && docs[d] == x.item.document && x.score == Cosine(sqrt, query, x.item.chunk.embedding)
            then multiset(data[d])[x.item.chunk] else 0
  {
    hide Cosine, ScoreChunks;
    if order != [] {
      var n := |order| - 1;
      assert order == order[..n] + [order[n]];
      CandidateCount(sqrt, query, docs, data, order[..n], x);
      ChunkCount(sqrt, query, docs[order[n]], data[order[n]], x);
    }
  }

  /** How often a search returns a chunk: as often as it is stored when its document is one of the
      user's that pass the filter, and otherwise not at all. */
  lemma SearchCounts(sqrt: real -> real, query: Vector, docs: map<DocId, Document>,
                     data: map<DocId, seq<Chunk>>, user: int, filter: Filter,
                     results: seq<Scored<Hit>>, x: Scored<Hit>)
    requires Found(sqrt, query, docs, data, user, filter, results) && forall d :: d in docs ==> docs[d].id == d
    ensures multiset(results)[x] ==
            var d := x.item.document.id;
            if d in data && d in docs && docs[d] == x.item.document && docs[d].user == user
               && (filter.documents != [] ==> d in filter.documents)
               && (filter.statuses != [] ==> docs[d].status in filter.statuses)
               && x.score == Cosine(sqrt, query, x.item.chunk.embedding)
            then multiset(data[d])[x.item.chunk] else 0
  {
    hide Cosine, Candidates;
    var order :| Visits(order, docs, data, user, filter)
                 && TopK(Candidates(sqrt, query, docs, data, order), results, 0);
    CandidateCount(sqrt, query, docs, data, order, x);
    SubMultisetOfSameSize(multiset(results), multiset(Candidates(sqrt, query, docs, data, order)));
  }

  lemma SubMultisetOfSameSize<T>(a: multiset<T>, b: multiset<T>)
    requires a <= b && |a| == |b|
    ensures a == b
  {
    assert b == a + (b - a);
    assert |b - a| == 0;
  }

  /** The cut for an answer keeps the best of what the search returned. */
  method CutForAnswer(results: seq<Scored<Hit>>, topK: int, maxRetrieved: int, ghost cands: seq<Scored<Hit>>, ghost cap: int)
    returns (kept: seq<Scored<Hit>>)
    requires TopK(cands, results, cap)
    ensures var wanted := if topK > 0 then topK else if maxRetrieved > 0 then maxRetrieved else 8;
            if |results| > wanted then TopK(cands, kept, wanted) else kept == results
  {
    var wanted := topK;
    if wanted <= 0 {
      wanted := maxRetrieved;
      if wanted <= 0 {
        wanted := 8;
      }
    }
    kept := results;
    if |results| > wanted {
      TopOfTop(cands, results, cap, wanted);
      kept := results[..wanted];
    }
  }
}
