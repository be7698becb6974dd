/** The answer cache of the smart FAQ, with an optional time to live. */
module AnswerCache {
  import opened Wrappers

  datatype AnswerRecord = AnswerRecord(question: int, text: string, createdAt: int)

  /** Without an expiry the answer is kept for ever. */
  datatype Cached = Cached(answer: AnswerRecord, expiresAt: Option<int>)

  type Cache = map<int, Cached>

  predicate Expired(c: Cached, now: int) {
    c.expiresAt.Some? && c.expiresAt.value < now
  }

  function Lookup(cache: Cache, id: int, now: int): Option<AnswerRecord> {
    if id > 0 && id in cache && !Expired(cache[id], now) then Some(cache[id].answer) else None
  }

  /** Looking an expired answer up drops it. */
  function AfterLookup(cache: Cache, id: int, now: int): Cache {
    if id > 0 && id in cache && Expired(cache[id], now) then cache - {id} else cache
  }

  function Saved(cache: Cache, answer: AnswerRecord, ttl: int, now: int): Cache {
    cache[answer.question := Cached(answer, if ttl > 0 then Some(now + ttl) else None)]
  }

  /** A saved answer is found, and by every lookup until its time to live has passed; a lookup later
      than that drops it, and no other answer is affected. */
  lemma SavedIsFound(cache: Cache, answer: AnswerRecord, ttl: int, at: int, id: int, now: int)
    requires answer.question > 0
    ensures var saved := Saved(cache, answer, ttl, at);
            var live := ttl <= 0 || now <= at + ttl;
            && Lookup(saved, answer.question, now) == (if live then Some(answer) else None)
            && AfterLookup(saved, answer.question, now) == (if live then saved else cache - {answer.question})
            && (id != answer.question ==> Lookup(saved, id, now) == Lookup(cache, id, now))
  {
    assert cache[answer.question := Cached(answer, None)] - {answer.question} == cache - {answer.question};
    if ttl > 0 {
      assert Saved(cache, answer, ttl, at) - {answer.question} == cache - {answer.question};
    }
  }

  class MemoryStore {
    var answers: Cache

    constructor ()
      ensures answers == map[]
    {
      answers := map[];
    }

    method GetAnswer(id: int, now: int) returns (r: Option<AnswerRecord>)
      modifies this
      ensures r == Lookup(old(answers), id, now)
      ensures answers == AfterLookup(old(answers), id, now)
    {
      if id <= 0 || id !in answers {
        return None;
      }
      var record := answers[id];
      if Expired(record, now) {
        answers := answers - {id};
        return None;
      }
      return Some(record.answer);
    }

    method SaveAnswer(answer: AnswerRecord, ttl: int, now: int)
      modifies this
      ensures answers == Saved(old(answers), answer, ttl, now)
    {
      var exp := None;
      if ttl > 0 {
        exp := Some(now + ttl);
      }
      answers := answers[answer.question := Cached(answer, exp)];
    }
  }
}
