/** Concurrent use of the answer cache. A lookup takes the lock twice: once to read, and once
    more to drop what it read if that has expired. Saves and other lookups come in between. */
module AnswerRaces {

  import opened Wrappers
  import opened AnswerCache

  /** A lookup between its two sections: what it read, and how many saves there were by then. */
  datatype Read = Read(id: int, entry: Cached, saves: nat)

  datatype Hit = Hit(id: int, answer: AnswerRecord, entry: Cached, now: int)

  /** `saves` lists every entry ever saved, `hits` every lookup that found something. */
  datatype State = State(cache: Cache, pending: map<nat, Read>, saves: seq<Cached>, hits: seq<Hit>)

  datatype Step =
    | Save(answer: AnswerRecord, ttl: int, at: int)
    | Begin(getter: nat, id: int)
    | End(getter: nat, now: int)

  const START := State(map[], map[], [], [])

  /** A getter starts one lookup at a time; one that finds nothing ends with its first section. */
  predicate Possible(s: State, step: Step) {
    match step
    case Save(_, _, _) => true
    case Begin(g, _) => g !in s.pending
    case End(g, _) => g in s.pending
  }

  function EntryOf(answer: AnswerRecord, ttl: int, at: int): Cached {
    Cached(answer, if ttl > 0 then Some(at + ttl) else None)
  }

  function Next(s: State, step: Step): State
    requires Possible(s, step)
  {
    match step
    case Save(answer, ttl, at) =>
      s.(cache := Saved(s.cache, answer, ttl, at), saves := s.saves + [EntryOf(answer, ttl, at)])
    case Begin(g, id) =>
      if id > 0 && id in s.cache then s.(pending := s.pending[g := Read(id, s.cache[id], |s.saves|)]) else s
    case End(g, now) =>
      var r := s.pending[g];
      var s := s.(pending := s.pending - {g});
      if Expired(r.entry, now) then s.(cache := s.cache - {r.id})
      else s.(hits := s.hits + [Hit(r.id, r.entry.answer, r.entry, now)])
  }

  /** The state after a run; events that cannot happen when they are due are skipped. */
  function After(steps: seq<Step>): State {
    if steps == [] then START
    else
      var before := After(steps[..|steps| - 1]);
      var step := steps[|steps| - 1];
      if Possible(before, step) then Next(before, step) else before
  }

  /** Some save from the `from`-th on saved this entry for this question. */
  ghost predicate SavedSince(s: State, id: int, entry: Cached, from: nat) {
    exists k :: from <= k < |s.saves| && s.saves[k] == entry && entry.answer.question == id
  }

  /** What a lookup has read is what the cache still holds, unless it was saved over or dropped. */
  ghost predicate ReadIsCurrent(s: State, r: Read) {
    && 0 < r.id && r.saves <= |s.saves| && SavedSince(s, r.id, r.entry, 0)
    && (r.id in s.cache ==> s.cache[r.id] == r.entry || SavedSince(s, r.id, s.cache[r.id], r.saves))
  }

  ghost predicate GoodHit(s: State, h: Hit) {
    SavedSince(s, h.id, h.entry, 0) && h.answer == h.entry.answer && !Expired(h.entry, h.now)
  }

  ghost predicate Good(s: State) {
    && (forall id :: id in s.cache ==> SavedSince(s, id, s.cache[id], 0))
    && (forall g :: g in s.pending ==> ReadIsCurrent(s, s.pending[g]))
    && (forall k :: 0 <= k < |s.hits| ==> GoodHit(s, s.hits[k]))
  }

  lemma SavedMore(s: State, entry: Cached, id: int, e: Cached, from: nat)
    requires SavedSince(s, id, e, from)
    ensures SavedSince(s.(saves := s.saves + [entry]), id, e, from)
  {
    var k :| from <= k < |s.saves| && s.saves[k] == e;
    assert (s.saves + [entry])[k] == e;
  }

  lemma SavedLast(s: State, entry: Cached, from: nat)
    requires from <= |s.saves|
    ensures SavedSince(s.(saves := s.saves + [entry]), entry.answer.question, entry, from)
  {
    assert (s.saves + [entry])[|s.saves|] == entry;
  }

  lemma SaveKeepsGood(s: State, answer: AnswerRecord, ttl: int, at: int)
    requires Good(s)
    ensures Good(Next(s, Save(answer, ttl, at)))
  {
    hide SavedSince;
    var entry := EntryOf(answer, ttl, at);
    var mid := s.(saves := s.saves + [entry]);
    var s' := Next(s, Save(answer, ttl, at));
    forall id, e, from | SavedSince(s, id, e, from)
      ensures SavedSince(s', id, e, from)
    {
      SavedMore(s, entry, id, e, from);
      SameSaves(mid, s', id, e, from);
    }
    forall from: nat | from <= |s.saves|
      ensures SavedSince(s', answer.question, entry, from)
    {
      SavedLast(s, entry, from);
      SameSaves(mid, s', answer.question, entry, from);
    }
  }

  lemma SameSaves(s: State, t: State, id: int, e: Cached, from: nat)
    requires s.saves == t.saves
    ensures SavedSince(s, id, e, from) <==> SavedSince(t, id, e, from)
  {
  }

  lemma LookupKeepsGood(s: State, step: Step)
    requires Good(s) && Possible(s, step) && !step.Save?
    ensures Good(Next(s, step))
  {
    hide SavedSince;
    var s' := Next(s, step);
    forall id, e, from
      ensures SavedSince(s, id, e, from) <==> SavedSince(s', id, e, from)
    {
      SameSaves(s, s', id, e, from);
    }
  }

  lemma {:induction false} AlwaysGood(steps: seq<Step>)
    ensures Good(After(steps))
  {
    hide Good;
    if steps == [] {
      StartIsGood();
    } else {
      var before, step := After(steps[..|steps| - 1]), steps[|steps| - 1];
      AlwaysGood(steps[..|steps| - 1]);
      if Possible(before, step) {
        match step
        case Save(answer, ttl, at) => SaveKeepsGood(before, answer, ttl, at);
        case _ => LookupKeepsGood(before, step);
      }
    }
  }

  lemma StartIsGood()
    ensures Good(START)
  {
  }

  /** In every interleaving, an answer found in the cache was saved for that very question and
      had not expired when the lookup ended. */
  lemma HitsWereSaved(steps: seq<Step>, k: nat)
    requires k < |After(steps).hits|
    ensures var s := After(steps);
            var h := s.hits[k];
            h.answer.question == h.id && !Expired(h.entry, h.now) && h.entry in s.saves && h.entry.answer == h.answer
  {
    AlwaysGood(steps);
    assert GoodHit(After(steps), After(steps).hits[k]);
  }

  /** A lookup that ends drops an answer that has not expired. */
  predicate DropsLive(s: State, g: nat, now: int)
    requires g in s.pending
  {
    var id := s.pending[g].id;
    id in s.cache && !Expired(s.cache[id], now) && id !in Next(s, End(g, now)).cache
  }

  /** A fresh answer is lost exactly when what the lookup read has expired, and the cache holds an
      unexpired answer that was saved between the two sections. */
  lemma DropsLiveIff(steps: seq<Step>, g: nat, now: int)
    requires g in After(steps).pending
    ensures var s := After(steps);
            var r := s.pending[g];
            DropsLive(s, g, now) <==>
              && Expired(r.entry, now) && r.id in s.cache
              && SavedSince(s, r.id, s.cache[r.id], r.saves) && !Expired(s.cache[r.id], now)
  {
    AlwaysGood(steps);
    assert ReadIsCurrent(After(steps), After(steps).pending[g]);
  }

  /** A lookup during which no answer was saved and none dropped for its own question does what it
      would under a single lock, whatever happened to other questions. */
  lemma UndisturbedIsAtomic(steps: seq<Step>, g: nat, now: int)
    requires g in After(steps).pending
    requires var s := After(steps);
             var r := s.pending[g];
             r.id in s.cache && forall k :: r.saves <= k < |s.saves| ==> s.saves[k].answer.question != r.id
    ensures var s := After(steps);
            var r := s.pending[g];
            var s' := Next(s, End(g, now));
            && s'.cache == AfterLookup(s.cache, r.id, now)
            && s'.hits == s.hits + match Lookup(s.cache, r.id, now) {
                                     case None => []
                                     case Some(a) => [Hit(r.id, a, r.entry, now)]
                                   }
  {
    AlwaysGood(steps);
    assert ReadIsCurrent(After(steps), After(steps).pending[g]);
  }

  /** The shortest such loss: read an expired answer, save a new one, drop it. */
  lemma FreshAnswerCanBeLost() returns (steps: seq<Step>)
    ensures var s := After(steps);
            |s.saves| == 2 && s.saves[1].expiresAt == None && s.cache == map[] && s.hits == []
  {
    var old', new' := AnswerRecord(1, "old", 0), AnswerRecord(1, "new", 9);
    var s1 := Continued([], Save(old', 1, 0));
    var s2 := Continued(s1, Begin(0, 1));
    var s3 := Continued(s2, Save(new', 0, 9));
    steps := Continued(s3, End(0, 9));
    assert After(s1).cache == map[1 := EntryOf(old', 1, 0)];
    assert After(s2).pending == map[0 := Read(1, EntryOf(old', 1, 0), 1)];
    assert After(steps).cache == map[];
  }

  lemma Continued(steps: seq<Step>, step: Step) returns (more: seq<Step>)
    ensures After(more) == if Possible(After(steps), step) then Next(After(steps), step) else After(steps)
  {
    more := steps + [step];
    assert more[..|steps|] == steps;
  }
}
