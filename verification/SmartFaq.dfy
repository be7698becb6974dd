/** The smart FAQ: answer a question from the cache of a stored question that matches it, or
    store the question and generate an answer. */
module SmartFaq {
  import opened Domain
  import opened QuestionIndex
  import opened Wrappers
  import opened AnswerCache
  import QuestionText
  import SemanticHasher
  import Text
  import Trending

  datatype Mode = Exact | SemanticHash | Similarity | Hybrid

  /** Unknown modes are treated as hybrid. */
  function Sanitize(mode: string): Mode {
    if mode == "exact" then Exact
    else if mode == "semantic_hash" then SemanticHash
    else if mode == "similarity" then Similarity
    else Hybrid
  }

  /** The lookups of a mode, in order. */
  function Plan(mode: Mode): seq<Mode> {
    match mode
    case Exact => [Exact]
    case SemanticHash => [SemanticHash]
    case Similarity => [Similarity]
    case Hybrid => [Exact, Similarity]
  }

  /** The embedder is a function of the text. `planes` seeds the hasher. */
  datatype Config = Config(threshold: real, ttl: int, embed: string -> Vector,
                           normal: SemanticHasher.Generator, seed: int)

  function HashOf(cfg: Config, q: string): nat {
    SemanticHasher.HashOf(cfg.normal, cfg.seed, SemanticHasher.DEFAULT_PLANES, cfg.embed(q))
  }

  datatype Generation = Generation(question: int, answer: string, at: int)

  /** `generations` lists every answer generated so far; `clock` is the time last read. */
  datatype World = World(index: Index, cache: Cache, generations: seq<Generation>, clock: int)

  /** What the outside does during one call: whether the embedding service works, what the
      language model answers, and the times at which the cache is read and written. */
  datatype Request = Request(question: string, mode: string, embedWorks: bool, llm: Option<string>,
                             readAt: int, savedAt: int)

  datatype Response =
    | Refused
    | Failed
    | Replied(answer: string, fromCache: bool, question: int, matched: string, mode: Mode)

  predicate Embeds(cfg: Config, req: Request, q: string) {
    req.embedWorks && cfg.embed(q) != []
  }

  /* ---------- One lookup ---------- */

  /** A squared distance within the threshold, which nothing is when that is negative. */
  predicate InLimit(cfg: Config, distance: real) {
    cfg.threshold >= 0.0 && distance <= cfg.threshold * cfg.threshold
  }

  predicate IsRecord(ix: Index, id: Id, rec: Record) {
    id in ix.records && ix.records[id].record == rec
  }

  /** The lookup finds this record. */
  ghost predicate Finds(cfg: Config, ix: Index, q: string, lookup: Mode, rec: Record) {
    match lookup
    case Exact => q in ix.byText && IsRecord(ix, ix.byText[q], rec)
    case SemanticHash =>
      var h := HashOf(cfg, q);
      h != 0 && h in ix.byHash && IsRecord(ix, ix.byHash[h], rec)
    case Similarity =>
      exists m :: Nearest(ix, cfg.embed(q), m) && m.record == rec
                  && InLimit(cfg, Distance(cfg.embed(q), m.embedding))
    case Hybrid => false
  }

  ghost predicate FindsNothing(cfg: Config, ix: Index, q: string, lookup: Mode) {
    match lookup
    case Exact => q !in ix.byText
    case SemanticHash => HashOf(cfg, q) == 0 || HashOf(cfg, q) !in ix.byHash
    case Similarity =>
      forall id :: id in ix.records ==> !InLimit(cfg, Distance(cfg.embed(q), ix.records[id].embedding))
    case Hybrid => true
  }

  /** The plan stops at the first lookup that finds something. */
  ghost predicate Hit(cfg: Config, ix: Index, q: string, plan: seq<Mode>, rec: Record, via: Mode) {
    exists i :: 0 <= i < |plan| && plan[i] == via && Finds(cfg, ix, q, plan[i], rec)
                && forall j :: 0 <= j < i ==> FindsNothing(cfg, ix, q, plan[j])
  }

  ghost predicate Miss(cfg: Config, ix: Index, q: string, plan: seq<Mode>) {
    forall i :: 0 <= i < |plan| ==> FindsNothing(cfg, ix, q, plan[i])
  }

  /* ---------- One call ---------- */

  /** An answer is generated for a stored question, and cached. */
  function Generated(cfg: Config, w: World, id: Id, answer: string, at: int): World {
    w.(cache := Saved(w.cache, AnswerRecord(id, answer, at), cfg.ttl, at),
       generations := w.generations + [Generation(id, answer, at)])
  }

  /** The effect of generating, which fails when the language model does. */
  ghost predicate Generates(cfg: Config, w: World, req: Request, id: Id, matched: string, via: Mode, w': World, resp: Response) {
    match req.llm
    case None => w' == w && resp == Failed
    case Some(text) =>
      w' == Generated(cfg, w, id, text, req.savedAt) && resp == Replied(text, false, id, matched, via)
  }

  ghost predicate AnswersMatch(cfg: Config, w: World, req: Request, rec: Record, via: Mode, w': World, resp: Response) {
    match Lookup(w.cache, rec.id, req.readAt)
    case Some(a) => w' == w && resp == Replied(a.text, true, rec.id, rec.text, via)
    case None =>
      Generates(cfg, w.(cache := AfterLookup(w.cache, rec.id, req.readAt)), req, rec.id, rec.text, via, w', resp)
  }

  function Stored(cfg: Config, w: World, q: string): World {
    w.(index := Inserted(w.index, q, cfg.embed(q), Some(HashOf(cfg, q))))
  }

  /** The plan starts with an exact lookup that finds the question: no embedding is needed. */
  predicate FoundExactly(ix: Index, q: string, plan: seq<Mode>) {
    plan != [] && plan[0] == Exact && q in ix.byText
  }

  /** One call of the service takes `w` to `w'` with this response. */
  ghost predicate Answers(cfg: Config, w: World, req: Request, w': World, resp: Response) {
    var q := Text.Trim(req.question);
    var plan := Plan(Sanitize(req.mode));
    var now := w.(clock := req.savedAt);
    if q == "" then w' == now && resp == Refused
    else
      || (!Embeds(cfg, req, q) && !FoundExactly(w.index, q, plan) && w' == now && resp == Failed)
      || (exists rec, via :: Hit(cfg, w.index, q, plan, rec, via) && (via == Exact || Embeds(cfg, req, q))
                             && AnswersMatch(cfg, now, req, rec, via, w', resp))
      || (Miss(cfg, w.index, q, plan) && Embeds(cfg, req, q)
          && Generates(cfg, Stored(cfg, now, q), req, w.index.nextID, q, Sanitize(req.mode), w', resp))
  }

  predicate InTime(w: World, req: Request) {
    w.clock <= req.readAt <= req.savedAt
  }

  /* ---------- Which stored question is matched ---------- */

  /** The lookups that a mode string names. */
  lemma PlanOf(mode: string)
    ensures mode == "exact" ==> Plan(Sanitize(mode)) == [Exact]
    ensures mode == "semantic_hash" ==> Plan(Sanitize(mode)) == [SemanticHash]
    ensures mode == "similarity" ==> Plan(Sanitize(mode)) == [Similarity]
    ensures mode != "exact" && mode != "semantic_hash" && mode != "similarity" ==> Plan(Sanitize(mode)) == [Exact, Similarity]
    ensures Sanitize(mode) == if mode == "exact" then Exact else if mode == "semantic_hash" then SemanticHash
                              else if mode == "similarity" then Similarity else Hybrid
  {
    assert "exact"[0] != "semantic_hash"[0] && "exact"[0] != "similarity"[0] && "semantic_hash"[1] != "similarity"[1];
  }

  /** A stored record is near enough to the text. */
  predicate Near(cfg: Config, ix: Index, q: string, id: Id) {
    && id in ix.records && cfg.threshold >= 0.0
    && Distance(cfg.embed(q), ix.records[id].embedding) <= cfg.threshold * cfg.threshold
  }

  /** The call is answered for this stored record and stores nothing: from the cache while that holds
      a live answer, and with a new answer otherwise. */
  predicate RepliesFor(w: World, req: Request, rec: Record, via: Mode, w': World, resp: Response) {
    && w'.index == w.index
    && match Lookup(w.cache, rec.id, req.readAt)
       case Some(a) => resp == Replied(a.text, true, rec.id, rec.text, via)
       case None =>
         match req.llm
         case Some(text) => resp == Replied(text, false, rec.id, rec.text, via)
         case None => resp == Failed
  }

  lemma MatchReplies(cfg: Config, w: World, req: Request, rec: Record, via: Mode, w': World, resp: Response)
    requires AnswersMatch(cfg, w.(clock := req.savedAt), req, rec, via, w', resp)
    ensures RepliesFor(w, req, rec, via, w', resp)
  {
    hide Lookup;
  }

  /** In exact mode, and in any mode but the two that need an embedding, a stored text is replied to
      as exactly that question, whether or not the embedding service works. */
  lemma StoredTextReplies(cfg: Config, w: World, req: Request, w': World, resp: Response)
    requires Closed(w.index) && Answers(cfg, w, req, w', resp)
    requires req.mode != "semantic_hash" && req.mode != "similarity"
    requires var q := Text.Trim(req.question); q != "" && q in w.index.byText
    ensures RepliesFor(w, req, w.index.records[w.index.byText[Text.Trim(req.question)]].record, Exact, w', resp)
  {
    hide Text.Trim, Sanitize, Plan, AnswersMatch, RepliesFor, HashOf, Distance, Nearest;
    var q, plan := Text.Trim(req.question), Plan(Sanitize(req.mode));
    var ix := w.index;
    PlanOf(req.mode);
    assert plan[0] == Exact && !FindsNothing(cfg, ix, q, plan[0]);
    var rec, via :| Hit(cfg, ix, q, plan, rec, via) && AnswersMatch(cfg, w.(clock := req.savedAt), req, rec, via, w', resp);
    MatchReplies(cfg, w, req, rec, via, w', resp);
  }

  /** Otherwise a call whose embedding does not work fails and changes nothing. */
  lemma NoEmbeddingFails(cfg: Config, w: World, req: Request, w': World, resp: Response)
    requires Answers(cfg, w, req, w', resp)
    requires var q := Text.Trim(req.question);
             && q != "" && !Embeds(cfg, req, q)
             && (req.mode == "semantic_hash" || req.mode == "similarity" || q !in w.index.byText)
    ensures resp == Failed && w' == w.(clock := req.savedAt)
  {
    hide Text.Trim, Sanitize, Plan, AnswersMatch, HashOf, Distance, Nearest, Generates;
    PlanOf(req.mode);
  }

  /** In hash mode a stored question with the same hash is replied to. */
  lemma SameHashReplies(cfg: Config, w: World, req: Request, w': World, resp: Response)
    requires Closed(w.index) && Answers(cfg, w, req, w', resp) && req.mode == "semantic_hash"
    requires var q := Text.Trim(req.question);
             q != "" && Embeds(cfg, req, q) && HashOf(cfg, q) != 0 && HashOf(cfg, q) in w.index.byHash
    ensures RepliesFor(w, req, w.index.records[w.index.byHash[HashOf(cfg, Text.Trim(req.question))]].record, SemanticHash, w', resp)
  {
    hide Text.Trim, Sanitize, Plan, AnswersMatch, RepliesFor, HashOf, Distance, Nearest;
    var q, plan := Text.Trim(req.question), Plan(Sanitize(req.mode));
    PlanOf(req.mode);
    assert !FindsNothing(cfg, w.index, q, plan[0]);
    var rec, via :| Hit(cfg, w.index, q, plan, rec, via) && AnswersMatch(cfg, w.(clock := req.savedAt), req, rec, via, w', resp);
    MatchReplies(cfg, w, req, rec, via, w', resp);
  }

  /** In similarity mode, and in every mode that is not one of the three named ones when the text
      itself is not stored, a question with a stored record near enough is replied to as a nearest
      record. */
  lemma NearestReplies(cfg: Config, w: World, req: Request, w': World, resp: Response, id: Id) returns (m: Question)
    requires Closed(w.index) && Answers(cfg, w, req, w', resp)
    requires var q := Text.Trim(req.question);
             && q != "" && Embeds(cfg, req, q) && Near(cfg, w.index, q, id)
             && (req.mode == "similarity" || (req.mode != "exact" && req.mode != "semantic_hash" && q !in w.index.byText))
    ensures m.record.id in w.index.records && w.index.records[m.record.id] == m
    ensures forall k :: k in w.index.records ==>
              Distance(cfg.embed(Text.Trim(req.question)), m.embedding)
              <= Distance(cfg.embed(Text.Trim(req.question)), w.index.records[k].embedding)
    ensures RepliesFor(w, req, m.record, Similarity, w', resp)
  {
    hide Text.Trim, Sanitize, Plan, AnswersMatch, RepliesFor, HashOf, Distance, Near, Hit, Miss, Finds, Generates;
    var q, plan := Text.Trim(req.question), Plan(Sanitize(req.mode));
    PlanOf(req.mode);
    NearIsNoMiss(cfg, w.index, q, plan, id);
    var rec, via :| Hit(cfg, w.index, q, plan, rec, via) && AnswersMatch(cfg, w.(clock := req.savedAt), req, rec, via, w', resp);
    LastLookup(cfg, w.index, q, plan, rec, via);
    m := NearestFound(cfg, w.index, q, rec);
    MatchReplies(cfg, w, req, rec, via, w', resp);
  }

  lemma NearIsNoMiss(cfg: Config, ix: Index, q: string, plan: seq<Mode>, id: Id)
    requires Near(cfg, ix, q, id)
    requires plan == [Similarity] || (plan == [Exact, Similarity] && q !in ix.byText)
    ensures !Miss(cfg, ix, q, plan) && !FoundExactly(ix, q, plan)
  {
    hide Distance;
    assert !FindsNothing(cfg, ix, q, Similarity);
    assert plan[|plan| - 1] == Similarity;
  }

  lemma NearestFound(cfg: Config, ix: Index, q: string, rec: Record) returns (m: Question)
    requires Finds(cfg, ix, q, Similarity, rec)
    ensures m.record == rec && Nearest(ix, cfg.embed(q), m)
  {
    hide Distance, Nearest, InLimit;
    m :| Nearest(ix, cfg.embed(q), m) && m.record == rec;
  }

  lemma LastLookup(cfg: Config, ix: Index, q: string, plan: seq<Mode>, rec: Record, via: Mode)
    requires Hit(cfg, ix, q, plan, rec, via)
    requires plan == [Similarity] || (plan == [Exact, Similarity] && q !in ix.byText)
    ensures Finds(cfg, ix, q, Similarity, rec) && via == Similarity
  {
    hide Distance, Nearest, HashOf;
  }

  /** The lookups that the mode string names find nothing. */
  predicate NoMatch(cfg: Config, ix: Index, q: string, mode: string) {
    if mode == "exact" then q !in ix.byText
    else if mode == "semantic_hash" then HashOf(cfg, q) == 0 || HashOf(cfg, q) !in ix.byHash
    else if mode == "similarity" then forall id :: id in ix.records ==> !Near(cfg, ix, q, id)
    else q !in ix.byText && forall id :: id in ix.records ==> !Near(cfg, ix, q, id)
  }

  /** A call stores its question if and only if the text is not blank, the embedding works and no
      lookup that its mode names finds anything; the new record has the next id and what the embedder
      and the hasher say about the text. */
  lemma StoresIff(cfg: Config, w: World, req: Request, w': World, resp: Response)
    requires Closed(w.index) && Answers(cfg, w, req, w', resp)
    ensures var q, ix := Text.Trim(req.question), w.index;
            if q != "" && Embeds(cfg, req, q) && NoMatch(cfg, ix, q, req.mode) then
              && w'.index.nextID == ix.nextID + 1
              && w'.index.records ==
                   ix.records[ix.nextID := Question(Record(ix.nextID, q, Some(HashOf(cfg, q))), cfg.embed(q))]
              && w'.index.byText == ix.byText[q := ix.nextID] && w'.index.byHash == ix.byHash[HashOf(cfg, q) := ix.nextID]
              && resp == match req.llm
                         case Some(text) =>
                           Replied(text, false, ix.nextID, q,
                                   if req.mode == "exact" then Exact else if req.mode == "semantic_hash" then SemanticHash
                                   else if req.mode == "similarity" then Similarity else Hybrid)
                         case None => Failed
            else w'.index == ix
  {
    hide Text.Trim, Sanitize, Plan, AnswersMatch, HashOf, Distance, Nearest;
    var q, plan := Text.Trim(req.question), Plan(Sanitize(req.mode));
    PlanOf(req.mode);
    if q != "" && Embeds(cfg, req, q) {
      MissIff(cfg, w.index, q, req.mode);
      if Miss(cfg, w.index, q, plan) {
        MissIsNoHit(cfg, w.index, q, plan);
      }
      forall rec, via | AnswersMatch(cfg, w.(clock := req.savedAt), req, rec, via, w', resp)
        ensures w'.index == w.index
      {
        MatchReplies(cfg, w, req, rec, via, w', resp);
      }
    } else {
      forall rec, via | AnswersMatch(cfg, w.(clock := req.savedAt), req, rec, via, w', resp)
        ensures w'.index == w.index
      {
        MatchReplies(cfg, w, req, rec, via, w', resp);
      }
    }
  }

  lemma MissIff(cfg: Config, ix: Index, q: string, mode: string)
    ensures Miss(cfg, ix, q, Plan(Sanitize(mode))) <==> NoMatch(cfg, ix, q, mode)
  {
    hide Sanitize, Plan, HashOf, Distance;
    PlanOf(mode);
    var plan := Plan(Sanitize(mode));
    assert Miss(cfg, ix, q, plan) <==>
             FindsNothing(cfg, ix, q, plan[0]) && (|plan| > 1 ==> FindsNothing(cfg, ix, q, plan[1]));
  }

  lemma MissIsNoHit(cfg: Config, ix: Index, q: string, plan: seq<Mode>)
    requires Closed(ix) && Miss(cfg, ix, q, plan)
    ensures !FoundExactly(ix, q, plan)
    ensures forall rec, via :: !Hit(cfg, ix, q, plan, rec, via)
  {
    hide HashOf, Distance;
    forall rec, via
      ensures !Hit(cfg, ix, q, plan, rec, via)
    {
      if Hit(cfg, ix, q, plan, rec, via) {
        var i :| 0 <= i < |plan| && Finds(cfg, ix, q, plan[i], rec);
        FindsOrNot(cfg, ix, q, plan[i], rec);
      }
    }
    assert plan != [] ==> FindsNothing(cfg, ix, q, plan[0]);
  }

  lemma FindsOrNot(cfg: Config, ix: Index, q: string, lookup: Mode, rec: Record)
    requires Closed(ix) && Finds(cfg, ix, q, lookup, rec)
    ensures !FindsNothing(cfg, ix, q, lookup)
  {
    hide HashOf, Distance;
  }

  /** Two texts are found under one hash exactly when their embeddings lie on the same side of each
      of 64 planes. */
  lemma SameHashIff(cfg: Config, p: string, q: string)
    requires |cfg.embed(p)| == |cfg.embed(q)|
    ensures HashOf(cfg, p) == HashOf(cfg, q) <==>
              forall i :: 0 <= i < 64 ==>
                var plane := SemanticHasher.Plane(cfg.normal, cfg.seed, |cfg.embed(p)|, i);
                (SemanticHasher.Dot(cfg.embed(p), plane) >= 0.0 <==> SemanticHasher.Dot(cfg.embed(q), plane) >= 0.0)
  {
    hide SemanticHasher.HashOf, SemanticHasher.Plane, SemanticHasher.Dot;
    SemanticHasher.CollideIffSameSides(cfg.normal, cfg.seed, SemanticHasher.DEFAULT_PLANES, cfg.embed(p), cfg.embed(q));
  }

  /* ---------- Stored texts stay distinct ---------- */

  /** What is stored is what the embedder and the hasher say about the text. */
  ghost predicate Faithful(cfg: Config, ix: Index) {
    forall id :: id in ix.records ==>
      var r := ix.records[id];
      r.embedding == cfg.embed(r.record.text) && r.record.hash == Some(HashOf(cfg, r.record.text))
  }

  /** A stored question is found by its text, and at distance zero. */
  lemma StoredIsFound(cfg: Config, ix: Index, q: string)
    requires cfg.threshold >= 0.0 && Coherent(ix) && Faithful(cfg, ix) && q in ix.byText
    ensures !FindsNothing(cfg, ix, q, Exact) && !FindsNothing(cfg, ix, q, Similarity)
    ensures FindsNothing(cfg, ix, q, SemanticHash) <==> HashOf(cfg, q) == 0
  {
    hide HashOf, Distance, InLimit;
    var id := ix.byText[q];
    assert ix.records[id].record.text == q;
    DistanceToSelf(cfg.embed(q));
    ZeroInLimit(cfg);
  }

  lemma ZeroInLimit(cfg: Config)
    requires cfg.threshold >= 0.0
    ensures InLimit(cfg, 0.0)
  {
  }

  /** A stored question is missed, and would be stored again, exactly in hash mode with a hash
      of zero, which the lookup takes for "no hash". */
  lemma StoredAgainIff(cfg: Config, ix: Index, q: string, mode: Mode)
    requires cfg.threshold >= 0.0 && Coherent(ix) && Faithful(cfg, ix) && q in ix.byText
    ensures Miss(cfg, ix, q, Plan(mode)) <==> mode == SemanticHash && HashOf(cfg, q) == 0
  {
    hide HashOf, FindsNothing, Coherent, Faithful;
    StoredIsFound(cfg, ix, q);
    assert Plan(mode)[0] == if mode == Hybrid then Exact else mode;
  }

  /** In hash mode, with a hash that the lookup takes for "no hash". */
  predicate ZeroHashed(cfg: Config, req: Request) {
    Sanitize(req.mode) == SemanticHash && HashOf(cfg, Text.Trim(req.question)) == 0
  }

  /** The one call that stores a text twice. */
  predicate AsksZeroAgain(cfg: Config, w: World, req: Request) {
    var q := Text.Trim(req.question);
    q != "" && Embeds(cfg, req, q) && q in w.index.byText && ZeroHashed(cfg, req)
  }

  ghost predicate Sound(cfg: Config, w: World) {
    Coherent(w.index) && Faithful(cfg, w.index)
  }

  /** A run: each world follows from the one before by one call. */
  ghost predicate Run(cfg: Config, worlds: seq<World>, reqs: seq<Request>, resps: seq<Response>) {
    && |worlds| == |reqs| + 1 && |resps| == |reqs|
    && worlds[0] == World(EMPTY, map[], [], worlds[0].clock)
    && forall i :: 0 <= i < |reqs| ==>
         InTime(worlds[i], reqs[i]) && Answers(cfg, worlds[i], reqs[i], worlds[i + 1], resps[i])
  }

  /** In hash mode with a hash of zero nothing is ever found. */
  lemma ZeroHashInserts(cfg: Config, w: World, req: Request, w': World, resp: Response)
    requires Answers(cfg, w, req, w', resp) && ZeroHashed(cfg, req)
    ensures var q := Text.Trim(req.question);
            w'.index == if q != "" && Embeds(cfg, req, q) then Stored(cfg, w, q).index else w.index
  {
    hide HashOf, Lookup, Text.Trim, Inserted, Distance, Sanitize;
    var q, plan := Text.Trim(req.question), Plan(SemanticHash);
    forall rec, via
      ensures !Hit(cfg, w.index, q, plan, rec, via)
    {
    }
  }

  /** From a sound world one call leaves the texts distinct, unless it asks a stored question
      again in hash mode with a hash of zero and the embedding works. */
  lemma DistinctAfterCallIff(cfg: Config, w: World, req: Request, w': World, resp: Response)
    requires cfg.threshold >= 0.0 && Sound(cfg, w) && Answers(cfg, w, req, w', resp)
    ensures DistinctTexts(w'.index) <==> !AsksZeroAgain(cfg, w, req)
  {
    hide HashOf, Text.Trim, Coherent, Closed, DistinctTexts, Faithful, Answers, Inserted, ZeroHashed;
    var q := Text.Trim(req.question);
    SoundIsClosed(cfg, w);
    CoherentIffDistinctTexts(w.index);
    if ZeroHashed(cfg, req) && q in w.index.byText {
      ZeroHashInserts(cfg, w, req, w', resp);
      InsertCoherentIff(w.index, q, cfg.embed(q), Some(HashOf(cfg, q)));
      InsertKeepsClosed(w.index, q, cfg.embed(q), Some(HashOf(cfg, q)));
      CoherentIffDistinctTexts(Inserted(w.index, q, cfg.embed(q), Some(HashOf(cfg, q))));
    } else {
      InsertNew(cfg, w, req, w', resp);
      CoherentIffDistinctTexts(w'.index);
    }
  }

  lemma SoundIsClosed(cfg: Config, w: World)
    requires Sound(cfg, w)
    ensures Closed(w.index)
  {
  }

  lemma InsertNew(cfg: Config, w: World, req: Request, w': World, resp: Response)
    requires cfg.threshold >= 0.0 && Sound(cfg, w) && Answers(cfg, w, req, w', resp)
    requires !(ZeroHashed(cfg, req) && Text.Trim(req.question) in w.index.byText)
    ensures Coherent(w'.index) && Closed(w'.index)
  {
    hide HashOf, FindsNothing, Finds, Sanitize, Plan, Lookup, Text.Trim;
    var q := Text.Trim(req.question);
    if w'.index != w.index {
      if q in w.index.byText {
        StoredAgainIff(cfg, w.index, q, Sanitize(req.mode));
      }
      InsertCoherentIff(w.index, q, cfg.embed(q), Some(HashOf(cfg, q)));
    }
  }

  /** Whatever a call does, what is stored is what the embedder and the hasher say. */
  lemma AnswerKeepsFaithful(cfg: Config, w: World, req: Request, w': World, resp: Response)
    requires Faithful(cfg, w.index) && Answers(cfg, w, req, w', resp)
    ensures Faithful(cfg, w'.index)
  {
    hide HashOf, FindsNothing, Finds, Sanitize, Plan, Lookup, AfterLookup, Text.Trim, Hit, Miss;
  }

  lemma {:induction false} RunFaithful(cfg: Config, worlds: seq<World>, reqs: seq<Request>, resps: seq<Response>, n: nat)
    requires Run(cfg, worlds, reqs, resps) && n < |worlds|
    ensures Faithful(cfg, worlds[n].index)
  {
    if n > 0 {
      RunFaithful(cfg, worlds, reqs, resps, n - 1);
      AnswerKeepsFaithful(cfg, worlds[n - 1], reqs[n - 1], worlds[n], resps[n - 1]);
    }
  }

  /** While the texts are distinct the world is sound. */
  lemma DistinctIsSound(cfg: Config, worlds: seq<World>, reqs: seq<Request>, resps: seq<Response>, n: nat)
    requires Run(cfg, worlds, reqs, resps) && n < |worlds| && DistinctTexts(worlds[n].index)
    ensures Sound(cfg, worlds[n])
  {
    hide Run, Faithful, Coherent, DistinctTexts;
    RunFaithful(cfg, worlds, reqs, resps, n);
    RunCacheOk(cfg, worlds, reqs, resps, n);
    CoherentIffDistinctTexts(worlds[n].index);
  }

  /** Over all runs, modes and failures: the stored texts are pairwise distinct all along exactly
      when no call asks a stored question again in hash mode with a hash of zero. */
  lemma {:induction false} DistinctThroughoutIff(cfg: Config, worlds: seq<World>, reqs: seq<Request>, resps: seq<Response>, n: nat)
    requires cfg.threshold >= 0.0 && Run(cfg, worlds, reqs, resps) && n < |worlds|
    ensures (forall i :: 0 <= i <= n ==> DistinctTexts(worlds[i].index)) <==>
            (forall i :: 0 <= i < n ==> !AsksZeroAgain(cfg, worlds[i], reqs[i]))
  {
    hide AsksZeroAgain, Answers, Sound;
    if n == 0 {
      assert worlds[0].index.records == map[];
    } else {
      DistinctThroughoutIff(cfg, worlds, reqs, resps, n - 1);
      if DistinctTexts(worlds[n - 1].index) {
        DistinctIsSound(cfg, worlds, reqs, resps, n - 1);
        DistinctAfterCallIff(cfg, worlds[n - 1], reqs[n - 1], worlds[n], resps[n - 1]);
      }
    }
  }

  /** In every run without such a call the texts are distinct and the three maps agree. */
  lemma TextsStayDistinct(cfg: Config, worlds: seq<World>, reqs: seq<Request>, resps: seq<Response>, n: nat)
    requires cfg.threshold >= 0.0 && Run(cfg, worlds, reqs, resps) && n < |worlds|
    requires forall i :: 0 <= i < n ==> !AsksZeroAgain(cfg, worlds[i], reqs[i])
    ensures Coherent(worlds[n].index) && DistinctTexts(worlds[n].index)
  {
    hide Run, AsksZeroAgain, Coherent, DistinctTexts;
    DistinctThroughoutIff(cfg, worlds, reqs, resps, n);
    DistinctIsSound(cfg, worlds, reqs, resps, n);
  }

  /** Every plane has its normal at -1 and every text is embedded at 1. */
  const BEHIND := Config(0.0, 0, s => [1.0], (seed, k) => -1.0, 0)

  lemma BehindIsZero(q: string)
    ensures HashOf(BEHIND, q) == 0
  {
    hide SemanticHasher.HashOf;
    SemanticHasher.ZeroIffBehindAllPlanes(BEHIND.normal, BEHIND.seed, SemanticHasher.DEFAULT_PLANES, [1.0]);
  }

  /** A call in hash mode with a hash of zero stores its question, although no answer follows. */
  lemma ZeroCallStores(w: World, req: Request)
    requires w.clock == 0 && req == Request("q", "semantic_hash", true, None, 0, 0)
    ensures Answers(BEHIND, w, req, Stored(BEHIND, w, "q"), Failed)
  {
    hide HashOf, Text.Trim, Sanitize, Hit, AnswersMatch, Inserted;
    BehindIsZero("q");
    HashModeAsksQ();
    assert FindsNothing(BEHIND, w.index, "q", SemanticHash);
  }

  lemma HashModeAsksQ()
    ensures Text.Trim("q") == "q" && Sanitize("semantic_hash") == SemanticHash
  {
    hide Text.Trim;
    InkOnly('q');
    assert "q" == ['q'];
    hide Text.IsSpace;
    assert "semantic_hash" != "exact" by { assert |"semantic_hash"| != |"exact"|; }
  }

  lemma InkOnly(c: char)
    requires !Text.IsSpace(c)
    ensures Text.Trim([c]) == [c]
  {
    hide Text.IsSpace;
    Text.TrimOfTrimmed([c]);
  }

  /** The shortest run that stores a text twice: the same question twice, with a hash of zero. */
  lemma TextStoredTwice() returns (worlds: seq<World>, reqs: seq<Request>, resps: seq<Response>)
    ensures |worlds| == 3 && Run(BEHIND, worlds, reqs, resps) && !DistinctTexts(worlds[2].index)
  {
    hide HashOf, Answers;
    var req := Request("q", "semantic_hash", true, None, 0, 0);
    var w0 := World(EMPTY, map[], [], 0);
    var w1 := Stored(BEHIND, w0, "q");
    var w2 := Stored(BEHIND, w1, "q");
    worlds, reqs, resps := [w0, w1, w2], [req, req], [Failed, Failed];
    ZeroCallStores(w0, req);
    ZeroCallStores(w1, req);
    assert w2.index.records[1].record.text == "q" == w2.index.records[2].record.text;
  }

  /* ---------- The cache over whole runs ---------- */

  /** The latest answer generated for a question. */
  function Latest(gens: seq<Generation>, id: int): Option<Generation> {
    if gens == [] then None
    else if gens[|gens| - 1].question == id then Some(gens[|gens| - 1])
    else Latest(gens[..|gens| - 1], id)
  }

  /** Two answers to one question are more than the time to live apart. */
  ghost predicate Apart(cfg: Config, gens: seq<Generation>) {
    forall i, j :: 0 <= i < j < |gens| && gens[i].question == gens[j].question ==>
                     cfg.ttl > 0 && gens[i].at + cfg.ttl < gens[j].at
  }

  function Entry(cfg: Config, g: Generation): Cached {
    Cached(AnswerRecord(g.question, g.answer, g.at), if cfg.ttl > 0 then Some(g.at + cfg.ttl) else None)
  }

  ghost predicate CacheOk(cfg: Config, w: World) {
    && Closed(w.index)
    && Apart(cfg, w.generations)
    && (forall i :: 0 <= i < |w.generations| ==> w.generations[i].question in w.index.records)
    && (forall id :: id in w.cache ==>
          Latest(w.generations, id).Some? && w.cache[id] == Entry(cfg, Latest(w.generations, id).value))
    && (forall id: int :: Latest(w.generations, id).Some? ==>
          id in w.cache || (cfg.ttl > 0 && Latest(w.generations, id).value.at + cfg.ttl < w.clock))
  }

  lemma {:induction false} LatestIs(gens: seq<Generation>, id: int)
    ensures Latest(gens, id).Some? ==>
              Latest(gens, id).value in gens && Latest(gens, id).value.question == id
    ensures Latest(gens, id).None? ==> forall g :: g in gens ==> g.question != id
  {
    if gens != [] {
      var n := |gens| - 1;
      LatestIs(gens[..n], id);
      assert gens == gens[..n] + [gens[n]];
    }
  }

  /** In time order the latest answer is the last one. */
  lemma {:induction false} LatestIsLast(cfg: Config, gens: seq<Generation>, i: nat)
    requires Apart(cfg, gens) && i < |gens|
    ensures Latest(gens, gens[i].question).Some? && gens[i].at <= Latest(gens, gens[i].question).value.at
    decreases |gens|
  {
    var n := |gens| - 1;
    if i < n && gens[n].question != gens[i].question {
      var prior := gens[..n];
      forall a, b | 0 <= a < b < |prior| && prior[a].question == prior[b].question
        ensures cfg.ttl > 0 && prior[a].at + cfg.ttl < prior[b].at
      {
        assert gens[a] == prior[a] && gens[b] == prior[b];
      }
      LatestIsLast(cfg, prior, i);
    }
  }

  /** Nothing in the cache speaks for the question any more. */
  ghost predicate Due(cfg: Config, w: World, id: int, at: int) {
    Latest(w.generations, id).Some? ==> cfg.ttl > 0 && Latest(w.generations, id).value.at + cfg.ttl < at
  }

  lemma GenerateKeeps(cfg: Config, w: World, id: Id, answer: string, at: int)
    requires CacheOk(cfg, w) && id in w.index.records && w.clock == at && Due(cfg, w, id, at)
    ensures CacheOk(cfg, Generated(cfg, w, id, answer, at))
  {
    hide Coherent, Closed;
    var g := Generation(id, answer, at);
    var gens := w.generations + [g];
    assert gens[..|gens| - 1] == w.generations;
    forall i | 0 <= i < |w.generations| && w.generations[i].question == id
      ensures cfg.ttl > 0 && w.generations[i].at + cfg.ttl < at
    {
      LatestIsLast(cfg, w.generations, i);
    }
  }

  lemma LookupKeeps(cfg: Config, w: World, id: int, readAt: int)
    requires CacheOk(cfg, w) && readAt <= w.clock
    ensures CacheOk(cfg, w.(cache := AfterLookup(w.cache, id, readAt)))
    ensures id > 0 && Lookup(w.cache, id, readAt).None? ==>
              Due(cfg, w.(cache := AfterLookup(w.cache, id, readAt)), id, w.clock)
  {
  }

  lemma StoreKeeps(cfg: Config, w: World, q: string)
    requires CacheOk(cfg, w)
    ensures CacheOk(cfg, Stored(cfg, w, q)) && Due(cfg, Stored(cfg, w, q), w.index.nextID, w.clock)
  {
    hide HashOf;
    InsertKeepsClosed(w.index, q, cfg.embed(q), Some(HashOf(cfg, q)));
    LatestIs(w.generations, w.index.nextID);
  }

  lemma ClockKeeps(cfg: Config, w: World, clock: int)
    requires CacheOk(cfg, w) && w.clock <= clock
    ensures CacheOk(cfg, w.(clock := clock))
  {
  }

  lemma AnswerKeepsCacheOk(cfg: Config, w: World, req: Request, w': World, resp: Response)
    requires CacheOk(cfg, w) && InTime(w, req) && Answers(cfg, w, req, w', resp)
    ensures CacheOk(cfg, w') && w'.clock == req.savedAt
  {
    hide HashOf, FindsNothing, Sanitize, Plan, Lookup, AfterLookup, Text.Trim, CacheOk, Due, Stored, Generated, Hit;
    var q, plan := Text.Trim(req.question), Plan(Sanitize(req.mode));
    var now := w.(clock := req.savedAt);
    ClockKeeps(cfg, w, req.savedAt);
    if rec, via :| Hit(cfg, w.index, q, plan, rec, via) && AnswersMatch(cfg, now, req, rec, via, w', resp) {
      HitIsRecord(cfg, w, q, plan, rec, via);
      LookupKeeps(cfg, now, rec.id, req.readAt);
      if Lookup(w.cache, rec.id, req.readAt).None? && req.llm.Some? {
        GenerateKeeps(cfg, now.(cache := AfterLookup(w.cache, rec.id, req.readAt)), rec.id, req.llm.value, req.savedAt);
      }
      GeneratedClock(cfg, now.(cache := AfterLookup(w.cache, rec.id, req.readAt)), req, rec.id);
    } else if Miss(cfg, w.index, q, plan) && Embeds(cfg, req, q) {
      StoreKeeps(cfg, now, q);
      StoredHas(cfg, now, q);
      if req.llm.Some? {
        GenerateKeeps(cfg, Stored(cfg, now, q), w.index.nextID, req.llm.value, req.savedAt);
      }
      GeneratedClock(cfg, Stored(cfg, now, q), req, w.index.nextID);
    }
  }

  lemma GeneratedClock(cfg: Config, w: World, req: Request, id: Id)
    ensures forall t, at :: Generated(cfg, w, id, t, at).clock == w.clock
  {
  }

  lemma StoredHas(cfg: Config, w: World, q: string)
    ensures w.index.nextID in Stored(cfg, w, q).index.records && Stored(cfg, w, q).clock == w.clock
  {
  }

  lemma HitIsRecord(cfg: Config, w: World, q: string, plan: seq<Mode>, rec: Record, via: Mode)
    requires CacheOk(cfg, w) && Hit(cfg, w.index, q, plan, rec, via)
    ensures rec.id > 0 && rec.id in w.index.records && w.index.records[rec.id].record == rec
  {
    hide HashOf, FindsNothing, InLimit, Distance;
  }

  lemma {:induction false} RunCacheOk(cfg: Config, worlds: seq<World>, reqs: seq<Request>, resps: seq<Response>, n: nat)
    requires Run(cfg, worlds, reqs, resps) && n < |worlds|
    ensures CacheOk(cfg, worlds[n])
  {
    if n > 0 {
      RunCacheOk(cfg, worlds, reqs, resps, n - 1);
      AnswerKeepsCacheOk(cfg, worlds[n - 1], reqs[n - 1], worlds[n], resps[n - 1]);
    }
  }

  /** In every run two answers generated for one question are more than the time to live
      apart; without a time to live there is never a second one. */
  lemma GenerationsAreApart(cfg: Config, worlds: seq<World>, reqs: seq<Request>, resps: seq<Response>, n: nat)
    requires Run(cfg, worlds, reqs, resps) && n < |worlds|
    ensures Apart(cfg, worlds[n].generations)
  {
    RunCacheOk(cfg, worlds, reqs, resps, n);
  }

  /** A reply from the cache is the latest answer generated for the matched question, and has
      not outlived its time. */
  lemma CachedReplyIsLatest(cfg: Config, worlds: seq<World>, reqs: seq<Request>, resps: seq<Response>, n: nat)
    requires Run(cfg, worlds, reqs, resps) && n < |reqs|
    requires resps[n].Replied? && resps[n].fromCache
    ensures var g := Latest(worlds[n].generations, resps[n].question);
            && g.Some? && g.value.question == resps[n].question && g.value.answer == resps[n].answer
            && (cfg.ttl > 0 ==> reqs[n].readAt <= g.value.at + cfg.ttl)
    ensures resps[n].question in worlds[n].index.records
            && worlds[n].index.records[resps[n].question].record.text == resps[n].matched
  {
    hide HashOf, FindsNothing, Sanitize, Plan, AfterLookup, Text.Trim, CacheOk, Hit, AnswersMatch, FoundExactly;
    RunCacheOk(cfg, worlds, reqs, resps, n);
    var w, req, resp := worlds[n], reqs[n], resps[n];
    var now := w.(clock := req.savedAt);
    var q := Text.Trim(req.question);
    var plan := Plan(Sanitize(req.mode));
    var rec, via :| Hit(cfg, w.index, q, plan, rec, via) && AnswersMatch(cfg, now, req, rec, via, worlds[n + 1], resp);
    HitIsRecord(cfg, w, q, plan, rec, via);
    FromCache(cfg, now, req, rec, via, worlds[n + 1], resp);
    LatestIs(w.generations, rec.id);
    CachedEntry(cfg, w, rec.id);
  }

  lemma FromCache(cfg: Config, w: World, req: Request, rec: Record, via: Mode, w': World, resp: Response)
    requires AnswersMatch(cfg, w, req, rec, via, w', resp) && resp.Replied? && resp.fromCache
    ensures rec.id in w.cache && !Expired(w.cache[rec.id], req.readAt)
    ensures resp.answer == w.cache[rec.id].answer.text && resp.question == rec.id && resp.matched == rec.text
  {
  }

  lemma CachedEntry(cfg: Config, w: World, id: int)
    requires CacheOk(cfg, w) && id in w.cache
    ensures Latest(w.generations, id).Some? && w.cache[id] == Entry(cfg, Latest(w.generations, id).value)
  {
  }

  /* ---------- The service itself ---------- */

  class Service {
    const cfg: Config
    const repo: MemoryRepository
    const store: MemoryStore
    const hasher: SemanticHasher.Hasher
    const alphabet: QuestionText.Alphabet
    const trending: Trending.MemoryTrending
    /** The questions answered and counted so far. */
    ghost var counted: seq<string>
    ghost var generations: seq<Generation>
    ghost var clock: int

    ghost predicate Valid()
      reads this, repo, store, hasher
    {
      && Closed(repo.View()) && hasher.Valid()
      && hasher.normal == cfg.normal && hasher.seed == cfg.seed && hasher.planeCount == SemanticHasher.DEFAULT_PLANES
    }

    ghost function View(): World
      reads this, repo, store
    {
      World(repo.View(), store.answers, generations, clock)
    }

    /** The counters are those of the questions answered so far. */
    ghost predicate Counts()
      reads this, trending
    {
      alphabet.Valid() && trending.Contents() == Trending.AfterAll(alphabet, counted)
    }

    constructor (cfg: Config, alphabet: QuestionText.Alphabet)
      requires alphabet.Valid()
      ensures Valid() && this.cfg == cfg && fresh(repo) && fresh(store) && fresh(hasher)
      ensures Counts() && this.alphabet == alphabet && fresh(trending) && counted == []
      ensures View() == World(EMPTY, map[], [], clock)
    {
      this.cfg := cfg;
      repo := new MemoryRepository();
      store := new MemoryStore();
      hasher := new SemanticHasher.Hasher(cfg.normal, SemanticHasher.DEFAULT_PLANES, cfg.seed);
      generations := [];
      this.alphabet := alphabet;
      trending := new Trending.MemoryTrending();
      counted := [];
    }

    /** Runs one lookup; fails when it needs an embedding and there is none. */
    method Search(lookup: Mode, q: string, req: Request) returns (rec: Option<Record>, failed: bool)
      requires Valid()
      modifies hasher
      ensures Valid()
      ensures failed <==> lookup != Exact && lookup != Hybrid && !Embeds(cfg, req, q)
      ensures !failed && rec.Some? ==> Finds(cfg, repo.View(), q, lookup, rec.value)
      ensures !failed && rec.None? ==> FindsNothing(cfg, repo.View(), q, lookup)
    {
      rec, failed := None, false;
      match lookup {
        case Exact =>
          rec := repo.FindExact(q);
        case SemanticHash =>
          if !Embeds(cfg, req, q) {
            return None, true;
          }
          var semanticHash, has := hasher.Hash(cfg.embed(q));
          if has {
            rec := repo.FindBySemanticHash(semanticHash);
          }
        case Similarity =>
          if !Embeds(cfg, req, q) {
            return None, true;
          }
          var match', distance := repo.FindNearest(cfg.embed(q));
          if match'.Some? && InLimit(cfg, distance) {
            rec := Some(match'.value.record);
          }
          NearestDecides(cfg, repo.View(), q, match', distance);
        case Hybrid =>
      }
    }

    /** Generates an answer and caches it. */
    method GenerateAndCache(id: Id, req: Request, matched: string, via: Mode) returns (resp: Response)
      requires Valid() && clock == req.savedAt
      modifies this`generations, store
      ensures Valid() && clock == old(clock)
      ensures Generates(cfg, old(View()), req, id, matched, via, View(), resp)
    {
      match req.llm {
        case None =>
          return Failed;
        case Some(text) =>
          store.SaveAnswer(AnswerRecord(id, text, req.savedAt), cfg.ttl, req.savedAt);
          generations := generations + [Generation(id, text, req.savedAt)];
          return Replied(text, false, id, matched, via);
      }
    }

    /** One call. A question that was replied to is counted under its canonical text, unless the
        counter fails, which does not matter to the reply. */
    method Answer(req: Request, countFails: bool) returns (resp: Response)
      requires Valid() && Counts() && InTime(View(), req)
      modifies this`generations, this`clock, this`counted, repo, store, hasher, trending
      ensures Valid() && Counts()
      ensures Answers(cfg, old(View()), req, View(), resp)
      ensures counted == if resp.Replied? && !countFails then old(counted) + [req.question] else old(counted)
    {
      hide Answers, HashOf, Closed, Text.Trim, InTime, Trending.AfterAll, Trending.Incremented;
      hide QuestionText.Alphabet.Valid, QuestionText.Words;
      resp := Reply(req);
      if resp.Replied? && !countFails {
        var question := Text.Trim(req.question);
        var normalized := QuestionText.NormalizeQuestion(alphabet, question);
        Trending.AfterOneMore(alphabet, counted, req.question);
        trending.IncrementQuery(normalized, question);
        counted := counted + [req.question];
      }
    }

    /** The call up to its reply. */
    method Reply(req: Request) returns (resp: Response)
      requires Valid() && InTime(View(), req)
      modifies this`generations, this`clock, repo, store, hasher
      ensures Valid()
      ensures Answers(cfg, old(View()), req, View(), resp)
    {
      hide HashOf, Text.Trim, Finds, FindsNothing, Closed, Inserted, Lookup, AfterLookup;
      clock := req.savedAt;
      var question := Text.Trim(req.question);
      if question == "" {
        return Refused;
      }
      var mode := Sanitize(req.mode);
      var plan := Plan(mode);
      var record, used := None, mode;
      for i := 0 to |plan|
        invariant Valid() && View() == old(View()).(clock := req.savedAt)
        invariant record.Some? ==> Hit(cfg, old(repo.View()), question, plan, record.value, used)
                                   && (used == Exact || Embeds(cfg, req, question))
        invariant record.None? ==> used == mode && forall j :: 0 <= j < i ==> FindsNothing(cfg, repo.View(), question, plan[j])
      {
        var failed;
        record, failed := Search(plan[i], question, req);
        if failed {
          NotExact(cfg, repo.View(), question, plan);
          return Failed;
        }
        if record.Some? {
          used := plan[i];
          break;
        }
      }
      if record.Some? {
        resp := AnswerMatched(record.value, used, req);
      } else {
        NotExact(cfg, repo.View(), question, plan);
        resp := AnswerNew(question, mode, req);
      }
    }

    /** A stored question matched: reply from the cache, or generate again. */
    method AnswerMatched(rec: Record, via: Mode, req: Request) returns (resp: Response)
      requires Valid() && clock == req.savedAt
      modifies this`generations, store
      ensures Valid() && clock == old(clock)
      ensures AnswersMatch(cfg, old(View()), req, rec, via, View(), resp)
    {
      var cached := store.GetAnswer(rec.id, req.readAt);
      match cached {
        case Some(a) =>
          return Replied(a.text, true, rec.id, rec.text, via);
        case None =>
          resp := GenerateAndCache(rec.id, req, rec.text, via);
      }
    }

    /** Nothing matched: store the question and generate. */
    method AnswerNew(q: string, via: Mode, req: Request) returns (resp: Response)
      requires Valid() && clock == req.savedAt
      modifies this`generations, repo, store, hasher
      ensures Valid() && clock == old(clock)
      ensures !Embeds(cfg, req, q) ==> View() == old(View()) && resp == Failed
      ensures Embeds(cfg, req, q) ==>
                Generates(cfg, Stored(cfg, old(View()), q), req, old(repo.nextID), q, via, View(), resp)
    {
      if !Embeds(cfg, req, q) {
        return Failed;
      }
      var semanticHash, has := hasher.Hash(cfg.embed(q));
      InsertKeepsClosed(repo.View(), q, cfg.embed(q), Some(semanticHash));
      var rec := repo.InsertQuestion(q, cfg.embed(q), if has then Some(semanticHash) else None);
      resp := GenerateAndCache(rec.id, req, q, via);
    }
  }

  lemma NotExact(cfg: Config, ix: Index, q: string, plan: seq<Mode>)
    requires plan != [] && (plan[0] == Exact ==> FindsNothing(cfg, ix, q, Exact))
    ensures !FoundExactly(ix, q, plan)
  {
  }

  /** The nearest record alone decides whether any is within the threshold. */
  lemma NearestDecides(cfg: Config, ix: Index, q: string, m: Option<Question>, distance: real)
    requires m.None? <==> ix.records == map[]
    requires m.Some? ==> Nearest(ix, cfg.embed(q), m.value) && distance == Distance(cfg.embed(q), m.value.embedding)
    ensures m.Some? && InLimit(cfg, distance) ==> Finds(cfg, ix, q, Similarity, m.value.record)
    ensures !(m.Some? && InLimit(cfg, distance)) ==> FindsNothing(cfg, ix, q, Similarity)
  {
    hide Distance;
  }
}
