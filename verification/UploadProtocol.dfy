/** Uploading and processing documents, as a state machine with one step per repository call.

    Any number of processing jobs may run for any document, interleaved in any way. Each call
    works, fails without effect, or has its effect and still reports an error. */
module UploadProtocol {
  import Text
  import Chunker
  import opened Documents

  type JobId = nat

  /** A row of the chunk table; (document, index) is unique. */
  datatype Row = Row(document: DocId, index: nat, content: string, tokenCount: nat)

  /** The next call of a job. */
  datatype Pc =
    | Load | MarkProcessing | FindFile | ReadFile | Embed | Insert | Finalize | MarkFailed
    | Returned(ok: bool) | Panicked

  datatype Job = Job(document: DocId, user: int, pc: Pc, chunks: seq<Chunker.Candidate>)

  /** An embedder may also answer with fewer vectors than it was given texts, which stops the job
      with an index error; to any other call that is a failure. */
  datatype Outcome = Works | Fails | ReplyLost | TooFew

  /** The call has its effect. */
  predicate Applies(outcome: Outcome) {
    outcome == Works || outcome == ReplyLost
  }

  predicate Over(pc: Pc) {
    pc.Returned? || pc.Panicked?
  }

  datatype State = State(docs: map<DocId, Document>, files: set<DocId>, blobs: map<DocId, string>,
                         table: seq<Row>, jobs: map<JobId, Job>)

  const INITIAL := State(map[], {}, map[], [], map[])

  datatype Step =
    /** The three writes of an upload; an interrupted upload makes only the first ones. */
    | CreateDocument(document: DocId, user: int)
    | PutBlob(document: DocId, content: string)
    | CreateFile(document: DocId)
    /** A job is delivered, possibly not for the first time. */
    | StartJob(job: JobId, document: DocId, user: int)
    | RunJob(job: JobId, outcome: Outcome)

  /* ---------- The chunk table ---------- */

  predicate SameKey(a: Row, b: Row) {
    a.document == b.document && a.index == b.index
  }

  /** The batch violates no uniqueness, against the table or within itself. */
  predicate Accepts(table: seq<Row>, batch: seq<Row>) {
    && (forall i, j :: 0 <= i < |table| && 0 <= j < |batch| ==> !SameKey(table[i], batch[j]))
    && (forall i, j :: 0 <= i < j < |batch| ==> !SameKey(batch[i], batch[j]))
  }

  function RowsFor(d: DocId, chunks: seq<Chunker.Candidate>): seq<Row> {
    seq(|chunks|, i requires 0 <= i < |chunks| =>
      Row(d, chunks[i].index, chunks[i].content, chunks[i].tokenCount))
  }

  /** The rows of one document, in table order. */
  function Of(table: seq<Row>, d: DocId): seq<Row> {
    if table == [] then []
    else
      var n := |table| - 1;
      Of(table[..n], d) + (if table[n].document == d then [table[n]] else [])
  }

  predicate Unique(table: seq<Row>) {
    forall i, j :: 0 <= i < j < |table| ==> !SameKey(table[i], table[j])
  }

  /** Inserts a batch in one transaction: row by row, undone at the first violation or at the
      call numbered `failAt`. */
  method InsertBatch(table: seq<Row>, batch: seq<Row>, failAt: nat) returns (table': seq<Row>, ok: bool)
    requires Unique(table)
    ensures ok <==> failAt >= |batch| && Accepts(table, batch)
    ensures table' == if ok then table + batch else table
    ensures Unique(table')
  {
    var work := table;
    for n := 0 to |batch|
      invariant work == table + batch[..n]
      invariant Unique(work)
      invariant failAt >= n
    {
      if n == failAt {
        return table, false;
      }
      var clash := false;
      for i := 0 to |work|
        invariant clash <==> exists k :: 0 <= k < i && SameKey(work[k], batch[n])
      {
        clash := clash || SameKey(work[i], batch[n]);
      }
      if clash {
        var k :| 0 <= k < |work| && SameKey(work[k], batch[n]);
        assert k < |table| || work[k] == batch[k - |table|];
        return table, false;
      }
      work := work + [batch[n]];
    }
    assert batch[..|batch|] == batch;
    forall i, j | 0 <= i < |table| && 0 <= j < |batch|
      ensures !SameKey(table[i], batch[j])
    {
      assert work[i] == table[i] && work[|table| + j] == batch[j];
    }
    forall i, j | 0 <= i < j < |batch|
      ensures !SameKey(batch[i], batch[j])
    {
      assert work[|table| + i] == batch[i] && work[|table| + j] == batch[j];
    }
    return work, true;
  }

  /* ---------- Steps ---------- */

  function SetStatus(docs: map<DocId, Document>, d: DocId, status: Status): map<DocId, Document> {
    if d in docs then docs[d := docs[d].(status := status)] else docs
  }

  predicate Enabled(st: State, step: Step) {
    match step
    case CreateDocument(d, _) => d !in st.docs
    case PutBlob(d, _) => d in st.docs && d !in st.blobs
    case CreateFile(d) => d in st.blobs && d !in st.files
    case StartJob(j, _, _) => j !in st.jobs
    case RunJob(j, _) => j in st.jobs && !Over(st.jobs[j].pc)
  }

  function At(st: State, j: JobId, pc: Pc): State
    requires j in st.jobs
  {
    st.(jobs := st.jobs[j := st.jobs[j].(pc := pc)])
  }

  function Apply(cfg: Chunker.Config, st: State, step: Step): State
    requires cfg.Valid() && Enabled(st, step)
  {
    match step
    case CreateDocument(d, user) => st.(docs := st.docs[d := Document(d, user, Pending)])
    case PutBlob(d, content) => st.(blobs := st.blobs[d := content])
    case CreateFile(d) => st.(files := st.files + {d})
    case StartJob(j, d, user) => st.(jobs := st.jobs[j := Job(d, user, Load, [])])
    case RunJob(j, outcome) => RunCall(cfg, st, j, outcome)
  }

  /** One call of a job. */
  function RunCall(cfg: Chunker.Config, st: State, j: JobId, outcome: Outcome): State
    requires cfg.Valid() && j in st.jobs && !Over(st.jobs[j].pc)
  {
    var job := st.jobs[j];
    var d := job.document;
    var applied := Applies(outcome);
    match job.pc
    case Load =>
      if outcome != Works || d !in st.docs || st.docs[d].user != job.user then At(st, j, Returned(false))
      else if st.docs[d].status == Processed then At(st, j, Returned(true))
      else At(st, j, MarkProcessing)
    case MarkProcessing =>
      var st' := if applied then st.(docs := SetStatus(st.docs, d, Processing)) else st;
      At(st', j, if outcome == Works then FindFile else Returned(false))
    case FindFile =>
      At(st, j, if outcome == Works && d in st.files then ReadFile else Returned(false))
    case ReadFile =>
      if outcome != Works || d !in st.blobs then At(st, j, MarkFailed)
      else
        var chunks := Chunker.Chunks(cfg, st.blobs[d]);
        if chunks == [] then At(st, j, MarkFailed)
        else st.(jobs := st.jobs[j := job.(pc := Embed, chunks := chunks)])
    case Embed => At(st, j, if outcome == Works then Insert else if outcome == TooFew then Panicked else MarkFailed)
    case Insert =>
      var batch := RowsFor(d, job.chunks);
      if applied && Accepts(st.table, batch) then
        At(st.(table := st.table + batch), j, if outcome == Works then Finalize else MarkFailed)
      else At(st, j, MarkFailed)
    case Finalize =>
      var st' := if applied then st.(docs := SetStatus(st.docs, d, Processed)) else st;
      At(st', j, Returned(outcome == Works))
    case MarkFailed =>
      var st' := if applied then st.(docs := SetStatus(st.docs, d, Failed)) else st;
      At(st', j, Returned(false))
  }

  /** The steps are possible, one after the other, from `st`. */
  predicate Possible(cfg: Chunker.Config, st: State, steps: seq<Step>)
    requires cfg.Valid()
    decreases |steps|, 0
  {
    steps == [] ||
    (var n := |steps| - 1;
     Possible(cfg, st, steps[..n]) && Enabled(After(cfg, st, steps[..n]), steps[n]))
  }

  function After(cfg: Chunker.Config, st: State, steps: seq<Step>): State
    requires cfg.Valid() && Possible(cfg, st, steps)
    decreases |steps|, 1
  {
    if steps == [] then st
    else
      var n := |steps| - 1;
      Apply(cfg, After(cfg, st, steps[..n]), steps[n])
  }

  /* ---------- The invariant ---------- */

  /** Every row the document ought to have. */
  function AllRows(cfg: Chunker.Config, st: State, d: DocId): seq<Row>
    requires cfg.Valid()
  {
    if d in st.blobs then RowsFor(d, Chunker.Chunks(cfg, st.blobs[d])) else []
  }

  predicate IsProcessed(st: State, d: DocId) {
    d in st.docs && st.docs[d].status == Processed
  }

  /** None or all of the document's rows are stored, and all of them when it is processed. */
  ghost predicate RowsOk(cfg: Chunker.Config, st: State, d: DocId)
    requires cfg.Valid()
  {
    && (Of(st.table, d) == [] || Of(st.table, d) == AllRows(cfg, st, d))
    && (IsProcessed(st, d) ==> Of(st.table, d) != [] && d in st.files)
  }

  ghost predicate JobOk(cfg: Chunker.Config, st: State, job: Job)
    requires cfg.Valid()
  {
    var d := job.document;
    && (job.pc.ReadFile? || job.pc.Embed? || job.pc.Insert? || job.pc.Finalize? ==> d in st.files)
    && (job.pc.Embed? || job.pc.Insert? ==>
          d in st.blobs && job.chunks == Chunker.Chunks(cfg, st.blobs[d]) && job.chunks != [])
    && (job.pc.Finalize? ==> Of(st.table, d) != [])
  }

  ghost predicate Inv(cfg: Chunker.Config, st: State)
    requires cfg.Valid()
  {
    && (forall d :: d in st.files ==> d in st.blobs)
    && (forall d :: d in st.blobs ==> d in st.docs)
    && (forall i :: 0 <= i < |st.table| ==> st.table[i].document in st.blobs)
    && (forall d: DocId :: RowsOk(cfg, st, d))
    && (forall j :: j in st.jobs ==> JobOk(cfg, st, st.jobs[j]))
  }

  lemma {:induction false} OfConcat(a: seq<Row>, b: seq<Row>, d: DocId)
    ensures Of(a + b, d) == Of(a, d) + Of(b, d)
  {
    if b == [] {
      assert a + b == a;
    } else {
      assert (a + b)[..|a + b| - 1] == a + b[..|b| - 1];
      OfConcat(a, b[..|b| - 1], d);
    }
  }

  lemma {:induction false} OfOneDocument(rows: seq<Row>, owner: DocId, d: DocId)
    requires forall i :: 0 <= i < |rows| ==> rows[i].document == owner
    ensures Of(rows, d) == if d == owner then rows else []
  {
    if rows != [] {
      var n := |rows| - 1;
      OfOneDocument(rows[..n], owner, d);
      assert rows == rows[..n] + [rows[n]];
    }
  }

  lemma {:induction false} OfMember(table: seq<Row>, d: DocId)
    ensures forall r :: r in Of(table, d) <==> r in table && r.document == d
  {
    if table != [] {
      var n := |table| - 1;
      OfMember(table[..n], d);
      assert table == table[..n] + [table[n]];
    }
  }

  /** A batch is only accepted when the document has no rows yet. */
  lemma AcceptedMeansFirst(table: seq<Row>, d: DocId, batch: seq<Row>)
    requires batch != [] && (forall i :: 0 <= i < |batch| ==> batch[i].document == d)
    requires Of(table, d) == [] || Of(table, d) == batch
    requires Accepts(table, batch)
    ensures Of(table, d) == []
    ensures forall e: DocId :: Of(table + batch, e) == if e == d then batch else Of(table, e)
  {
    forall i | 0 <= i < |table|
      ensures table[i] != batch[0]
    {
      assert !SameKey(table[i], batch[0]);
    }
    OfMember(table, d);
    assert batch[0] !in Of(table, d);
    forall e: DocId
      ensures Of(table + batch, e) == if e == d then batch else Of(table, e)
    {
      OfConcat(table, batch, e);
      OfOneDocument(batch, d, e);
    }
  }

  lemma JobStaysOk(cfg: Chunker.Config, st: State, st': State, job: Job)
    requires cfg.Valid() && JobOk(cfg, st, job)
    requires st.files <= st'.files && (forall d :: d in st.blobs ==> d in st'.blobs && st'.blobs[d] == st.blobs[d])
    requires Of(st.table, job.document) != [] ==> Of(st'.table, job.document) != []
    ensures JobOk(cfg, st', job)
  {
    hide Chunker.Chunks, Of;
  }

  /** Calls that leave the table alone. */
  lemma CallKeeps(cfg: Chunker.Config, st: State, j: JobId, outcome: Outcome)
    requires cfg.Valid() && Inv(cfg, st) && j in st.jobs
    requires !Over(st.jobs[j].pc) && !st.jobs[j].pc.Insert?
    ensures Inv(cfg, RunCall(cfg, st, j, outcome))
  {
    hide Chunker.Chunks, Of, AllRows, Accepts, RunCall, RowsOk, JobOk;
    var st' := RunCall(cfg, st, j, outcome);
    CallFrame(cfg, st, j, outcome);
    forall d: DocId
      ensures RowsOk(cfg, st', d)
    {
      CallKeepsRows(cfg, st, j, outcome, d);
    }
    forall k | k in st'.jobs
      ensures JobOk(cfg, st', st'.jobs[k])
    {
      if k == j {
        CallKeepsJob(cfg, st, j, outcome);
      } else {
        JobStaysOk(cfg, st, st', st.jobs[k]);
      }
    }
  }

  /** What such a call leaves alone. */
  lemma CallFrame(cfg: Chunker.Config, st: State, j: JobId, outcome: Outcome)
    requires cfg.Valid() && j in st.jobs && !Over(st.jobs[j].pc) && !st.jobs[j].pc.Insert?
    ensures var st' := RunCall(cfg, st, j, outcome);
            && st'.table == st.table && st'.files == st.files && st'.blobs == st.blobs
            && st'.docs.Keys == st.docs.Keys && st'.jobs.Keys == st.jobs.Keys
            && forall k :: k in st.jobs && k != j ==> st'.jobs[k] == st.jobs[k]
  {
    hide Chunker.Chunks, Of, Accepts, SetStatus;
    forall status
      ensures SetStatus(st.docs, st.jobs[j].document, status).Keys == st.docs.Keys
    {
      SameDocuments(st.docs, st.jobs[j].document, status);
    }
  }

  lemma SameDocuments(docs: map<DocId, Document>, d: DocId, status: Status)
    ensures SetStatus(docs, d, status).Keys == docs.Keys
  {
  }

  lemma CallKeepsRows(cfg: Chunker.Config, st: State, j: JobId, outcome: Outcome, d: DocId)
    requires cfg.Valid() && j in st.jobs && !Over(st.jobs[j].pc) && !st.jobs[j].pc.Insert?
    requires JobOk(cfg, st, st.jobs[j]) && RowsOk(cfg, st, d)
    ensures RowsOk(cfg, RunCall(cfg, st, j, outcome), d)
  {
    hide Chunker.Chunks, Of, AllRows, Accepts;
    SameRows(cfg, st, RunCall(cfg, st, j, outcome), d);
  }

  lemma CallKeepsJob(cfg: Chunker.Config, st: State, j: JobId, outcome: Outcome)
    requires cfg.Valid() && j in st.jobs && !Over(st.jobs[j].pc) && !st.jobs[j].pc.Insert?
    requires JobOk(cfg, st, st.jobs[j]) && (forall d :: d in st.files ==> d in st.blobs)
    ensures j in RunCall(cfg, st, j, outcome).jobs
    ensures JobOk(cfg, RunCall(cfg, st, j, outcome), RunCall(cfg, st, j, outcome).jobs[j])
  {
    hide Chunker.Chunks, Of, AllRows, Accepts;
  }

  lemma SameRows(cfg: Chunker.Config, st: State, st': State, d: DocId)
    requires cfg.Valid() && (d in st.blobs <==> d in st'.blobs)
    requires d in st.blobs ==> st'.blobs[d] == st.blobs[d]
    ensures AllRows(cfg, st', d) == AllRows(cfg, st, d)
  {
  }

  lemma InsertKeeps(cfg: Chunker.Config, st: State, j: JobId, outcome: Outcome)
    requires cfg.Valid() && Inv(cfg, st) && j in st.jobs && st.jobs[j].pc.Insert?
    ensures Inv(cfg, RunCall(cfg, st, j, outcome))
  {
    hide Chunker.Chunks, Of, Accepts;
    var st' := RunCall(cfg, st, j, outcome);
    var job := st.jobs[j];
    var batch := RowsFor(job.document, job.chunks);
    assert JobOk(cfg, st, job) && RowsOk(cfg, st, job.document);
    assert AllRows(cfg, st, job.document) == batch;
    if Applies(outcome) && Accepts(st.table, batch) {
      AcceptedMeansFirst(st.table, job.document, batch);
    }
    forall d: DocId
      ensures RowsOk(cfg, st', d)
    {
      assert RowsOk(cfg, st, d);
    }
    forall k | k in st'.jobs
      ensures JobOk(cfg, st', st'.jobs[k])
    {
      if k != j {
        JobStaysOk(cfg, st, st', st.jobs[k]);
      }
    }
  }

  lemma WriteKeeps(cfg: Chunker.Config, st: State, step: Step)
    requires cfg.Valid() && Inv(cfg, st) && Enabled(st, step) && !step.RunJob?
    ensures Inv(cfg, Apply(cfg, st, step))
  {
    hide Chunker.Chunks, Of;
    var st' := Apply(cfg, st, step);
    forall d: DocId
      ensures RowsOk(cfg, st', d)
    {
      assert RowsOk(cfg, st, d);
      if step.PutBlob? && d == step.document {
        assert AllRows(cfg, st, d) == [];
      }
    }
    forall k | k in st'.jobs
      ensures JobOk(cfg, st', st'.jobs[k])
    {
      if k in st.jobs {
        JobStaysOk(cfg, st, st', st.jobs[k]);
      }
    }
  }

  lemma StepKeeps(cfg: Chunker.Config, st: State, step: Step)
    requires cfg.Valid() && Inv(cfg, st) && Enabled(st, step)
    ensures Inv(cfg, Apply(cfg, st, step))
  {
    hide Chunker.Chunks, Of, Inv, RunCall;
    match step
    case RunJob(j, outcome) =>
      if st.jobs[j].pc.Insert? {
        InsertKeeps(cfg, st, j, outcome);
      } else {
        CallKeeps(cfg, st, j, outcome);
      }
    case _ => WriteKeeps(cfg, st, step);
  }

  lemma {:induction false} RunKeeps(cfg: Chunker.Config, st: State, steps: seq<Step>)
    requires cfg.Valid() && Inv(cfg, st) && Possible(cfg, st, steps)
    ensures Inv(cfg, After(cfg, st, steps))
  {
    hide Inv, Apply;
    if steps != [] {
      var n := |steps| - 1;
      RunKeeps(cfg, st, steps[..n]);
      StepKeeps(cfg, After(cfg, st, steps[..n]), steps[n]);
    }
  }

  lemma InitialOk(cfg: Chunker.Config)
    requires cfg.Valid()
    ensures Inv(cfg, INITIAL)
  {
  }

  /* ---------- Stored chunks are never partial ---------- */

  /** What a search restricted to processed documents reads. */
  function ProcessedRows(st: State, table: seq<Row>): seq<Row> {
    if table == [] then []
    else
      var n := |table| - 1;
      ProcessedRows(st, table[..n]) + (if IsProcessed(st, table[n].document) then [table[n]] else [])
  }

  lemma {:induction false} OfProcessedRows(st: State, table: seq<Row>, d: DocId)
    ensures Of(ProcessedRows(st, table), d) == if IsProcessed(st, d) then Of(table, d) else []
  {
    hide IsProcessed;
    if table != [] {
      var n := |table| - 1;
      var last := if IsProcessed(st, table[n].document) then [table[n]] else [];
      OfProcessedRows(st, table[..n], d);
      OfConcat(ProcessedRows(st, table[..n]), last, d);
      OfOneDocument(last, table[n].document, d);
    }
  }

  /** In every interleaving of any number of jobs, with any call failing: a document's stored
      rows are none or exactly the chunker's full list, in order and once each; a processed
      document has them all; and a search of the processed documents sees all the rows of a
      document or none. */
  lemma NeverPartial(cfg: Chunker.Config, steps: seq<Step>, d: DocId)
    requires cfg.Valid() && Possible(cfg, INITIAL, steps)
    ensures var st := After(cfg, INITIAL, steps);
            && (Of(st.table, d) == [] || Of(st.table, d) == AllRows(cfg, st, d))
            && (IsProcessed(st, d) ==> d in st.blobs && Of(st.table, d) == AllRows(cfg, st, d) != [])
            && Of(ProcessedRows(st, st.table), d) == if IsProcessed(st, d) then AllRows(cfg, st, d) else []
  {
    hide Chunker.Chunks, Of, AllRows, After;
    InitialOk(cfg);
    RunKeeps(cfg, INITIAL, steps);
    var st := After(cfg, INITIAL, steps);
    assert RowsOk(cfg, st, d);
    OfProcessedRows(st, st.table, d);
  }

  /** Full lists are numbered 0..n-1, and hold the text and the size of every chunk. */
  lemma FullListNumbered(cfg: Chunker.Config, st: State, d: DocId, i: nat)
    requires cfg.Valid() && i < |AllRows(cfg, st, d)|
    ensures d in st.blobs && |AllRows(cfg, st, d)| == |Chunker.Chunks(cfg, st.blobs[d])|
    ensures var c := Chunker.Chunks(cfg, st.blobs[d])[i];
            AllRows(cfg, st, d)[i] == Row(d, i, c.content, c.tokenCount)
  {
    hide Chunker.Blocks;
  }

  /* ---------- At most one batch is ever stored ---------- */

  /** The i-th step stores rows of the document. */
  predicate StoresAt(cfg: Chunker.Config, steps: seq<Step>, i: nat, d: DocId)
    requires cfg.Valid() && i < |steps| && Possible(cfg, INITIAL, steps[..i]) && Possible(cfg, INITIAL, steps[..i + 1])
  {
    Of(After(cfg, INITIAL, steps[..i + 1]).table, d) != Of(After(cfg, INITIAL, steps[..i]).table, d)
  }

  lemma {:induction false} PrefixPossible(cfg: Chunker.Config, st: State, steps: seq<Step>, i: nat)
    requires cfg.Valid() && Possible(cfg, st, steps) && i <= |steps|
    ensures Possible(cfg, st, steps[..i])
  {
    if i < |steps| {
      var n := |steps| - 1;
      PrefixPossible(cfg, st, steps[..n], i);
      assert steps[..n][..i] == steps[..i];
    } else {
      assert steps[..i] == steps;
    }
  }

  /** Once a document has rows, no step changes them. */
  lemma RowsAreKept(cfg: Chunker.Config, st: State, step: Step, d: DocId)
    requires cfg.Valid() && Inv(cfg, st) && Enabled(st, step) && Of(st.table, d) != []
    ensures Of(Apply(cfg, st, step).table, d) == Of(st.table, d)
  {
    hide Chunker.Chunks, Of, Accepts;
    if step.RunJob? && st.jobs[step.job].pc.Insert? {
      var job := st.jobs[step.job];
      var batch := RowsFor(job.document, job.chunks);
      assert JobOk(cfg, st, job) && RowsOk(cfg, st, job.document);
      assert AllRows(cfg, st, job.document) == batch;
      if Accepts(st.table, batch) {
        AcceptedMeansFirst(st.table, job.document, batch);
      }
    }
  }

  lemma {:induction false} RowsAreKeptFrom(cfg: Chunker.Config, steps: seq<Step>, i: nat, d: DocId)
    requires cfg.Valid() && Possible(cfg, INITIAL, steps) && i <= |steps| && Possible(cfg, INITIAL, steps[..i])
    requires Of(After(cfg, INITIAL, steps[..i]).table, d) != []
    ensures Of(After(cfg, INITIAL, steps).table, d) == Of(After(cfg, INITIAL, steps[..i]).table, d)
  {
    hide Of, Inv, Apply;
    if i == |steps| {
      assert steps[..i] == steps;
    } else {
      var n := |steps| - 1;
      assert steps[..n][..i] == steps[..i];
      RowsAreKeptFrom(cfg, steps[..n], i, d);
      InitialOk(cfg);
      RunKeeps(cfg, INITIAL, steps[..n]);
      RowsAreKept(cfg, After(cfg, INITIAL, steps[..n]), steps[n], d);
    }
  }

  /** Two different steps of a run never both store rows of one document. */
  lemma AtMostOneBatch(cfg: Chunker.Config, steps: seq<Step>, i: nat, k: nat, d: DocId)
    requires cfg.Valid() && Possible(cfg, INITIAL, steps) && i < k < |steps|
    ensures Possible(cfg, INITIAL, steps[..i]) && Possible(cfg, INITIAL, steps[..i + 1])
    ensures Possible(cfg, INITIAL, steps[..k]) && Possible(cfg, INITIAL, steps[..k + 1])
    ensures !(StoresAt(cfg, steps, i, d) && StoresAt(cfg, steps, k, d))
  {
    hide Of, Inv, Apply, After;
    PrefixPossible(cfg, INITIAL, steps, i);
    PrefixPossible(cfg, INITIAL, steps, i + 1);
    PrefixPossible(cfg, INITIAL, steps, k);
    PrefixPossible(cfg, INITIAL, steps, k + 1);
    var i0, i1 := steps[..i], steps[..i + 1];
    if Of(After(cfg, INITIAL, i0).table, d) != [] {
      assert i1[..i] == i0;
      RowsAreKeptFrom(cfg, i1, i, d);
    } else if Of(After(cfg, INITIAL, i1).table, d) != [] {
      assert steps[..k][..i + 1] == i1 && steps[..k + 1][..i + 1] == i1;
      RowsAreKeptFrom(cfg, steps[..k], i + 1, d);
      RowsAreKeptFrom(cfg, steps[..k + 1], i + 1, d);
    }
  }

  /* ---------- What a job's return value means ---------- */

  /** At the moment a job returns without an error its document is processed. */
  lemma NilMeansProcessed(cfg: Chunker.Config, steps: seq<Step>, step: Step)
    requires cfg.Valid() && Possible(cfg, INITIAL, steps) && Enabled(After(cfg, INITIAL, steps), step) && step.RunJob?
    ensures var st' := Apply(cfg, After(cfg, INITIAL, steps), step);
            var job := st'.jobs[step.job];
            job.pc == Returned(true) ==> IsProcessed(st', job.document)
  {
    hide Chunker.Chunks, Of, After;
    InitialOk(cfg);
    RunKeeps(cfg, INITIAL, steps);
    var st := After(cfg, INITIAL, steps);
    assert JobOk(cfg, st, st.jobs[step.job]);
  }

  /* ---------- When is "processed" final? ---------- */

  /** Past the status check, and still able to write another status. */
  predicate Midway(pc: Pc) {
    pc.MarkProcessing? || pc.FindFile? || pc.ReadFile? || pc.Embed? || pc.Insert? || pc.MarkFailed?
  }

  predicate Quiet(st: State, d: DocId) {
    forall j :: j in st.jobs && st.jobs[j].document == d ==> !Midway(st.jobs[j].pc)
  }

  lemma QuietStaysProcessed(cfg: Chunker.Config, st: State, step: Step, d: DocId)
    requires cfg.Valid() && Enabled(st, step) && IsProcessed(st, d) && Quiet(st, d)
    ensures IsProcessed(Apply(cfg, st, step), d) && Quiet(Apply(cfg, st, step), d)
  {
    hide Chunker.Chunks, Of, Accepts;
  }

  lemma {:induction false} QuietForEver(cfg: Chunker.Config, st: State, steps: seq<Step>, d: DocId)
    requires cfg.Valid() && Possible(cfg, st, steps) && IsProcessed(st, d) && Quiet(st, d)
    ensures IsProcessed(After(cfg, st, steps), d) && Quiet(After(cfg, st, steps), d)
  {
    hide Apply, Quiet, IsProcessed;
    if steps != [] {
      var n := |steps| - 1;
      QuietForEver(cfg, st, steps[..n], d);
      QuietStaysProcessed(cfg, After(cfg, st, steps[..n]), steps[n], d);
    }
  }

  lemma RunMore(cfg: Chunker.Config, st: State, steps: seq<Step>, step: Step)
    requires cfg.Valid() && Possible(cfg, st, steps) && Enabled(After(cfg, st, steps), step)
    ensures Possible(cfg, st, steps + [step])
    ensures After(cfg, st, steps + [step]) == Apply(cfg, After(cfg, st, steps), step)
  {
    assert (steps + [step])[..|steps|] == steps;
  }

  lemma CallFails(cfg: Chunker.Config, st: State, j: JobId)
    requires cfg.Valid() && j in st.jobs
    requires st.jobs[j].pc.ReadFile? || st.jobs[j].pc.Embed? || st.jobs[j].pc.Insert?
    ensures RunCall(cfg, st, j, Fails) == At(st, j, MarkFailed)
  {
    hide Chunker.Chunks, Accepts;
  }

  lemma OneStep(cfg: Chunker.Config, st: State, step: Step)
    requires cfg.Valid() && Enabled(st, step)
    ensures Possible(cfg, st, [step]) && After(cfg, st, [step]) == Apply(cfg, st, step)
  {
    NoSteps(cfg, st);
    RunMore(cfg, st, [], step);
    assert [] + [step] == [step];
  }

  /** A job midway can take a processed document back: its next call fails, and then the
      failure is recorded. */
  lemma {:induction false} MidwayUndoes(cfg: Chunker.Config, st: State, j: JobId) returns (steps: seq<Step>)
    requires cfg.Valid() && j in st.jobs && Midway(st.jobs[j].pc)
    requires st.jobs[j].document in st.docs && st.jobs[j].document in st.files
    ensures Possible(cfg, st, steps) && !IsProcessed(After(cfg, st, steps), st.jobs[j].document)
    decreases if st.jobs[j].pc.FindFile? then 2 else if st.jobs[j].pc.MarkProcessing? || st.jobs[j].pc.MarkFailed? then 0 else 1
  {
    hide Chunker.Chunks, Accepts, RunCall, After, Possible;
    var pc := st.jobs[j].pc;
    var step := RunJob(j, if pc.ReadFile? || pc.Embed? || pc.Insert? then Fails else Works);
    OneStep(cfg, st, step);
    CallWorks(cfg, st, j);
    steps := [step];
    if !pc.MarkProcessing? && !pc.MarkFailed? {
      if !pc.FindFile? {
        CallFails(cfg, st, j);
      }
      var more := MidwayUndoes(cfg, RunCall(cfg, st, j, step.outcome), j);
      RunConcat(cfg, st, steps, more);
      steps := steps + more;
    }
  }

  lemma ProcessedHasFile(cfg: Chunker.Config, st: State, d: DocId)
    requires cfg.Valid() && Inv(cfg, st) && IsProcessed(st, d)
    ensures d in st.docs && d in st.files
  {
    hide Chunker.Chunks, Of;
    assert RowsOk(cfg, st, d);
  }

  /** A processed document stays processed in every continuation if and only if no job of it
      is midway, that is, past its status check with a status still to write. */
  lemma ProcessedIsFinalIff(cfg: Chunker.Config, before: seq<Step>, d: DocId)
    requires cfg.Valid() && Possible(cfg, INITIAL, before) && IsProcessed(After(cfg, INITIAL, before), d)
    ensures var st := After(cfg, INITIAL, before);
            (forall steps :: Possible(cfg, st, steps) ==> IsProcessed(After(cfg, st, steps), d)) <==> Quiet(st, d)
  {
    hide Apply, IsProcessed, Inv, Possible, After;
    InitialOk(cfg);
    RunKeeps(cfg, INITIAL, before);
    var st := After(cfg, INITIAL, before);
    if Quiet(st, d) {
      forall steps | Possible(cfg, st, steps)
        ensures IsProcessed(After(cfg, st, steps), d)
      {
        QuietForEver(cfg, st, steps, d);
      }
    } else {
      var j :| j in st.jobs && st.jobs[j].document == d && Midway(st.jobs[j].pc);
      ProcessedHasFile(cfg, st, d);
      var steps := MidwayUndoes(cfg, st, j);
    }
  }

  lemma {:induction false} RunConcat(cfg: Chunker.Config, st: State, a: seq<Step>, b: seq<Step>)
    requires cfg.Valid() && Possible(cfg, st, a) && Possible(cfg, After(cfg, st, a), b)
    ensures Possible(cfg, st, a + b) && After(cfg, st, a + b) == After(cfg, After(cfg, st, a), b)
  {
    hide Apply;
    if b == [] {
      assert a + b == a;
    } else {
      var n := |b| - 1;
      RunConcat(cfg, st, a, b[..n]);
      assert (a + b)[..|a + b| - 1] == a + b[..n];
    }
  }

  /** No two jobs of the document are under way at once. */
  ghost predicate NoOverlap(st: State, d: DocId) {
    forall j, k :: Active(st, j, d) && Active(st, k, d) ==> j == k
  }

  predicate Active(st: State, j: JobId, d: DocId) {
    j in st.jobs && st.jobs[j].document == d && !Over(st.jobs[j].pc)
  }

  ghost predicate NeverOverlaps(cfg: Chunker.Config, steps: seq<Step>, d: DocId)
    requires cfg.Valid() && Possible(cfg, INITIAL, steps)
  {
    forall i :: 0 <= i <= |steps| ==> (PrefixPossible(cfg, INITIAL, steps, i); NoOverlap(After(cfg, INITIAL, steps[..i]), d))
  }

  lemma FinishedAlone(cfg: Chunker.Config, st: State, step: Step, d: DocId)
    requires cfg.Valid() && Enabled(st, step) && NoOverlap(st, d)
    requires IsProcessed(st, d) ==> Quiet(st, d)
    ensures IsProcessed(Apply(cfg, st, step), d) ==> Quiet(Apply(cfg, st, step), d)
  {
    hide Chunker.Chunks, Of, Accepts;
    if IsProcessed(st, d) {
      QuietStaysProcessed(cfg, st, step, d);
    } else if IsProcessed(Apply(cfg, st, step), d) {
      assert Active(st, step.job, d);
      forall k | k in st.jobs && k != step.job && st.jobs[k].document == d
        ensures Over(st.jobs[k].pc)
      {
        assert !Active(st, k, d);
      }
    }
  }

  lemma {:induction false} AloneMeansQuiet(cfg: Chunker.Config, steps: seq<Step>, d: DocId)
    requires cfg.Valid() && Possible(cfg, INITIAL, steps) && NeverOverlaps(cfg, steps, d)
    ensures IsProcessed(After(cfg, INITIAL, steps), d) ==> Quiet(After(cfg, INITIAL, steps), d)
  {
    hide Apply, Quiet, NoOverlap;
    if steps != [] {
      var n := |steps| - 1;
      var prior := steps[..n];
      forall i | 0 <= i <= n
        ensures Possible(cfg, INITIAL, prior[..i]) && NoOverlap(After(cfg, INITIAL, prior[..i]), d)
      {
        assert prior[..i] == steps[..i];
        PrefixPossible(cfg, INITIAL, steps, i);
      }
      AloneMeansQuiet(cfg, prior, d);
      assert prior[..n] == prior;
      FinishedAlone(cfg, After(cfg, INITIAL, prior), steps[n], d);
    }
  }

  /** When a document's jobs do not overlap, processed is absorbing, over any number of
      retries and redeliveries. */
  lemma ProcessedAbsorbing(cfg: Chunker.Config, before: seq<Step>, d: DocId, steps: seq<Step>)
    requires cfg.Valid() && Possible(cfg, INITIAL, before) && NeverOverlaps(cfg, before, d)
    requires IsProcessed(After(cfg, INITIAL, before), d)
    requires Possible(cfg, After(cfg, INITIAL, before), steps)
    ensures IsProcessed(After(cfg, After(cfg, INITIAL, before), steps), d)
  {
    AloneMeansQuiet(cfg, before, d);
    QuietForEver(cfg, After(cfg, INITIAL, before), steps, d);
  }

  /* ---------- When can a document still be processed? ---------- */

  predicate Finalizing(st: State, d: DocId) {
    exists j :: j in st.jobs && st.jobs[j].document == d && st.jobs[j].pc.Finalize?
  }

  /** Rows stored, nobody left to record it. */
  predicate Stuck(st: State, d: DocId) {
    Of(st.table, d) != [] && !IsProcessed(st, d) && !Finalizing(st, d)
  }

  lemma StuckStaysStuck(cfg: Chunker.Config, st: State, step: Step, d: DocId)
    requires cfg.Valid() && Inv(cfg, st) && Enabled(st, step) && Stuck(st, d)
    ensures Stuck(Apply(cfg, st, step), d)
  {
    hide Chunker.Chunks, Of, Accepts;
    RowsAreKept(cfg, st, step, d);
    var st' := Apply(cfg, st, step);
    assert RowsOk(cfg, st, d);
    if step.RunJob? && st.jobs[step.job].pc.Insert? && st.jobs[step.job].document == d {
      var job := st.jobs[step.job];
      var batch := RowsFor(d, job.chunks);
      assert JobOk(cfg, st, job) && AllRows(cfg, st, d) == batch;
      if Accepts(st.table, batch) {
        AcceptedMeansFirst(st.table, d, batch);
      }
    }
    forall k | k in st'.jobs && st'.jobs[k].document == d
      ensures !st'.jobs[k].pc.Finalize?
    {
      assert k in st.jobs ==> !(st.jobs[k].document == d && st.jobs[k].pc.Finalize?);
    }
  }

  lemma {:induction false} StuckForEver(cfg: Chunker.Config, st: State, steps: seq<Step>, d: DocId)
    requires cfg.Valid() && Inv(cfg, st) && Possible(cfg, st, steps) && Stuck(st, d)
    ensures Stuck(After(cfg, st, steps), d)
  {
    hide Apply, Stuck, Inv;
    if steps != [] {
      var n := |steps| - 1;
      StuckForEver(cfg, st, steps[..n], d);
      RunKeeps(cfg, st, steps[..n]);
      StuckStaysStuck(cfg, After(cfg, st, steps[..n]), steps[n], d);
    }
  }

  lemma {:induction false} FreshJob(taken: set<JobId>) returns (j: JobId)
    ensures forall k :: k in taken ==> k < j
    decreases taken
  {
    if taken == {} {
      j := 0;
    } else {
      var k :| k in taken;
      var rest := FreshJob(taken - {k});
      j := if k < rest then rest else k + 1;
      assert forall x :: x in taken ==> x == k || x in taken - {k};
    }
  }

  lemma FullListAccepted(cfg: Chunker.Config, st: State, d: DocId)
    requires cfg.Valid() && Of(st.table, d) == []
    ensures Accepts(st.table, AllRows(cfg, st, d))
  {
    hide Chunker.Chunks, Of;
    OfMember(st.table, d);
    var batch := AllRows(cfg, st, d);
    forall i | 0 <= i < |batch|
      ensures batch[i].index == i && batch[i].document == d
    {
      FullListNumbered(cfg, st, d, i);
    }
    forall i, j | 0 <= i < |st.table| && 0 <= j < |batch|
      ensures !SameKey(st.table[i], batch[j])
    {
      assert st.table[i] in st.table;
    }
  }

  /** What the calls of a job do when they work. */
  lemma CallWorks(cfg: Chunker.Config, st: State, j: JobId)
    requires cfg.Valid() && j in st.jobs && !Over(st.jobs[j].pc)
    ensures var job := st.jobs[j];
            var d, r := job.document, RunCall(cfg, st, j, Works);
            match job.pc
            case Load => d in st.docs && st.docs[d].user == job.user && !IsProcessed(st, d) ==> r == At(st, j, MarkProcessing)
            case MarkProcessing => r == At(st.(docs := SetStatus(st.docs, d, Processing)), j, FindFile)
            case FindFile => d in st.files ==> r == At(st, j, ReadFile)
            case ReadFile =>
              d in st.blobs && Chunker.Chunks(cfg, st.blobs[d]) != [] ==>
                r == st.(jobs := st.jobs[j := job.(pc := Embed, chunks := Chunker.Chunks(cfg, st.blobs[d]))])
            case Embed => r == At(st, j, Insert)
            case Insert =>
              if Accepts(st.table, RowsFor(d, job.chunks))
              then r == At(st.(table := st.table + RowsFor(d, job.chunks)), j, Finalize)
              else r == At(st, j, MarkFailed)
            case Finalize => (d in st.docs ==> IsProcessed(r, d)) && r.jobs[j].pc == Returned(true)
            case MarkFailed => r == At(st.(docs := SetStatus(st.docs, d, Failed)), j, Returned(false))
            case _ => true
    ensures var r := RunCall(cfg, st, j, Works);
            && r.docs.Keys == st.docs.Keys && r.jobs.Keys == st.jobs.Keys
            && forall k :: k in st.jobs && k != j ==> r.jobs[k] == st.jobs[k]
  {
    hide Chunker.Chunks, Accepts;
  }

  /** The first half of a job: up to reading the file. */
  lemma JobReads(cfg: Chunker.Config, st: State, d: DocId, j: JobId) returns (steps: seq<Step>)
    requires cfg.Valid() && j !in st.jobs && !IsProcessed(st, d)
    requires d in st.files && d in st.docs && d in st.blobs && Chunker.Chunks(cfg, st.blobs[d]) != []
    ensures Possible(cfg, st, steps)
    ensures var r := After(cfg, st, steps);
            && r.table == st.table && r.docs.Keys == st.docs.Keys
            && r.jobs.Keys == st.jobs.Keys + {j}
            && r.jobs[j] == Job(d, st.docs[d].user, Embed, Chunker.Chunks(cfg, st.blobs[d]))
            && forall k :: k in st.jobs ==> k in r.jobs && r.jobs[k] == st.jobs[k]
  {
    hide Chunker.Chunks, Of, Accepts, RunCall, After, Possible;
    var user := st.docs[d].user;
    NoSteps(cfg, st);
    RunMore(cfg, st, [], StartJob(j, d, user));
    steps := [] + [StartJob(j, d, user)];
    for i := 0 to 4
      invariant Possible(cfg, st, steps)
      invariant var r := After(cfg, st, steps);
                && r.table == st.table && r.docs.Keys == st.docs.Keys && r.files == st.files && r.blobs == st.blobs
                && r.jobs.Keys == st.jobs.Keys + {j}
                && (forall k :: k in st.jobs ==> k in r.jobs && r.jobs[k] == st.jobs[k])
                && r.jobs[j] == if i < 4 then Job(d, user, [Load, MarkProcessing, FindFile, ReadFile][i], [])
                                else Job(d, user, Embed, Chunker.Chunks(cfg, st.blobs[d]))
      invariant i == 0 ==> After(cfg, st, steps).docs == st.docs
    {
      CallWorks(cfg, After(cfg, st, steps), j);
      steps := Advance(cfg, st, steps, j);
    }
  }

  lemma NoSteps(cfg: Chunker.Config, st: State)
    requires cfg.Valid()
    ensures Possible(cfg, st, []) && After(cfg, st, []) == st
  {
  }

  /** A new job whose calls all work processes a document that has no rows yet. */
  lemma JobSucceeds(cfg: Chunker.Config, st: State, d: DocId) returns (steps: seq<Step>)
    requires cfg.Valid() && Inv(cfg, st) && d in st.files && !IsProcessed(st, d)
    requires Of(st.table, d) == [] && AllRows(cfg, st, d) != []
    ensures Possible(cfg, st, steps) && IsProcessed(After(cfg, st, steps), d)
    ensures var r := After(cfg, st, steps);
            && (forall k :: k in st.jobs ==> k in r.jobs && r.jobs[k] == st.jobs[k])
            && (forall k :: k in r.jobs && k !in st.jobs ==> r.jobs[k].pc.Returned?)
  {
    hide Chunker.Chunks, Of, Accepts, RunCall, After, Possible;
    var j := FreshJob(st.jobs.Keys);
    FullListAccepted(cfg, st, d);
    steps := JobReads(cfg, st, d, j);
    for i := 0 to 3
      invariant Possible(cfg, st, steps)
      invariant var r := After(cfg, st, steps);
                && d in r.docs && (forall k :: k in st.jobs ==> k in r.jobs && r.jobs[k] == st.jobs[k])
                && r.jobs.Keys == st.jobs.Keys + {j} && (i == 3 ==> r.jobs[j].pc.Returned?)
                && (i < 3 ==> r.jobs[j].document == d)
                && (i < 2 ==> r.table == st.table && r.jobs[j].chunks == Chunker.Chunks(cfg, st.blobs[d]))
                && (i < 3 ==> r.jobs[j].pc == [Embed, Insert, Finalize][i])
                && (i == 3 ==> IsProcessed(r, d))
    {
      CallWorks(cfg, After(cfg, st, steps), j);
      steps := Advance(cfg, st, steps, j);
    }
  }

  /** The next call of a job works. */
  lemma Advance(cfg: Chunker.Config, st: State, steps: seq<Step>, j: JobId) returns (more: seq<Step>)
    requires cfg.Valid() && Possible(cfg, st, steps) && Enabled(After(cfg, st, steps), RunJob(j, Works))
    ensures Possible(cfg, st, more)
    ensures After(cfg, st, more) == RunCall(cfg, After(cfg, st, steps), j, Works)
  {
    more := steps + [RunJob(j, Works)];
    RunMore(cfg, st, steps, RunJob(j, Works));
  }

  /** An unprocessed document with a stored, non-blank file can still become processed if and
      only if its rows are not stored yet or a job is about to record that they are. So when
      the final status update fails after the rows were stored, no retry ever succeeds. */
  lemma CanBeProcessedIff(cfg: Chunker.Config, before: seq<Step>, d: DocId)
    requires cfg.Valid() && Possible(cfg, INITIAL, before)
    requires var st := After(cfg, INITIAL, before);
             d in st.files && !IsProcessed(st, d) && d in st.blobs && Text.Fields(st.blobs[d]) != []
    ensures var st := After(cfg, INITIAL, before);
            (exists steps :: Possible(cfg, st, steps) && IsProcessed(After(cfg, st, steps), d))
            <==> Of(st.table, d) == [] || Finalizing(st, d)
  {
    hide Chunker.Chunks, Of, Apply, Text.Split;
    InitialOk(cfg);
    RunKeeps(cfg, INITIAL, before);
    var st := After(cfg, INITIAL, before);
    Chunker.ChunksOfBlankText(cfg, st.blobs[d]);
    if Finalizing(st, d) {
      var j :| j in st.jobs && st.jobs[j].document == d && st.jobs[j].pc.Finalize?;
      assert Possible(cfg, st, []) && After(cfg, st, []) == st;
      var steps := Advance(cfg, st, [], j);
    } else if Of(st.table, d) == [] {
      var steps := JobSucceeds(cfg, st, d);
    } else {
      forall steps | Possible(cfg, st, steps)
        ensures !IsProcessed(After(cfg, st, steps), d)
      {
        StuckForEver(cfg, st, steps, d);
      }
    }
  }

  /** `n` calls of one job, all of which work. */
  function AllWork(j: JobId, n: nat): seq<Step> {
    seq(n, i => RunJob(j, Works))
  }

  /** `r` is what `n` working calls of a job whose rows are already stored make of `st`. */
  ghost predicate Failing(cfg: Chunker.Config, st: State, j: JobId, n: nat, r: State)
    requires cfg.Valid() && j in st.jobs && n <= 6
  {
    var d := st.jobs[j].document;
    && d in r.docs && r.files == st.files && r.blobs == st.blobs && r.table == st.table
    && r.jobs.Keys == st.jobs.Keys && (forall k :: k in st.jobs && k != j ==> r.jobs[k] == st.jobs[k])
    && r.jobs[j].document == d
    && r.jobs[j].pc == [MarkProcessing, FindFile, ReadFile, Embed, Insert, MarkFailed, Returned(false)][n]
    && (3 <= n <= 4 ==> d in st.blobs && r.jobs[j].chunks == Chunker.Chunks(cfg, st.blobs[d]))
    && (n == 6 ==> r.docs[d].status == Failed)
  }

  /** The unique key refuses the document's rows. */
  predicate Refused(cfg: Chunker.Config, st: State, d: DocId)
    requires cfg.Valid()
  {
    && d in st.files && d in st.blobs && Chunker.Chunks(cfg, st.blobs[d]) != []
    && !Accepts(st.table, RowsFor(d, Chunker.Chunks(cfg, st.blobs[d])))
  }

  lemma FailingStep(cfg: Chunker.Config, st: State, j: JobId, n: nat, r: State, r': State)
    requires cfg.Valid() && j in st.jobs && n < 6 && Failing(cfg, st, j, n, r) && Refused(cfg, st, st.jobs[j].document)
    requires Enabled(r, RunJob(j, Works)) ==> r' == Apply(cfg, r, RunJob(j, Works))
    ensures Enabled(r, RunJob(j, Works)) && Failing(cfg, st, j, n + 1, r')
  {
    hide Chunker.Chunks, Accepts, RunCall;
    CallWorks(cfg, r, j);
  }

  /** The rows of a document are already stored, and a job of it is still to mark it as being
      processed. Every one of its calls works, but its batch violates the unique key of the rows,
      and it records the failure: whatever the status was, it is failed in the end. */
  lemma RefusedBatchFails(cfg: Chunker.Config, st: State, j: JobId)
    requires cfg.Valid() && Inv(cfg, st) && j in st.jobs && st.jobs[j].pc == MarkProcessing
    requires var d := st.jobs[j].document; d in st.files && Of(st.table, d) != []
    ensures Possible(cfg, st, AllWork(j, 6))
    ensures var d, r := st.jobs[j].document, After(cfg, st, AllWork(j, 6));
            && d in r.docs && r.docs[d].status == Failed && r.table == st.table && r.blobs == st.blobs
            && r.jobs.Keys == st.jobs.Keys && r.jobs[j].pc == Returned(false)
            && forall k :: k in st.jobs && k != j ==> r.jobs[k] == st.jobs[k]
  {
    hide Chunker.Chunks, Of, Accepts, RunCall, After, Possible, Inv;
    FailingRun(cfg, st, j);
  }

  lemma FailingRun(cfg: Chunker.Config, st: State, j: JobId)
    requires cfg.Valid() && Inv(cfg, st) && j in st.jobs && st.jobs[j].pc == MarkProcessing
    requires var d := st.jobs[j].document; d in st.files && Of(st.table, d) != []
    ensures Possible(cfg, st, AllWork(j, 6)) && Failing(cfg, st, j, 6, After(cfg, st, AllWork(j, 6)))
  {
    hide Chunker.Chunks, Of, Accepts, RunCall, After, Possible, Inv, Failing, Apply, Enabled, Refused;
    SecondBatchRefused(cfg, st, st.jobs[j].document);
    NoSteps(cfg, st);
    NothingFailed(cfg, st, j);
    assert AllWork(j, 0) == [];
    for i := 0 to 6
      invariant Possible(cfg, st, AllWork(j, i)) && Failing(cfg, st, j, i, After(cfg, st, AllWork(j, i)))
    {
      var r := After(cfg, st, AllWork(j, i));
      FailingStep(cfg, st, j, i, r, if Enabled(r, RunJob(j, Works)) then Apply(cfg, r, RunJob(j, Works)) else r);
      RunMore(cfg, st, AllWork(j, i), RunJob(j, Works));
      assert AllWork(j, i + 1) == AllWork(j, i) + [RunJob(j, Works)];
    }
  }

  lemma NothingFailed(cfg: Chunker.Config, st: State, j: JobId)
    requires cfg.Valid() && j in st.jobs && st.jobs[j].pc == MarkProcessing && st.jobs[j].document in st.docs
    ensures Failing(cfg, st, j, 0, st)
  {
    hide Chunker.Chunks;
  }

  lemma SecondBatchRefused(cfg: Chunker.Config, st: State, d: DocId)
    requires cfg.Valid() && Inv(cfg, st) && Of(st.table, d) != []
    ensures d in st.docs && (d in st.files ==> Refused(cfg, st, d))
  {
    hide Chunker.Chunks, Of, Accepts;
    assert RowsOk(cfg, st, d);
    var batch := RowsFor(d, Chunker.Chunks(cfg, st.blobs[d]));
    if Accepts(st.table, batch) {
      AcceptedMeansFirst(st.table, d, batch);
      assert false;
    }
  }

  /** When no other job of the document is about to record that its rows are stored, that failure
      is final: nothing that may happen afterwards makes the document processed again. */
  lemma RefusedBatchIsFinal(cfg: Chunker.Config, st: State, j: JobId, more: seq<Step>)
    requires cfg.Valid() && Inv(cfg, st) && j in st.jobs && st.jobs[j].pc == MarkProcessing
    requires var d := st.jobs[j].document; d in st.files && Of(st.table, d) != [] && !Finalizing(st, d)
    requires Possible(cfg, st, AllWork(j, 6)) && Possible(cfg, After(cfg, st, AllWork(j, 6)), more)
    ensures !IsProcessed(After(cfg, After(cfg, st, AllWork(j, 6)), more), st.jobs[j].document)
  {
    hide Chunker.Chunks, Of, After, Possible, Inv;
    RefusedBatchFails(cfg, st, j);
    var d, r := st.jobs[j].document, After(cfg, st, AllWork(j, 6));
    RunKeeps(cfg, st, AllWork(j, 6));
    assert !IsProcessed(r, d) && !Finalizing(r, d) && Of(r.table, d) == Of(st.table, d);
    StuckForEver(cfg, r, more, d);
  }

  /** A document is uploaded, and a first job of it loads it and stops before its next call. */
  lemma UploadAndLoad(cfg: Chunker.Config, text: string, user: int) returns (steps: seq<Step>)
    requires cfg.Valid()
    ensures Possible(cfg, INITIAL, steps)
    ensures After(cfg, INITIAL, steps) ==
            State(map[0 := Document(0, user, Pending)], {0}, map[0 := text], [], map[0 := Job(0, user, MarkProcessing, [])])
  {
    hide Chunker.Chunks, RunCall, Accepts;
    var upload := [CreateDocument(0, user), PutBlob(0, text), CreateFile(0), StartJob(0, 0, user)];
    RunMore(cfg, INITIAL, [], upload[0]);
    RunMore(cfg, INITIAL, [] + [upload[0]], upload[1]);
    RunMore(cfg, INITIAL, [] + [upload[0]] + [upload[1]], upload[2]);
    RunMore(cfg, INITIAL, [] + [upload[0]] + [upload[1]] + [upload[2]], upload[3]);
    steps := [] + [upload[0]] + [upload[1]] + [upload[2]] + [upload[3]];
    CallWorks(cfg, After(cfg, INITIAL, steps), 0);
    steps := Advance(cfg, INITIAL, steps, 0);
  }

  /** Two overlapping deliveries of one document, with every call of both working: the first job
      to run leaves the document processed, the other one failed, and failed it stays for ever,
      with all its rows stored. */
  lemma OverlapUndoesProcessed(cfg: Chunker.Config, text: string, user: int) returns (before: seq<Step>)
    requires cfg.Valid() && Text.Fields(text) != []
    ensures Possible(cfg, INITIAL, before) && IsProcessed(After(cfg, INITIAL, before), 0)
    ensures var st := After(cfg, INITIAL, before);
            && Possible(cfg, st, AllWork(0, 6))
            && (var r := After(cfg, st, AllWork(0, 6));
                && 0 in r.docs && r.docs[0].status == Failed
                && 0 in r.blobs && Of(r.table, 0) == AllRows(cfg, r, 0) != []
                && forall more :: Possible(cfg, r, more) ==> !IsProcessed(After(cfg, r, more), 0))
  {
    hide Chunker.Chunks, Of, RunCall, Accepts, After, Possible, Text.Split;
    before := UploadAndLoad(cfg, text, user);
    InitialOk(cfg);
    RunKeeps(cfg, INITIAL, before);
    NoRows();
    Chunker.ChunksOfBlankText(cfg, text);
    var more := JobSucceeds(cfg, After(cfg, INITIAL, before), 0);
    RunConcat(cfg, INITIAL, before, more);
    before := before + more;
    RunKeeps(cfg, INITIAL, before);
    assert RowsOk(cfg, After(cfg, INITIAL, before), 0);
    RefusedBatchWitness(cfg, After(cfg, INITIAL, before));
  }

  lemma RefusedBatchWitness(cfg: Chunker.Config, st: State)
    requires cfg.Valid() && Inv(cfg, st) && 0 in st.jobs && st.jobs[0].pc == MarkProcessing && st.jobs[0].document == 0
    requires 0 in st.files && Of(st.table, 0) != [] && !Finalizing(st, 0)
    ensures Possible(cfg, st, AllWork(0, 6))
    ensures var r := After(cfg, st, AllWork(0, 6));
            && 0 in r.docs && r.docs[0].status == Failed
            && 0 in r.blobs && Of(r.table, 0) == AllRows(cfg, r, 0) != []
            && forall more :: Possible(cfg, r, more) ==> !IsProcessed(After(cfg, r, more), 0)
  {
    hide Chunker.Chunks, Of, After, Possible;
    assert RowsOk(cfg, st, 0);
    RefusedBatchFails(cfg, st, 0);
    var r := After(cfg, st, AllWork(0, 6));
    SameRows(cfg, st, r, 0);
    forall more | Possible(cfg, r, more)
      ensures !IsProcessed(After(cfg, r, more), 0)
    {
      RefusedBatchIsFinal(cfg, st, 0, more);
    }
  }

  lemma NoRows()
    ensures forall d :: Of([], d) == []
  {
  }

  /* ---------- One job, run to its end ---------- */

  /** The job makes its calls, uninterrupted and with these outcomes, until it is over. */
  function Finish(cfg: Chunker.Config, st: State, j: JobId, calls: seq<Outcome>): State
    requires cfg.Valid() && j in st.jobs
    decreases |calls|
  {
    if calls == [] || Over(st.jobs[j].pc) then st
    else
      CallWorks(cfg, st, j);
      JobsStay(cfg, st, j, calls[0]);
      Finish(cfg, RunCall(cfg, st, j, calls[0]), j, calls[1..])
  }

  lemma JobsStay(cfg: Chunker.Config, st: State, j: JobId, outcome: Outcome)
    requires cfg.Valid() && j in st.jobs && !Over(st.jobs[j].pc)
    ensures RunCall(cfg, st, j, outcome).jobs.Keys == st.jobs.Keys
  {
    hide Chunker.Chunks, Accepts, SetStatus, RowsFor;
  }

  /** `r` is `st` but for the status of the document, the table and where the job has got to. */
  predicate Leaves(st: State, r: State, j: JobId, status: Status, table: seq<Row>, end: Pc)
    requires j in st.jobs
  {
    var d := st.jobs[j].document;
    && d in st.docs && r.docs == st.docs[d := st.docs[d].(status := status)]
    && r.files == st.files && r.blobs == st.blobs && r.table == table
    && r.jobs.Keys == st.jobs.Keys && r.jobs[j].document == d && r.jobs[j].pc == end
    && forall k :: k in st.jobs && k != j ==> r.jobs[k] == st.jobs[k]
  }

  lemma LeavesTwice(st: State, mid: State, r: State, j: JobId, s1: Status, t1: seq<Row>, e1: Pc, s2: Status, t2: seq<Row>, e2: Pc)
    requires j in st.jobs && j in mid.jobs && Leaves(st, mid, j, s1, t1, e1) && Leaves(mid, r, j, s2, t2, e2)
    ensures Leaves(st, r, j, s2, t2, e2)
  {
  }

  lemma FinishStep(cfg: Chunker.Config, st: State, j: JobId, calls: seq<Outcome>)
    requires cfg.Valid() && j in st.jobs && !Over(st.jobs[j].pc) && calls != []
    ensures j in RunCall(cfg, st, j, calls[0]).jobs
    ensures Finish(cfg, st, j, calls) == Finish(cfg, RunCall(cfg, st, j, calls[0]), j, calls[1..])
  {
    hide Chunker.Chunks, RunCall;
    CallWorks(cfg, st, j);
    JobsStay(cfg, st, j, calls[0]);
  }

  lemma FinishOver(cfg: Chunker.Config, st: State, j: JobId, calls: seq<Outcome>)
    requires cfg.Valid() && j in st.jobs && Over(st.jobs[j].pc)
    ensures Finish(cfg, st, j, calls) == st
  {
  }

  /** The last status write of a failed job. */
  lemma FinishFailed(cfg: Chunker.Config, st: State, j: JobId, calls: seq<Outcome>)
    requires cfg.Valid() && j in st.jobs && st.jobs[j].pc == MarkFailed && calls != [] && st.jobs[j].document in st.docs
    ensures var last := calls[0];
            Leaves(st, Finish(cfg, st, j, calls), j,
                   if last == Works || last == ReplyLost then Failed else st.docs[st.jobs[j].document].status,
                   st.table, Returned(false))
  {
    hide Chunker.Chunks, Finish;
    FinishStep(cfg, st, j, calls);
    FinishOver(cfg, RunCall(cfg, st, j, calls[0]), j, calls[1..]);
  }

  lemma FinishFinalize(cfg: Chunker.Config, st: State, j: JobId, calls: seq<Outcome>)
    requires cfg.Valid() && j in st.jobs && st.jobs[j].pc == Finalize && calls != [] && st.jobs[j].document in st.docs
    ensures var last := calls[0];
            Leaves(st, Finish(cfg, st, j, calls), j,
                   if last == Works || last == ReplyLost then Processed else st.docs[st.jobs[j].document].status,
                   st.table, Returned(last == Works))
  {
    hide Chunker.Chunks, Finish;
    FinishStep(cfg, st, j, calls);
    FinishOver(cfg, RunCall(cfg, st, j, calls[0]), j, calls[1..]);
  }

  /** The status and the end of a job that failed on its way, given the outcome of the last call. */
  function FailedBy(last: Outcome): Status {
    if last == Works || last == ReplyLost then Failed else Processing
  }

  /** What an insertion and the call after it leave behind. */
  ghost predicate Stored(st: State, r: State, j: JobId, rows: seq<Row>, insert: Outcome, last: Outcome)
    requires j in st.jobs
  {
    var fits := Of(st.table, st.jobs[j].document) == [] && (insert == Works || insert == ReplyLost);
    if fits && insert == Works then
      Leaves(st, r, j, if last == Works || last == ReplyLost then Processed else Processing, st.table + rows,
             Returned(last == Works))
    else
      Leaves(st, r, j, FailedBy(last), if fits then st.table + rows else st.table, Returned(false))
  }

  lemma FinishInsert(cfg: Chunker.Config, st: State, j: JobId, calls: seq<Outcome>)
    requires cfg.Valid() && Inv(cfg, st) && j in st.jobs && st.jobs[j].pc == Insert && |calls| >= 2
    requires st.jobs[j].document in st.docs && st.docs[st.jobs[j].document].status == Processing
    ensures Stored(st, Finish(cfg, st, j, calls), j, AllRows(cfg, st, st.jobs[j].document), calls[0], calls[1])
  {
    hide Chunker.Chunks, Finish, Of, Accepts;
    var d, batch := st.jobs[j].document, RowsFor(st.jobs[j].document, st.jobs[j].chunks);
    assert JobOk(cfg, st, st.jobs[j]) && batch == AllRows(cfg, st, d);
    AcceptedIffNoRows(cfg, st, d);
    FinishStep(cfg, st, j, calls);
    var mid := RunCall(cfg, st, j, calls[0]);
    assert Leaves(st, mid, j, Processing, mid.table, mid.jobs[j].pc);
    if mid.jobs[j].pc == Finalize {
      FinishFinalize(cfg, mid, j, calls[1..]);
    } else {
      FinishFailed(cfg, mid, j, calls[1..]);
    }
  }

  /** The unique key lets the full list in exactly when no rows are stored. */
  lemma AcceptedIffNoRows(cfg: Chunker.Config, st: State, d: DocId)
    requires cfg.Valid() && Inv(cfg, st) && AllRows(cfg, st, d) != []
    ensures Accepts(st.table, AllRows(cfg, st, d)) <==> Of(st.table, d) == []
  {
    hide Chunker.Chunks, Of, Accepts;
    assert RowsOk(cfg, st, d);
    if Of(st.table, d) == [] {
      FullListAccepted(cfg, st, d);
    } else if Accepts(st.table, AllRows(cfg, st, d)) {
      AcceptedMeansFirst(st.table, d, AllRows(cfg, st, d));
      assert false;
    }
  }

  lemma FinishEmbed(cfg: Chunker.Config, st: State, j: JobId, calls: seq<Outcome>)
    requires cfg.Valid() && Inv(cfg, st) && j in st.jobs && st.jobs[j].pc == Embed && |calls| >= 3
    requires st.jobs[j].document in st.docs && st.docs[st.jobs[j].document].status == Processing
    ensures var r := Finish(cfg, st, j, calls);
            match calls[0]
            case Works => Stored(st, r, j, AllRows(cfg, st, st.jobs[j].document), calls[1], calls[2])
            case TooFew => Leaves(st, r, j, Processing, st.table, Panicked)
            case _ => Leaves(st, r, j, FailedBy(calls[1]), st.table, Returned(false))
  {
    hide Chunker.Chunks, Finish, Of, Accepts, Inv;
    FinishStep(cfg, st, j, calls);
    CallKeeps(cfg, st, j, calls[0]);
    var mid := RunCall(cfg, st, j, calls[0]);
    assert Leaves(st, mid, j, Processing, st.table, mid.jobs[j].pc);
    match calls[0] {
      case Works => FinishInsert(cfg, mid, j, calls[1..]);
      case TooFew => FinishOver(cfg, mid, j, calls[1..]);
      case _ => FinishFailed(cfg, mid, j, calls[1..]);
    }
  }

  /** The end of a job that has come to read its file: it fails at once when the file has no words. */
  lemma FinishRead(cfg: Chunker.Config, st: State, j: JobId, calls: seq<Outcome>)
    requires cfg.Valid() && Inv(cfg, st) && j in st.jobs && st.jobs[j].pc == ReadFile && |calls| >= 4
    requires st.jobs[j].document in st.docs && st.docs[st.jobs[j].document].status == Processing
    requires st.jobs[j].document in st.blobs
    ensures var r, d := Finish(cfg, st, j, calls), st.jobs[j].document;
            if calls[0] != Works || Text.Fields(st.blobs[d]) == [] then
              Leaves(st, r, j, FailedBy(calls[1]), st.table, Returned(false))
            else match calls[1]
              case Works => Stored(st, r, j, AllRows(cfg, st, d), calls[2], calls[3])
              case TooFew => Leaves(st, r, j, Processing, st.table, Panicked)
              case _ => Leaves(st, r, j, FailedBy(calls[2]), st.table, Returned(false))
  {
    hide Chunker.Chunks, Finish, Of, Accepts, Inv, Text.Fields;
    var d := st.jobs[j].document;
    Chunker.ChunksOfBlankText(cfg, st.blobs[d]);
    FinishStep(cfg, st, j, calls);
    CallKeeps(cfg, st, j, calls[0]);
    var mid := RunCall(cfg, st, j, calls[0]);
    assert Leaves(st, mid, j, Processing, st.table, mid.jobs[j].pc);
    if calls[0] != Works || Text.Fields(st.blobs[d]) == [] {
      FinishFailed(cfg, mid, j, calls[1..]);
    } else {
      FinishEmbed(cfg, mid, j, calls[1..]);
    }
  }

  /** The call stops the job: the read fails or finds nothing to chunk, the embedding fails, or the
      batch is not stored with an answer to that effect. */
  predicate Stops(st: State, j: JobId, outcome: Outcome)
    requires j in st.jobs
  {
    var d := st.jobs[j].document;
    match st.jobs[j].pc
    case ReadFile => outcome != Works || d !in st.blobs || Text.Fields(st.blobs[d]) == []
    case Embed => outcome == Fails || outcome == ReplyLost
    case Insert => outcome != Works || Of(st.table, d) != []
    case _ => false
  }

  /** The step is no call of this job. */
  predicate NotOf(j: JobId, steps: seq<Step>) {
    forall i :: 0 <= i < |steps| ==> !(steps[i].RunJob? && steps[i].job == j)
  }

  lemma {:induction false} OthersLeaveJob(cfg: Chunker.Config, st: State, j: JobId, steps: seq<Step>)
    requires cfg.Valid() && Possible(cfg, st, steps) && NotOf(j, steps) && j in st.jobs
    ensures var r := After(cfg, st, steps); j in r.jobs && r.jobs[j] == st.jobs[j] && st.docs.Keys <= r.docs.Keys
  {
    hide Apply;
    if steps != [] {
      var n := |steps| - 1;
      OthersLeaveJob(cfg, st, j, steps[..n]);
      OtherStep(cfg, After(cfg, st, steps[..n]), j, steps[n]);
    }
  }

  lemma OtherStep(cfg: Chunker.Config, st: State, j: JobId, step: Step)
    requires cfg.Valid() && Enabled(st, step) && j in st.jobs && NotOf(j, [step])
    ensures var r := Apply(cfg, st, step); j in r.jobs && r.jobs[j] == st.jobs[j] && st.docs.Keys <= r.docs.Keys
  {
    hide RunCall;
    assert !([step][0].RunJob? && [step][0].job == j);
    if step.RunJob? {
      CallFrames(cfg, st, step.job, step.outcome);
    }
  }

  lemma CallFrames(cfg: Chunker.Config, st: State, j: JobId, outcome: Outcome)
    requires cfg.Valid() && j in st.jobs && !Over(st.jobs[j].pc)
    ensures var r := RunCall(cfg, st, j, outcome);
            && r.docs.Keys == st.docs.Keys && r.jobs.Keys == st.jobs.Keys
            && forall k :: k in st.jobs && k != j ==> r.jobs[k] == st.jobs[k]
  {
    hide RunCall, Chunker.Chunks, Accepts;
    if st.jobs[j].pc.Insert? {
      InsertFrame(cfg, st, j, outcome);
    } else {
      CallFrame(cfg, st, j, outcome);
    }
  }

  lemma InsertFrame(cfg: Chunker.Config, st: State, j: JobId, outcome: Outcome)
    requires cfg.Valid() && j in st.jobs && st.jobs[j].pc.Insert?
    ensures var r := RunCall(cfg, st, j, outcome);
            && r.docs == st.docs && r.jobs.Keys == st.jobs.Keys
            && forall k :: k in st.jobs && k != j ==> r.jobs[k] == st.jobs[k]
  {
    hide Accepts, RowsFor;
  }

  /** In any interleaving, a job that stops at reading, chunking, embedding or inserting leaves its
      document failed as soon as its last status write has its effect, and reports an error. */
  lemma FailureIsRecorded(cfg: Chunker.Config, st: State, j: JobId, outcome: Outcome, others: seq<Step>, last: Outcome)
    requires cfg.Valid() && Inv(cfg, st) && j in st.jobs && Stops(st, j, outcome) && st.jobs[j].document in st.docs
    requires Possible(cfg, RunCall(cfg, st, j, outcome), others) && NotOf(j, others)
    ensures var mid := After(cfg, RunCall(cfg, st, j, outcome), others);
            && Enabled(mid, RunJob(j, last))
            && var r, d := Apply(cfg, mid, RunJob(j, last)), st.jobs[j].document;
               && j in r.jobs && r.jobs[j].pc == Returned(false) && r.table == mid.table
               && d in r.docs && (last == Works || last == ReplyLost ==> r.docs[d].status == Failed)
  {
    hide Of, After, Possible, RunCall, Inv;
    var stopped := RunCall(cfg, st, j, outcome);
    StoppedAt(cfg, st, j, outcome);
    OthersLeaveJob(cfg, stopped, j, others);
    var mid := After(cfg, stopped, others);
    FinishFailed(cfg, mid, j, [last]);
    FinishStep(cfg, mid, j, [last]);
    NoCallsLeft(cfg, RunCall(cfg, mid, j, last), j);
  }

  lemma NoCallsLeft(cfg: Chunker.Config, st: State, j: JobId)
    requires cfg.Valid() && j in st.jobs
    ensures Finish(cfg, st, j, []) == st
  {
  }

  lemma StoppedAt(cfg: Chunker.Config, st: State, j: JobId, outcome: Outcome)
    requires cfg.Valid() && Inv(cfg, st) && j in st.jobs && Stops(st, j, outcome)
    ensures !Over(st.jobs[j].pc)
    ensures var r := RunCall(cfg, st, j, outcome);
            && j in r.jobs && r.jobs[j].pc == MarkFailed && r.jobs[j].document == st.jobs[j].document
            && r.docs == st.docs
  {
    hide Chunker.Chunks, Of, Accepts, Text.Split;
    var d := st.jobs[j].document;
    if st.jobs[j].pc.ReadFile? && d in st.blobs {
      Chunker.ChunksOfBlankText(cfg, st.blobs[d]);
    }
    if st.jobs[j].pc.Insert? {
      assert JobOk(cfg, st, st.jobs[j]);
      AcceptedIffNoRows(cfg, st, d);
    }
  }

  /** The state in which a job has been delivered. */
  function Delivered(st: State, j: JobId, d: DocId, user: int): State {
    st.(jobs := st.jobs[j := Job(d, user, Load, [])])
  }

  lemma DeliveryKeeps(cfg: Chunker.Config, st: State, j: JobId, d: DocId, user: int)
    requires cfg.Valid() && Inv(cfg, st) && j !in st.jobs
    ensures Inv(cfg, Delivered(st, j, d, user))
  {
    hide Inv, RunCall;
    WriteKeeps(cfg, st, StartJob(j, d, user));
  }

  /** A job that cannot load its document, whether the call fails or the document is missing or
      another user's, changes nothing; neither does one that finds it processed, which succeeds. */
  lemma JobDeclined(cfg: Chunker.Config, st: State, j: JobId, d: DocId, user: int, calls: seq<Outcome>)
    requires cfg.Valid() && j !in st.jobs && calls != []
    ensures var start := Delivered(st, j, d, user);
            var r := Finish(cfg, start, j, calls);
            && (calls[0] != Works || d !in st.docs || st.docs[d].user != user ==>
                  r == start.(jobs := start.jobs[j := Job(d, user, Returned(false), [])]))
            && (calls[0] == Works && d in st.docs && st.docs[d].user == user && st.docs[d].status == Processed ==>
                  r == start.(jobs := start.jobs[j := Job(d, user, Returned(true), [])]))
  {
    hide Chunker.Chunks, Finish;
    var start := Delivered(st, j, d, user);
    FinishStep(cfg, start, j, calls);
    if calls[0] != Works || d !in st.docs || st.docs[d].user != user || st.docs[d].status == Processed {
      FinishOver(cfg, RunCall(cfg, start, j, calls[0]), j, calls[1..]);
    }
  }

  /** The document can be loaded and is to be processed. */
  predicate Accepted(st: State, d: DocId, user: int) {
    d in st.docs && st.docs[d].user == user && st.docs[d].status != Processed
  }

  lemma FinishLoaded(cfg: Chunker.Config, st: State, j: JobId, d: DocId, user: int, calls: seq<Outcome>) returns (mid: State)
    requires cfg.Valid() && Inv(cfg, st) && j !in st.jobs && |calls| >= 2 && calls[0] == Works && Accepted(st, d, user)
    ensures var start := Delivered(st, j, d, user);
            && j in mid.jobs && Inv(cfg, mid)
            && Leaves(start, mid, j, if calls[1] == Works || calls[1] == ReplyLost then Processing else st.docs[d].status,
                      st.table, if calls[1] == Works then FindFile else Returned(false))
            && Finish(cfg, start, j, calls) == Finish(cfg, mid, j, calls[1..][1..])
  {
    hide Chunker.Chunks, Finish, Of, Inv;
    var start := Delivered(st, j, d, user);
    DeliveryKeeps(cfg, st, j, d, user);
    FinishStep(cfg, start, j, calls);
    CallKeeps(cfg, start, j, calls[0]);
    var loaded := RunCall(cfg, start, j, calls[0]);
    FinishStep(cfg, loaded, j, calls[1..]);
    CallKeeps(cfg, loaded, j, calls[1]);
    mid := RunCall(cfg, loaded, j, calls[1]);
  }

  /** A job that stops at marking the document or at looking its file up records no failure: the
      document is left in processing, or as it was when not even that was written. */
  lemma JobStopsEarly(cfg: Chunker.Config, st: State, j: JobId, d: DocId, user: int, calls: seq<Outcome>)
    requires cfg.Valid() && Inv(cfg, st) && j !in st.jobs && |calls| == 7 && calls[0] == Works && Accepted(st, d, user)
    requires calls[1] != Works || calls[2] != Works || d !in st.files
    ensures Leaves(Delivered(st, j, d, user), Finish(cfg, Delivered(st, j, d, user), j, calls), j,
                   if calls[1] == Works || calls[1] == ReplyLost then Processing else st.docs[d].status,
                   st.table, Returned(false))
  {
    hide Chunker.Chunks, Finish, Of, Inv;
    var mid := FinishLoaded(cfg, st, j, d, user, calls);
    if calls[1] != Works {
      FinishOver(cfg, mid, j, calls[1..][1..]);
    } else {
      FinishStep(cfg, mid, j, calls[1..][1..]);
      FinishOver(cfg, RunCall(cfg, mid, j, calls[2]), j, calls[1..][1..][1..]);
    }
  }

  /** What a job does with the file of its document, whatever the outcomes of its remaining calls:
      one that stops at reading, at a file without words, at embedding or at inserting records the
      failure, if that last call has its effect; rows are stored all at once and only when there
      are none; and the document is processed once they are. */
  lemma JobEnds(cfg: Chunker.Config, st: State, j: JobId, d: DocId, user: int, calls: seq<Outcome>)
    requires cfg.Valid() && Inv(cfg, st) && j !in st.jobs && |calls| == 7 && Accepted(st, d, user)
    requires calls[0] == Works && calls[1] == Works && calls[2] == Works && d in st.files
    ensures d in st.blobs
    ensures var start := Delivered(st, j, d, user);
            var r := Finish(cfg, start, j, calls);
            if calls[3] != Works || Text.Fields(st.blobs[d]) == [] then
              Leaves(start, r, j, FailedBy(calls[4]), st.table, Returned(false))
            else match calls[4]
              case Works => Stored(start, r, j, AllRows(cfg, st, d), calls[5], calls[6])
              case TooFew => Leaves(start, r, j, Processing, st.table, Panicked)
              case _ => Leaves(start, r, j, FailedBy(calls[5]), st.table, Returned(false))
  {
    hide Chunker.Chunks, Finish, Of, Text.Fields, RunCall, Inv;
    var start := Delivered(st, j, d, user);
    assert d in st.blobs by { FilesAreStored(cfg, st, d); }
    var found := FinishFound(cfg, st, j, d, user, calls);
    FinishRead(cfg, found, j, calls[1..][1..][1..]);
    LeavesAfter(cfg, start, found, Finish(cfg, start, j, calls), j);
  }

  lemma FilesAreStored(cfg: Chunker.Config, st: State, d: DocId)
    requires cfg.Valid() && Inv(cfg, st) && d in st.files
    ensures d in st.blobs
  {
    hide Chunker.Chunks, Of;
  }

  lemma FinishFound(cfg: Chunker.Config, st: State, j: JobId, d: DocId, user: int, calls: seq<Outcome>) returns (found: State)
    requires cfg.Valid() && Inv(cfg, st) && j !in st.jobs && |calls| == 7 && Accepted(st, d, user)
    requires calls[0] == Works && calls[1] == Works && calls[2] == Works && d in st.files
    ensures var start := Delivered(st, j, d, user);
            && j in found.jobs && Inv(cfg, found) && Leaves(start, found, j, Processing, st.table, ReadFile)
            && Finish(cfg, start, j, calls) == Finish(cfg, found, j, calls[1..][1..][1..])
  {
    hide Chunker.Chunks, Finish, Of, Inv;
    var start := Delivered(st, j, d, user);
    var mid := FinishLoaded(cfg, st, j, d, user, calls);
    var rest := calls[1..][1..];
    FinishStep(cfg, mid, j, rest);
    CallKeeps(cfg, mid, j, rest[0]);
    found := RunCall(cfg, mid, j, rest[0]);
    assert Leaves(mid, found, j, Processing, st.table, ReadFile);
    LeavesTwice(start, mid, found, j, Processing, st.table, FindFile, Processing, st.table, ReadFile);
  }

  /** What holds of the end of a job when it is compared with a state on its way holds when it is
      compared with the start. */
  lemma LeavesAfter(cfg: Chunker.Config, start: State, found: State, r: State, j: JobId)
    requires cfg.Valid() && j in start.jobs && j in found.jobs && Leaves(start, found, j, Processing, start.table, ReadFile)
    ensures forall status, table, end :: Leaves(found, r, j, status, table, end) ==> Leaves(start, r, j, status, table, end)
    ensures AllRows(cfg, found, start.jobs[j].document) == AllRows(cfg, start, start.jobs[j].document)
  {
  }

  /** With every call working, a job leaves its document processed if and only if the file has
      words and no rows of it were stored, and failed otherwise. */
  lemma WorkingJobEnds(cfg: Chunker.Config, st: State, j: JobId, d: DocId, user: int)
    requires cfg.Valid() && Inv(cfg, st) && j !in st.jobs && Accepted(st, d, user) && d in st.files
    ensures d in st.blobs
    ensures var start := Delivered(st, j, d, user);
            var succeeds := Text.Fields(st.blobs[d]) != [] && Of(st.table, d) == [];
            Leaves(start, Finish(cfg, start, j, seq(7, _ => Works)), j, if succeeds then Processed else Failed,
                   if succeeds then st.table + AllRows(cfg, st, d) else st.table, Returned(succeeds))
  {
    hide Chunker.Chunks, Finish, Of, Text.Fields, Inv, Leaves;
    JobEnds(cfg, st, j, d, user, seq(7, _ => Works));
  }

  /** `more` goes on from `steps` with calls of the job, with the first of these outcomes. */
  predicate GoesOn(j: JobId, steps: seq<Step>, more: seq<Step>, outcomes: seq<Outcome>) {
    && |steps| <= |more| <= |steps| + |outcomes| && steps <= more
    && forall i :: |steps| <= i < |more| ==> more[i] == RunJob(j, outcomes[i - |steps|])
  }

  /** Steps that deliver a job and make its calls until it is over leave what the uninterrupted job
      leaves. */
  lemma RunIsFinish(cfg: Chunker.Config, start: State, j: JobId, d: DocId, user: int, calls: seq<Outcome>, steps: seq<Step>)
    requires cfg.Valid() && j !in start.jobs && Possible(cfg, start, steps) && GoesOn(j, [StartJob(j, d, user)], steps, calls)
    requires j in After(cfg, start, steps).jobs && Over(After(cfg, start, steps).jobs[j].pc)
    ensures After(cfg, start, steps) == Finish(cfg, Delivered(start, j, d, user), j, calls)
  {
    hide Chunker.Chunks, Finish, After, Possible, RunCall;
    PrefixPossible(cfg, start, steps, 1);
    assert steps[..1] == [] + [StartJob(j, d, user)];
    NoSteps(cfg, start);
    RunMore(cfg, start, [], StartJob(j, d, user));
    assert calls[0..] == calls;
    RestIsFinish(cfg, start, j, d, user, calls, steps, 0);
  }

  lemma {:induction false} RestIsFinish(cfg: Chunker.Config, start: State, j: JobId, d: DocId, user: int,
                                        calls: seq<Outcome>, steps: seq<Step>, i: nat)
    requires cfg.Valid() && Possible(cfg, start, steps) && GoesOn(j, [StartJob(j, d, user)], steps, calls)
    requires i < |steps| && Possible(cfg, start, steps[..i + 1])
    requires j in After(cfg, start, steps[..i + 1]).jobs
    requires j in After(cfg, start, steps).jobs && Over(After(cfg, start, steps).jobs[j].pc)
    ensures After(cfg, start, steps) == Finish(cfg, After(cfg, start, steps[..i + 1]), j, calls[i..])
    decreases |steps| - i
  {
    hide Chunker.Chunks, Finish, RunCall;
    var here := steps[..i + 1];
    if i + 1 == |steps| {
      assert here == steps;
      FinishOver(cfg, After(cfg, start, here), j, calls[i..]);
    } else {
      PrefixPossible(cfg, start, steps, i + 2);
      assert steps[..i + 2][..i + 1] == here && steps[i + 1] == RunJob(j, calls[i]);
      FinishStep(cfg, After(cfg, start, here), j, calls[i..]);
      RestIsFinish(cfg, start, j, d, user, calls, steps, i + 1);
      assert calls[i..][1..] == calls[i + 1..];
    }
  }

  lemma OneCall(j: JobId, steps: seq<Step>, outcomes: seq<Outcome>)
    requires outcomes != []
    ensures GoesOn(j, steps, steps + [RunJob(j, outcomes[0])], outcomes)
  {
  }

  lemma FirstCalls(j: JobId, steps: seq<Step>, calls: seq<Outcome>)
    requires |calls| >= 4
    ensures var one := steps + [RunJob(j, calls[0])];
            var two := one + [RunJob(j, calls[1])];
            var three := two + [RunJob(j, calls[2])];
            && GoesOn(j, steps, one, calls) && GoesOn(j, steps, two, calls)
            && GoesOn(j, steps, three, calls) && GoesOn(j, steps, three + [RunJob(j, calls[3])], calls)
  {
  }

  lemma CallsThen(j: JobId, steps: seq<Step>, mid: seq<Step>, more: seq<Step>, outcomes: seq<Outcome>, n: nat)
    requires n <= |outcomes| && |mid| == |steps| + n
    requires GoesOn(j, steps, mid, outcomes) && GoesOn(j, mid, more, outcomes[n..])
    ensures GoesOn(j, steps, more, outcomes)
  {
    forall i | |steps| <= i < |more|
      ensures more[i] == RunJob(j, outcomes[i - |steps|])
    {
      if i < |mid| {
        assert more[i] == mid[i];
      } else {
        assert outcomes[n..][i - |mid|] == outcomes[i - |steps|];
      }
    }
  }

  class Service {
    const cfg: Chunker.Config
    var docs: map<DocId, Document>
    var files: set<DocId>
    var blobs: map<DocId, string>
    var table: seq<Row>
    /** The jobs delivered so far, as the state machine sees them. */
    ghost var jobs: map<JobId, Job>

    ghost predicate Valid()
      reads this
    {
      cfg.Valid() && Unique(table)
    }

    ghost function View(): State
      reads this
    {
      State(docs, files, blobs, table, jobs)
    }

    constructor (cfg: Chunker.Config)
      requires cfg.Valid()
      ensures Valid() && this.cfg == cfg && View() == INITIAL
    {
      this.cfg := cfg;
      docs, files, blobs, table, jobs := map[], {}, map[], [], map[];
    }

    method UpdateStatus(d: DocId, status: Status, outcome: Outcome) returns (failed: bool)
      modifies this`docs
      ensures docs == if Applies(outcome) then SetStatus(old(docs), d, status) else old(docs)
      ensures failed == (outcome != Works)
    {
      if Applies(outcome) {
        if d in docs {
          docs := docs[d := docs[d].(status := status)];
        }
      }
      failed := outcome != Works;
    }

    /** The bookkeeping of one call: the machine takes the step that the service has taken. */
    ghost method Record(j: JobId, outcome: Outcome, before: State, start: State, steps: seq<Step>, job: Job)
      returns (more: seq<Step>)
      requires cfg.Valid() && Possible(cfg, start, steps) && After(cfg, start, steps) == before
      requires j in before.jobs && !Over(before.jobs[j].pc)
      requires State(docs, files, blobs, table, before.jobs[j := job]) == RunCall(cfg, before, j, outcome)
      requires jobs == before.jobs
      modifies this`jobs
      ensures more == steps + [RunJob(j, outcome)]
      ensures jobs == old(jobs)[j := job]
      ensures Possible(cfg, start, more) && View() == After(cfg, start, more)
    {
      more := steps + [RunJob(j, outcome)];
      RunMore(cfg, start, steps, RunJob(j, outcome));
      jobs := jobs[j := job];
    }

    /** Records a failure; whether that works is ignored. */
    method RecordFailure(d: DocId, outcome: Outcome, ghost j: JobId, ghost start: State, ghost steps: seq<Step>)
      returns (ghost more: seq<Step>)
      requires Valid() && Possible(cfg, start, steps) && After(cfg, start, steps) == View()
      requires j in jobs && jobs[j].pc == MarkFailed && jobs[j].document == d
      modifies this`docs, this`jobs
      ensures more == steps + [RunJob(j, outcome)]
      ensures Possible(cfg, start, more) && View() == After(cfg, start, more)
      ensures j in jobs && jobs[j].pc == Returned(false)
    {
      hide Chunker.Chunks, Accepts;
      ghost var before := View();
      var _ := UpdateStatus(d, Failed, outcome);
      more := Record(j, outcome, before, start, steps, before.jobs[j].(pc := Returned(false)));
    }

    /** The whole of one job, with the outcomes of its calls given in order. What it leaves
        behind is what the state machine reaches by delivering the job and making its calls, with
        these outcomes and uninterrupted, until it returns or panics. */
    method ProcessDocument(d: DocId, user: int, calls: seq<Outcome>, ghost j: JobId)
      returns (end: Pc, ghost steps: seq<Step>)
      requires Valid() && |calls| == 7 && j !in jobs
      modifies this
      ensures Valid()
      ensures Possible(cfg, old(View()), steps) && View() == After(cfg, old(View()), steps)
      ensures GoesOn(j, [StartJob(j, d, user)], steps, calls)
      ensures j in jobs && Over(end) && jobs[j].pc == end
      ensures View() == Finish(cfg, Delivered(old(View()), j, d, user), j, calls)
    {
      hide Chunker.Chunks, Accepts, After, Possible, Unique, GoesOn, Finish;
      ghost var start := View();
      NoSteps(cfg, start);
      RunMore(cfg, start, [], StartJob(j, d, user));
      ghost var begun := [StartJob(j, d, user)];
      steps := [] + begun;
      OneCall(j, begun, calls);
      ghost var job := Job(d, user, Load, []);
      jobs := jobs[j := job];
      assert View() == After(cfg, start, steps);

      if calls[0] != Works || d !in docs || docs[d].user != user {
        steps := Record(j, calls[0], View(), start, steps, job.(pc := Returned(false)));
        RunIsFinish(cfg, start, j, d, user, calls, steps);
        return Returned(false), steps;
      }
      if docs[d].status == Processed {
        steps := Record(j, calls[0], View(), start, steps, job.(pc := Returned(true)));
        RunIsFinish(cfg, start, j, d, user, calls, steps);
        return Returned(true), steps;
      }
      steps := Record(j, calls[0], View(), start, steps, job.(pc := MarkProcessing));
      ghost var loaded := steps;
      OneCall(j, loaded, calls[1..]);

      ghost var before := View();
      var failed := UpdateStatus(d, Processing, calls[1]);
      steps := Record(j, calls[1], before, start, steps, job.(pc := if failed then Returned(false) else FindFile));
      CallsThen(j, begun, loaded, steps, calls, 1);
      if failed {
        RunIsFinish(cfg, start, j, d, user, calls, steps);
        return Returned(false), steps;
      }
      ghost var marked := steps;
      end, steps := ReadStoredFile(d, calls[2..], j, start, steps);
      CallsThen(j, begun, marked, steps, calls, 2);
      RunIsFinish(cfg, start, j, d, user, calls, steps);
    }

    /** Looks the file up and reads it. */
    method ReadStoredFile(d: DocId, calls: seq<Outcome>, ghost j: JobId, ghost start: State, ghost steps: seq<Step>)
      returns (end: Pc, ghost more: seq<Step>)
      requires Valid() && |calls| == 5
      requires j in jobs && jobs[j].pc == FindFile && jobs[j].document == d
      requires Possible(cfg, start, steps) && View() == After(cfg, start, steps)
      modifies this
      ensures Valid() && GoesOn(j, steps, more, calls)
      ensures Possible(cfg, start, more) && View() == After(cfg, start, more)
      ensures j in jobs && Over(end) && jobs[j].pc == end
    {
      hide Chunker.Chunks, Accepts, After, Possible, Unique, GoesOn;
      FirstCalls(j, steps, calls);
      ghost var job := jobs[j];
      if calls[0] != Works || d !in files {
        more := Record(j, calls[0], View(), start, steps, job.(pc := Returned(false)));
        return Returned(false), more;
      }
      more := Record(j, calls[0], View(), start, steps, job.(pc := ReadFile));
      if calls[1] != Works || d !in blobs {
        more := Record(j, calls[1], View(), start, more, job.(pc := MarkFailed));
        more := RecordFailure(d, calls[2], j, start, more);
        return Returned(false), more;
      }
      ghost var found := more;
      end, more := StoreChunks(d, calls[1..], j, start, more);
      CallsThen(j, steps, found, more, calls, 1);
    }

    /** The second half of a job: chunk the file that was read, embed and store. */
    method StoreChunks(d: DocId, calls: seq<Outcome>, ghost j: JobId, ghost start: State, ghost steps: seq<Step>)
      returns (end: Pc, ghost more: seq<Step>)
      requires Valid() && |calls| == 4 && calls[0] == Works && d in blobs
      requires j in jobs && jobs[j].pc == ReadFile && jobs[j].document == d
      requires Possible(cfg, start, steps) && View() == After(cfg, start, steps)
      modifies this
      ensures Valid() && GoesOn(j, steps, more, calls)
      ensures Possible(cfg, start, more) && View() == After(cfg, start, more)
      ensures j in jobs && Over(end) && jobs[j].pc == end
    {
      hide Chunker.Chunks, Accepts, After, Possible, Unique, GoesOn;
      FirstCalls(j, steps, calls);
      more := steps;
      ghost var job := jobs[j];
      var chunker := new Chunker.SimpleChunker(cfg.maxTokens, cfg.overlap, cfg.encoder);
      var candidates := chunker.Chunk(blobs[d]);
      if |candidates| == 0 {
        more := Record(j, calls[0], View(), start, more, job.(pc := MarkFailed));
        more := RecordFailure(d, calls[1], j, start, more);
        return Returned(false), more;
      }
      job := job.(pc := Embed, chunks := candidates);
      more := Record(j, calls[0], View(), start, more, job);
      if calls[1] == TooFew {
        more := Record(j, calls[1], View(), start, more, job.(pc := Panicked));
        return Panicked, more;
      }
      if calls[1] != Works {
        more := Record(j, calls[1], View(), start, more, job.(pc := MarkFailed));
        more := RecordFailure(d, calls[2], j, start, more);
        return Returned(false), more;
      }
      more := Record(j, calls[1], View(), start, more, job.(pc := Insert));

      end, more := StoreBatch(d, candidates, calls[2], calls[3], j, start, more);
    }

    /** Stores the batch and records that it is stored. */
    method StoreBatch(d: DocId, candidates: seq<Chunker.Candidate>, insert: Outcome, last: Outcome,
                      ghost j: JobId, ghost start: State, ghost steps: seq<Step>)
      returns (end: Pc, ghost more: seq<Step>)
      requires Valid() && candidates != []
      requires j in jobs && jobs[j].pc == Insert && jobs[j].document == d && jobs[j].chunks == candidates
      requires Possible(cfg, start, steps) && View() == After(cfg, start, steps)
      modifies this
      ensures Valid() && more == steps + [RunJob(j, insert)] + [RunJob(j, last)]
      ensures Possible(cfg, start, more) && View() == After(cfg, start, more)
      ensures j in jobs && Over(end) && jobs[j].pc == end
    {
      hide Chunker.Chunks, Accepts, After, Possible, Unique;
      ghost var job := jobs[j];
      ghost var before := View();
      var batch := RowsFor(d, candidates);
      var stored;
      table, stored := InsertBatch(table, batch, if Applies(insert) then |batch| else 0);
      if !stored || insert != Works {
        more := Record(j, insert, before, start, steps, job.(pc := MarkFailed));
        more := RecordFailure(d, last, j, start, more);
        return Returned(false), more;
      }
      more := Record(j, insert, before, start, steps, job.(pc := Finalize));
      before := View();
      var failed := UpdateStatus(d, Processed, last);
      more := Record(j, last, before, start, more, job.(pc := Returned(!failed)));
      end := Returned(!failed);
    }
  }
}
