/** Concurrent conversation turns over the shared memory store, as a state machine.

    A turn belongs to a user and a session. It answers, then saves a memory, then prunes the
    session; the three are separate steps, and any number of turns and background summary
    jobs of any number of sessions may be interleaved. */
module MemoryTurns {
  import opened Domain
  import opened MemoryStore

  datatype Phase = Answering | Saved | Finished

  datatype Turn = Turn(user: int, session: SessionId, phase: Phase)

  /** `owners` records who created each session. */
  datatype State = State(owners: map<SessionId, int>, turns: map<nat, Turn>, nextID: nat,
                         buckets: map<SessionId, seq<Record>>)

  const INITIAL := State(map[], map[], 0, map[])

  datatype Step =
    /** A turn, or a summary job of an earlier turn, begins: in a session that did not exist,
        or in one that was looked up for its owner. */
    | Begin(turn: nat, user: int, session: SessionId)
    /** The memory is saved. */
    | Save(turn: nat, mem: Record)
    /** Saving failed, which is logged and does not stop the turn. */
    | SaveFails(turn: nat)
    /** The session is pruned, which ends the turn. (A turn whose prune fails stays unpruned.) */
    | Prune(turn: nat)
    /** The turn ends before it saves anything. */
    | GiveUp(turn: nat)

  function Bucket(st: State, session: SessionId): seq<Record> {
    if session in st.buckets then st.buckets[session] else []
  }

  predicate Enabled(st: State, step: Step) {
    match step
    case Begin(t, user, s) => t !in st.turns && (s in st.owners ==> st.owners[s] == user)
    case Save(t, mem) =>
      && t in st.turns && st.turns[t].phase == Answering
      && mem.id == 0 && mem.user == st.turns[t].user && mem.session == st.turns[t].session
    case SaveFails(t) => t in st.turns && st.turns[t].phase == Answering
    case Prune(t) => t in st.turns && st.turns[t].phase == Saved
    case GiveUp(t) => t in st.turns && st.turns[t].phase == Answering
  }

  function MoveTo(st: State, t: nat, phase: Phase): map<nat, Turn>
    requires t in st.turns
  {
    st.turns[t := st.turns[t].(phase := phase)]
  }

  function Apply(st: State, step: Step, limit: int): State
    requires Enabled(st, step)
  {
    match step
    case Begin(t, user, s) =>
      st.(owners := st.owners[s := user], turns := st.turns[t := Turn(user, s, Answering)])
    case Save(t, mem) =>
      var id := st.nextID + 1;
      st.(turns := MoveTo(st, t, Saved), nextID := id,
          buckets := st.buckets[mem.session := Upserted(Bucket(st, mem.session), mem.(id := id))])
    case SaveFails(t) => st.(turns := MoveTo(st, t, Saved))
    case Prune(t) =>
      var s := st.turns[t].session;
      st.(turns := MoveTo(st, t, Finished),
          buckets := st.buckets[s := Pruned(Bucket(st, s), st.turns[t].user, limit)])
    case GiveUp(t) => st.(turns := MoveTo(st, t, Finished))
  }

  /** The state after some steps, if each was enabled in turn. */
  predicate Possible(steps: seq<Step>, limit: int)
    decreases |steps|, 0
  {
    steps == [] ||
    (var n := |steps| - 1; Possible(steps[..n], limit) && Enabled(After(steps[..n], limit), steps[n]))
  }

  function After(steps: seq<Step>, limit: int): State
    requires Possible(steps, limit)
    decreases |steps|, 1
  {
    if steps == [] then INITIAL
    else
      var n := |steps| - 1;
      Apply(After(steps[..n], limit), steps[n], limit)
  }

  /** The turns of a session that have saved but not yet pruned. */
  function Unpruned(st: State, session: SessionId): set<nat> {
    set t | t in st.turns && st.turns[t].session == session && st.turns[t].phase == Saved
  }

  ghost predicate DistinctIds(list: seq<Record>) {
    forall i, j :: 0 <= i < j < |list| ==> list[i].id != list[j].id
  }

  ghost predicate BucketOk(st: State, session: SessionId, limit: int) {
    var list := Bucket(st, session);
    && (session !in st.owners ==> list == [])
    && (forall r :: r in list ==> r.session == session && r.user == st.owners[session] && 1 <= r.id <= st.nextID)
    && DistinctKeys(list) && DistinctIds(list)
    && |list| <= limit + |Unpruned(st, session)|
  }

  /** Every turn belongs to the owner of its session. */
  ghost predicate OwnersOk(st: State) {
    forall t :: t in st.turns ==>
      st.turns[t].session in st.owners && st.turns[t].user == st.owners[st.turns[t].session]
  }

  ghost predicate Inv(st: State, limit: int) {
    OwnersOk(st) && forall s: SessionId :: BucketOk(st, s, limit)
  }

  /* ---------- The bucket operations keep the invariant ---------- */

  lemma UpsertKeeps(list: seq<Record>, mem: Record, session: SessionId, user: int, nextID: nat)
    requires forall r :: r in list ==> r.session == session && r.user == user && 1 <= r.id <= nextID
    requires DistinctKeys(list) && DistinctIds(list)
    requires mem.session == session && mem.user == user && mem.id == nextID + 1
    ensures var next := Upserted(list, mem);
            && (forall r :: r in next ==> r.session == session && r.user == user && 1 <= r.id <= nextID + 1)
            && DistinctKeys(next) && DistinctIds(next)
            && |next| <= |list| + 1
  {
    UpsertIsPut(list, mem);
  }

  lemma PruneKeeps(list: seq<Record>, user: int, limit: int)
    requires limit > 0 && DistinctKeys(list) && DistinctIds(list)
    requires forall r :: r in list ==> r.user == user
    ensures var next := Pruned(list, user, limit);
            && (forall r :: r in next ==> r in list)
            && DistinctKeys(next) && DistinctIds(next)
            && |next| <= limit && (|list| <= limit ==> next == list)
  {
    hide Sorted, DistinctKeys, DistinctIds, OfUser;
    OfUserKeepsAll(list, user);
    PruneKeepsUser(list, user, limit);
    if |list| > limit {
      SortRanks(list);
      SortKeepsLength(list);
      CutKeepsDistinct(list, Sorted(list), limit);
    }
  }

  lemma CutKeepsDistinct(list: seq<Record>, s: seq<Record>, n: nat)
    requires multiset(s) == multiset(list) && n <= |s| == |list| && DistinctKeys(list) && DistinctIds(list)
    ensures DistinctKeys(s[..n]) && DistinctIds(s[..n])
  {
    forall i, j | 0 <= i < j < n
      ensures KeyOf(s[i]) != KeyOf(s[j]) && s[i].id != s[j].id
    {
      var p, q := FromPermutation(list, s, i, j);
    }
  }

  lemma OneMoreUnpruned(st: State, t: nat, st': State)
    requires t in st.turns && st.turns[t].phase == Answering
    requires st'.turns == MoveTo(st, t, Saved)
    ensures Unpruned(st', st.turns[t].session) == Unpruned(st, st.turns[t].session) + {t}
    ensures |Unpruned(st', st.turns[t].session)| == |Unpruned(st, st.turns[t].session)| + 1
    ensures forall s :: s != st.turns[t].session ==> Unpruned(st', s) == Unpruned(st, s)
  {
  }

  lemma OneUnprunedLess(st: State, t: nat, st': State)
    requires t in st.turns && st'.turns == MoveTo(st, t, Finished)
    ensures forall s :: st.turns[t].phase != Saved || s != st.turns[t].session ==> Unpruned(st', s) == Unpruned(st, s)
  {
  }

  lemma StepKeepsOwners(st: State, step: Step, limit: int)
    requires OwnersOk(st) && Enabled(st, step)
    ensures OwnersOk(Apply(st, step, limit))
    ensures forall s :: s in st.owners ==> s in Apply(st, step, limit).owners
                                           && Apply(st, step, limit).owners[s] == st.owners[s]
  {
    hide Upserted, Pruned;
  }

  lemma SaveKeeps(st: State, t: nat, mem: Record, limit: int, s: SessionId)
    requires limit > 0 && OwnersOk(st) && Enabled(st, Step.Save(t, mem)) && BucketOk(st, s, limit)
    ensures BucketOk(Apply(st, Step.Save(t, mem), limit), s, limit)
  {
    hide Upserted, DistinctKeys, DistinctIds, Unpruned;
    OneMoreUnpruned(st, t, Apply(st, Step.Save(t, mem), limit));
    if s == mem.session {
      UpsertKeeps(Bucket(st, s), mem.(id := st.nextID + 1), s, mem.user, st.nextID);
    }
  }

  lemma PruneStepKeeps(st: State, t: nat, limit: int, s: SessionId)
    requires limit > 0 && OwnersOk(st) && Enabled(st, Step.Prune(t)) && BucketOk(st, s, limit)
    ensures BucketOk(Apply(st, Step.Prune(t), limit), s, limit)
  {
    hide Pruned, DistinctKeys, DistinctIds, Unpruned;
    OneUnprunedLess(st, t, Apply(st, Step.Prune(t), limit));
    if s == st.turns[t].session {
      PruneKeeps(Bucket(st, s), st.turns[t].user, limit);
    }
  }

  /** The other steps leave the buckets alone, and no fewer turns are between save and prune. */
  lemma OtherStepKeeps(st: State, step: Step, limit: int, s: SessionId)
    requires limit > 0 && OwnersOk(st) && Enabled(st, step) && BucketOk(st, s, limit)
    requires !step.Save? && !step.Prune?
    ensures BucketOk(Apply(st, step, limit), s, limit)
  {
    hide Upserted, Pruned, DistinctKeys, DistinctIds;
    var st' := Apply(st, step, limit);
    match step {
      case Begin(_, _, _) =>
        assert Unpruned(st', s) == Unpruned(st, s);
      case SaveFails(t) =>
        OneMoreUnpruned(st, t, st');
      case GiveUp(t) =>
        OneUnprunedLess(st, t, st');
      case _ =>
    }
  }

  lemma StepKeeps(st: State, step: Step, limit: int)
    requires limit > 0 && Inv(st, limit) && Enabled(st, step)
    ensures Inv(Apply(st, step, limit), limit)
  {
    hide Apply, BucketOk, Enabled;
    StepKeepsOwners(st, step, limit);
    forall s: SessionId
      ensures BucketOk(Apply(st, step, limit), s, limit)
    {
      assert BucketOk(st, s, limit);
      match step
      case Save(t, mem) => SaveKeeps(st, t, mem, limit, s);
      case Prune(t) => PruneStepKeeps(st, t, limit, s);
      case _ => OtherStepKeeps(st, step, limit, s);
    }
  }

  lemma {:induction false} RunKeeps(steps: seq<Step>, limit: int)
    requires limit > 0 && Possible(steps, limit)
    ensures Inv(After(steps, limit), limit)
  {
    if steps != [] {
      var n := |steps| - 1;
      RunKeeps(steps[..n], limit);
      StepKeeps(After(steps[..n], limit), steps[n], limit);
    }
  }

  /* ---------- Main results ---------- */

  /** In every reachable state a session's bucket holds only its owner's records, one for
      each key and each with an id of its own, so that rebuilding it for that owner drops
      nobody else's; and it exceeds the limit by no more than the turns that have saved and
      not yet pruned. */
  lemma BucketsInEveryRun(steps: seq<Step>, limit: int, session: SessionId)
    requires limit > 0 && Possible(steps, limit)
    ensures var st := After(steps, limit);
            var list := Bucket(st, session);
            && (list != [] ==> session in st.owners && OfUser(list, st.owners[session]) == list)
            && (forall r :: r in list ==> r.session == session)
            && DistinctKeys(list) && DistinctIds(list)
            && |list| <= limit + |Unpruned(st, session)|
  {
    RunKeeps(steps, limit);
    var st := After(steps, limit);
    assert BucketOk(st, session, limit);
    if Bucket(st, session) != [] {
      OfUserKeepsAll(Bucket(st, session), st.owners[session]);
    }
  }

  /** A saved memory is there afterwards, under its own id or that of the record it replaced; every
      other record stays as it was, and so does every other session. */
  lemma SavedIsThere(steps: seq<Step>, t: nat, mem: Record, limit: int, session: SessionId, x: Record)
    requires limit > 0 && Possible(steps, limit) && Enabled(After(steps, limit), Step.Save(t, mem))
    ensures var st := After(steps, limit);
            var st' := Apply(st, Step.Save(t, mem), limit);
            && (exists r :: r in Bucket(st', mem.session) && r.(id := 0) == mem)
            && (session == mem.session && (x.user, x.source, x.content) != (mem.user, mem.source, mem.content) ==>
                  (x in Bucket(st', session) <==> x in Bucket(st, session)))
            && (session != mem.session ==> Bucket(st', session) == Bucket(st, session))
  {
    hide After, Possible;
    var st := After(steps, limit);
    var list, saved := Bucket(st, mem.session), mem.(id := st.nextID + 1);
    UpsertPuts(list, saved, x);
  }

  lemma UpsertPuts(list: seq<Record>, mem: Record, x: Record)
    ensures exists r :: r in Upserted(list, mem) && r.(id := 0) == mem.(id := 0)
    ensures KeyOf(x) != KeyOf(mem) ==> (x in Upserted(list, mem) <==> x in list)
  {
    var i, next := Find(list, mem), Upserted(list, mem);
    if i < |list| {
      assert next[i] in next && next[i].(id := 0) == mem.(id := 0);
      forall k | 0 <= k < |list| && k != i
        ensures next[k] == list[k]
      {
      }
      assert KeyOf(next[i]) == KeyOf(mem) == KeyOf(list[i]);
    } else {
      assert next[|list|] == mem;
    }
  }

  /** A prune drops a record only when the limit is reached, and never for one of lower priority. */
  lemma PruneDropsTheWorst(steps: seq<Step>, t: nat, limit: int, session: SessionId, x: Record)
    requires limit > 0 && Possible(steps, limit) && Enabled(After(steps, limit), Step.Prune(t))
    ensures var st := After(steps, limit);
            var kept := Bucket(Apply(st, Step.Prune(t), limit), session);
            && (session != st.turns[t].session ==> kept == Bucket(st, session))
            && (x in kept ==> x in Bucket(st, session))
            && (session == st.turns[t].session ==> |kept| <= limit)
            && (x in Bucket(st, session) && x !in kept ==>
                  && |kept| == limit
                  && forall y :: y in kept ==>
                       y.importance > x.importance || (y.importance == x.importance && y.createdAt >= x.createdAt))
  {
    hide After, Possible, Pruned;
    var st := After(steps, limit);
    RunKeeps(steps, limit);
    assert BucketOk(st, session, limit);
    PruneKeepsBest(Bucket(st, session), st.turns[t].user, limit, x);
    var kept := Pruned(Bucket(st, session), st.turns[t].user, limit);
    assert x in kept <==> x in multiset(kept);
    assert x in Bucket(st, session) <==> x in multiset(Bucket(st, session));
  }

  /** No turn ever touches another user's session. */
  lemma OthersUntouched(steps: seq<Step>, step: Step, limit: int, session: SessionId)
    requires limit > 0 && Possible(steps, limit) && Enabled(After(steps, limit), step)
    ensures var st := After(steps, limit);
            Bucket(Apply(st, step, limit), session) != Bucket(st, session) ==>
              && !step.Begin? && session in st.owners
              && st.turns[step.turn].user == st.owners[session]
  {
    RunKeeps(steps, limit);
  }
}
