/** The data migrations of the local database: legacy identities, legacy questions and the
    answer cache. A statement that selects from the table it inserts into sees that table as
    it stood before the statement. */
module Migrations {

  import opened Wrappers

  type Id = nat

  /* ---------- Identities ---------- */

  /** `rest` stands for the columns no statement looks at. */
  datatype Identity = Identity(user: nat, provider: string, subject: string, rest: string)

  type Identities = map<Id, Identity>

  /** The two rows violate UNIQUE(provider, subject) or UNIQUE(user, provider). */
  predicate Clash(a: Identity, b: Identity) {
    a.provider == b.provider && (a.subject == b.subject || a.user == b.user)
  }

  predicate ClashesWith(t: Identities, row: Identity) {
    exists i :: i in t && Clash(t[i], row)
  }

  predicate Unique(t: Identities) {
    forall i, j :: i in t && j in t && i != j ==> !Clash(t[i], t[j])
  }

  /** Rows of the first statement: neither the id nor a unique key is taken. */
  function WithOwnIds(t: Identities, legacy: Identities): Identities {
    map id | id in legacy && id !in t && !ClashesWith(t, legacy[id]) :: legacy[id]
  }

  /** Rows of the second statement: the id is taken, and no unique key is. */
  function NeedNewIds(t: Identities, legacy: Identities): set<Id> {
    set id | id in legacy && id in t && !ClashesWith(t, legacy[id])
  }

  lemma FirstStatementUnique(t: Identities, legacy: Identities)
    requires Unique(t) && Unique(legacy)
    ensures Unique(t + WithOwnIds(t, legacy))
  {
    var next := t + WithOwnIds(t, legacy);
    forall i, j | i in next && j in next && i != j
      ensures !Clash(next[i], next[j])
    {
      if i in t && j !in t {
        assert !Clash(t[i], legacy[j]);
      } else if i !in t && j in t {
        assert !Clash(t[j], legacy[i]);
      }
    }
  }

  lemma InsertUnique(t: Identities, id: Id, row: Identity)
    requires Unique(t) && id !in t && !ClashesWith(t, row)
    ensures Unique(t[id := row])
  {
    var next := t[id := row];
    forall i, j | i in next && j in next && i != j
      ensures !Clash(next[i], next[j])
    {
      if i == id {
        assert !Clash(t[j], row);
      } else if j == id {
        assert !Clash(t[i], row);
      }
    }
  }

  /** A clash with an inserted legacy row would be a clash within the legacy table. */
  lemma StillFree(t: Identities, legacy: Identities, id: Id, pending: set<Id>, new': Id)
    requires Unique(legacy) && id in pending && new' !in t
    requires pending <= legacy.Keys && forall p :: p in pending ==> !ClashesWith(t, legacy[p])
    ensures forall p :: p in pending - {id} ==> !ClashesWith(t[new' := legacy[id]], legacy[p])
  {
    forall p | p in pending - {id}
      ensures !ClashesWith(t[new' := legacy[id]], legacy[p])
    {
      assert !ClashesWith(t, legacy[p]) && !Clash(legacy[id], legacy[p]);
    }
  }

  predicate Stored(t: Identities, row: Identity) {
    exists id :: id in t && t[id] == row
  }

  /** No row was changed or removed, and whatever is new is a whole legacy row. */
  ghost predicate FromLegacy(before: Identities, legacy: Identities, after: Identities) {
    && (forall id :: id in before ==> id in after && after[id] == before[id])
    && (forall id :: id in after && id !in before ==> Stored(legacy, after[id]))
  }

  /** Every legacy identity is there by one of its unique keys, and with all its columns unless
      one of its keys was taken before. */
  ghost predicate Covered(before: Identities, legacy: Identities, after: Identities) {
    forall l :: l in legacy ==>
      && ClashesWith(after, legacy[l])
      && (ClashesWith(before, legacy[l]) || Stored(after, legacy[l]))
  }

  /** Every legacy row that is to be inserted belongs to an existing user. */
  predicate OwnersExist(t: Identities, legacy: Identities, users: set<nat>) {
    forall l :: l in legacy ==> ClashesWith(t, legacy[l]) || legacy[l].user in users
  }

  /** Every legacy row either has a key that is taken, by provider and subject or by user and
      provider, or belongs to an existing user. */
  lemma OwnersMean(t: Identities, legacy: Identities, users: set<nat>)
    ensures OwnersExist(t, legacy, users) <==>
              forall l :: l in legacy ==>
                || legacy[l].user in users
                || exists i :: i in t && t[i].provider == legacy[l].provider
                               && (t[i].subject == legacy[l].subject || t[i].user == legacy[l].user)
  {
    forall l | l in legacy
      ensures ClashesWith(t, legacy[l]) <==>
                exists i :: i in t && t[i].provider == legacy[l].provider
                            && (t[i].subject == legacy[l].subject || t[i].user == legacy[l].user)
    {
    }
  }

  /** The two statements insert exactly the legacy rows whose keys are free. */
  lemma NewIdsIff(t: Identities, legacy: Identities)
    requires Unique(legacy)
    ensures forall l :: l in NeedNewIds(t + WithOwnIds(t, legacy), legacy) <==>
                          l in legacy && l in t && !ClashesWith(t, legacy[l])
  {
    var t1 := t + WithOwnIds(t, legacy);
    forall l | l in legacy && ClashesWith(t, legacy[l])
      ensures ClashesWith(t1, legacy[l])
    {
      var i :| i in t && Clash(t[i], legacy[l]);
      assert t1[i] == t[i];
    }
    forall l | l in legacy && l !in t && !ClashesWith(t, legacy[l])
      ensures ClashesWith(t1, legacy[l])
    {
      assert Clash(t1[l], legacy[l]);
    }
    forall l | l in legacy && l in t && !ClashesWith(t, legacy[l])
      ensures !ClashesWith(t1, legacy[l])
    {
      forall i | i in t1
        ensures !Clash(t1[i], legacy[l])
      {
        if i !in t {
          assert !Clash(legacy[i], legacy[l]);
        }
      }
    }
  }

  lemma OwnIdsFromLegacy(t: Identities, legacy: Identities)
    ensures FromLegacy(t, legacy, t) && FromLegacy(t, legacy, t + WithOwnIds(t, legacy))
  {
    hide ClashesWith;
    var next := t + WithOwnIds(t, legacy);
    forall id | id in next && id !in t
      ensures Stored(legacy, next[id])
    {
      assert next[id] == legacy[id];
    }
  }

  /** The owners the two statements ask for are those of all the rows to be inserted. */
  lemma OwnersIff(t: Identities, legacy: Identities, users: set<nat>)
    requires Unique(legacy)
    ensures OwnersExist(t, legacy, users) <==>
              && (forall id :: id in WithOwnIds(t, legacy) ==> legacy[id].user in users)
              && (forall l :: l in NeedNewIds(t + WithOwnIds(t, legacy), legacy) ==> legacy[l].user in users)
  {
    NewIdsIff(t, legacy);
    hide ClashesWith, NeedNewIds, Unique;
    forall l | l in legacy && !ClashesWith(t, legacy[l])
      ensures l in WithOwnIds(t, legacy) || l in NeedNewIds(t + WithOwnIds(t, legacy), legacy)
    {
      assert l in t || l in WithOwnIds(t, legacy);
    }
  }

  /** Midway through the second statement: `pending` of the `rows` are still to be inserted. */
  ghost predicate Moved(before: Identities, legacy: Identities, rows: set<Id>, pending: set<Id>, now: Identities) {
    && pending <= rows <= legacy.Keys && Unique(now)
    && FromLegacy(before, legacy, now)
    && (forall l :: l in rows && l !in pending ==> Stored(now, legacy[l]))
    && (forall l :: l in pending ==> !ClashesWith(now, legacy[l]))
  }

  lemma NothingMoved(t: Identities, legacy: Identities)
    requires Unique(t)
    ensures Moved(t, legacy, NeedNewIds(t, legacy), NeedNewIds(t, legacy), t)
  {
    hide Clash, ClashesWith;
  }

  lemma MoveOne(before: Identities, legacy: Identities, rows: set<Id>, pending: set<Id>, now: Identities, l: Id, id: Id)
    requires Unique(legacy) && Moved(before, legacy, rows, pending, now) && l in pending && id !in now
    ensures Moved(before, legacy, rows, pending - {l}, now[id := legacy[l]])
  {
    hide Clash, Unique;
    var next := now[id := legacy[l]];
    InsertUnique(now, id, legacy[l]);
    StillFree(now, legacy, l, pending, id);
    assert Stored(next, legacy[l]) by {
      assert next[id] == legacy[l];
    }
    assert Stored(legacy, next[id]);
    forall k | k in rows && k !in pending
      ensures Stored(next, legacy[k])
    {
      var i :| i in now && now[i] == legacy[k];
      assert next[i] == legacy[k];
    }
  }

  /** Three cases for a legacy row: a key was taken, it kept its id, or it got a new one. */
  lemma RowCovered(t0: Identities, legacy: Identities, t1: Identities, t2: Identities, l: Id)
    requires l in legacy && t1 == t0 + WithOwnIds(t0, legacy) && FromLegacy(t1, legacy, t2)
    requires l in t0 && !ClashesWith(t0, legacy[l]) ==> Stored(t2, legacy[l])
    ensures ClashesWith(t2, legacy[l]) && (ClashesWith(t0, legacy[l]) || Stored(t2, legacy[l]))
  {
    if ClashesWith(t0, legacy[l]) {
      var i :| i in t0 && Clash(t0[i], legacy[l]);
      assert i in t1 && Clash(t2[i], legacy[l]);
    } else {
      if l !in t0 {
        assert t1[l] == legacy[l] && t2[l] == legacy[l];
      }
      var i :| i in t2 && t2[i] == legacy[l];
      assert Clash(t2[i], legacy[l]);
    }
  }

  lemma FromLegacyTwice(t0: Identities, legacy: Identities, t1: Identities, t2: Identities)
    requires t1 == t0 + WithOwnIds(t0, legacy) && FromLegacy(t1, legacy, t2)
    ensures FromLegacy(t0, legacy, t2)
  {
    hide Clash;
    forall id | id in t2 && id !in t0
      ensures Stored(legacy, t2[id])
    {
      if id in t1 {
        assert t2[id] == legacy[id];
      }
    }
  }

  lemma MovedCovers(t0: Identities, legacy: Identities, t1: Identities, t2: Identities)
    requires Unique(legacy) && t1 == t0 + WithOwnIds(t0, legacy)
    requires Moved(t1, legacy, NeedNewIds(t1, legacy), {}, t2)
    ensures FromLegacy(t0, legacy, t2) && Covered(t0, legacy, t2)
  {
    hide Unique, Clash, ClashesWith, FromLegacy, Stored;
    NewIdsIff(t0, legacy);
    FromLegacyTwice(t0, legacy, t1, t2);
    forall l | l in legacy
      ensures ClashesWith(t2, legacy[l]) && (ClashesWith(t0, legacy[l]) || Stored(t2, legacy[l]))
    {
      RowCovered(t0, legacy, t1, t2, l);
    }
  }

  /** What a migration of the identities comes to, column by column: no two rows share a provider
      and a subject, or a user and a provider; the old rows are there as they were, and every new
      one is a whole legacy row; and a legacy row is there as a whole unless a row that was there
      before has one of its unique keys. */
  lemma MigrationMeans(before: Identities, legacy: Identities, after: Identities)
    requires Unique(after) && FromLegacy(before, legacy, after) && Covered(before, legacy, after)
    ensures forall i, j :: i in after && j in after && i != j ==>
              && (after[i].provider, after[i].subject) != (after[j].provider, after[j].subject)
              && (after[i].user, after[i].provider) != (after[j].user, after[j].provider)
    ensures forall i :: i in before ==> i in after && after[i] == before[i]
    ensures forall i :: i in after && i !in before ==> exists l :: l in legacy && legacy[l] == after[i]
    ensures forall l :: l in legacy ==>
              || (exists i :: i in after && after[i] == legacy[l])
              || (exists i :: i in before && before[i].provider == legacy[l].provider
                              && (before[i].subject == legacy[l].subject || before[i].user == legacy[l].user))
  {
    forall i, j | i in after && j in after && i != j
      ensures after[i].provider == after[j].provider ==>
                after[i].subject != after[j].subject && after[i].user != after[j].user
    {
      assert !Clash(after[i], after[j]);
    }
    forall i | i in after && i !in before
      ensures exists l :: l in legacy && legacy[l] == after[i]
    {
      assert Stored(legacy, after[i]);
    }
    forall l | l in legacy
      ensures Stored(after, legacy[l]) || ClashesWith(before, legacy[l])
    {
    }
  }

  /* ---------- Questions and the answer cache ---------- */

  type Questions = map<Id, string>

  datatype CachedRow = CachedRow(text: string, rest: string)

  type Cache = map<Id, CachedRow>

  predicate HasText(qs: Questions, text: string) {
    exists id :: id in qs && qs[id] == text
  }

  predicate DistinctTexts(qs: Questions) {
    forall i, j :: i in qs && j in qs && qs[i] == qs[j] ==> i == j
  }

  /** Legacy questions whose id and text are both free. */
  function FreeQuestions(qs: Questions, legacy: Questions): Questions {
    map id | id in legacy && id !in qs && !HasText(qs, legacy[id]) :: legacy[id]
  }

  /** The text of a legacy question is stored after the migration exactly when it was stored
      before or its id was free: a legacy question whose id is taken is lost. */
  lemma LegacyQuestionKeptIff(qs: Questions, legacy: Questions, id: Id)
    requires DistinctTexts(qs) && DistinctTexts(legacy) && id in legacy
    ensures DistinctTexts(qs + FreeQuestions(qs, legacy))
    ensures HasText(qs + FreeQuestions(qs, legacy), legacy[id]) <==> HasText(qs, legacy[id]) || id !in qs
  {
    var next := qs + FreeQuestions(qs, legacy);
    forall i, j | i in next && j in next && next[i] == next[j]
      ensures i == j
    {
      if i in qs && j !in qs {
        assert HasText(qs, legacy[j]);
      } else if i !in qs && j in qs {
        assert HasText(qs, legacy[i]);
      }
    }
    if HasText(qs, legacy[id]) {
      var k :| k in qs && qs[k] == legacy[id];
      assert next[k] == legacy[id];
    } else if id !in qs {
      assert next[id] == legacy[id];
    } else {
      forall k | k in next
        ensures next[k] != legacy[id]
      {
        if k in qs {
          assert qs[k] != legacy[id];
        } else {
          assert k != id;
        }
      }
    }
  }

  /** The stored questions stay as they were, and the new ones are the legacy questions whose id and
      text are both free, under their own ids. */
  lemma FreeQuestionsAdded(qs: Questions, legacy: Questions, id: Id)
    ensures var next := qs + FreeQuestions(qs, legacy);
            && (id in qs ==> id in next && next[id] == qs[id])
            && (id !in qs ==> (id in next <==> id in legacy && forall k :: k in qs ==> qs[k] != legacy[id]))
            && (id !in qs && id in next ==> next[id] == legacy[id])
  {
    if id in legacy {
      assert HasText(qs, legacy[id]) <==> exists k :: k in qs && qs[k] == legacy[id];
    }
  }

  /** Where a cached row goes: to the question of its text, or else it keeps its id. */
  ghost predicate Target(qs: Questions, c: Id, row: CachedRow, t: Id) {
    if HasText(qs, row.text) then t in qs && qs[t] == row.text else t == c
  }

  /** The row of `c` is selected, with key `t`. */
  ghost predicate Selected(qs: Questions, cache: Cache, c: Id, t: Id) {
    c in cache && t in qs && Target(qs, c, cache[c], t)
  }

  /** A result of rebuilding the cache: exactly the selected keys, and at each of them a row
      selected for it. The order of the rows decides which one where there are several. */
  ghost predicate Rebuilt(qs: Questions, cache: Cache, cache': Cache) {
    && (forall t :: t in cache' ==> exists c :: Selected(qs, cache, c, t) && cache'[t] == cache[c])
    && (forall c, t :: Selected(qs, cache, c, t) ==> t in cache')
  }

  /** Every cached answer stands at the question it was given for. */
  predicate AnswersMatch(qs: Questions, cache: Cache) {
    forall t :: t in cache ==> t in qs && cache[t].text == qs[t]
  }

  lemma TargetUnique(qs: Questions, c: Id, row: CachedRow, t: Id, u: Id)
    requires DistinctTexts(qs) && Target(qs, c, row, t) && Target(qs, c, row, u)
    ensures t == u
  {
  }

  lemma SelectedFor(qs: Questions, cache: Cache, cache': Cache, t: Id) returns (c: Id)
    requires Rebuilt(qs, cache, cache') && t in cache'
    ensures Selected(qs, cache, c, t) && cache'[t] == cache[c]
  {
    c :| Selected(qs, cache, c, t) && cache'[t] == cache[c];
  }

  /** The row found at a key of a rebuilt cache is selected for that key again. */
  lemma RowsStay(qs: Questions, cache: Cache, once: Cache, t: Id)
    requires Rebuilt(qs, cache, once) && t in once
    ensures Selected(qs, once, t, t)
  {
    hide Rebuilt;
    var c := SelectedFor(qs, cache, once, t);
  }

  lemma RebuildIsIdempotent(qs: Questions, cache: Cache, once: Cache, twice: Cache)
    requires DistinctTexts(qs) && Rebuilt(qs, cache, once) && Rebuilt(qs, once, twice)
    ensures twice == once
  {
    hide Target, DistinctTexts, Rebuilt;
    forall t | t in once
      ensures t in twice
    {
      RowsStay(qs, cache, once, t);
      KeySelected(qs, once, twice, t, t);
    }
    forall t | t in twice
      ensures t in once && twice[t] == once[t]
    {
      var c := SelectedFor(qs, once, twice, t);
      RowsStay(qs, cache, once, c);
      TargetUnique(qs, c, once[c], t, c);
    }
  }

  lemma KeySelected(qs: Questions, cache: Cache, cache': Cache, c: Id, t: Id)
    requires Rebuilt(qs, cache, cache') && Selected(qs, cache, c, t)
    ensures t in cache'
  {
  }

  /** Midway through a rebuild: the rows of `pending` are still to be copied. */
  ghost predicate Copied(qs: Questions, cache: Cache, pending: set<Id>, copy: Cache) {
    && (forall t :: t in copy ==> exists c :: Selected(qs, cache, c, t) && copy[t] == cache[c])
    && (forall c, t :: c !in pending && Selected(qs, cache, c, t) ==> t in copy)
  }

  lemma CopyOne(qs: Questions, cache: Cache, pending: set<Id>, copy: Cache, c: Id, target: Id)
    requires DistinctTexts(qs) && Copied(qs, cache, pending, copy)
    requires c in cache && Target(qs, c, cache[c], target)
    ensures Copied(qs, cache, pending - {c}, if target in qs then copy[target := cache[c]] else copy)
  {
    hide Target, DistinctTexts;
    var next := if target in qs then copy[target := cache[c]] else copy;
    forall t | t in next
      ensures exists k :: Selected(qs, cache, k, t) && next[t] == cache[k]
    {
      if t == target && target in qs {
        assert Selected(qs, cache, c, t);
      } else {
        var k :| Selected(qs, cache, k, t) && copy[t] == cache[k];
      }
    }
    forall k, t | k !in pending - {c} && Selected(qs, cache, k, t)
      ensures t in next
    {
      if k == c {
        TargetUnique(qs, c, cache[c], t, target);
      }
    }
  }

  /** The row at key `t` when the row of `last` is copied last. */
  ghost function Winner(qs: Questions, cache: Cache, last: Id, t: Id): (c: Id)
    requires exists c :: Selected(qs, cache, c, t)
    ensures Selected(qs, cache, c, t)
    ensures Selected(qs, cache, last, t) ==> c == last
  {
    if Selected(qs, cache, last, t) then last else var c :| Selected(qs, cache, c, t); c
  }

  /** A rebuild in which the row of `last` wins its place. */
  lemma RebuildWithLast(qs: Questions, cache: Cache, last: Id) returns (cache': Cache)
    requires Selected(qs, cache, last, last)
    ensures Rebuilt(qs, cache, cache') && last in cache' && cache'[last] == cache[last]
  {
    hide Target;
    cache' := map t | t in qs && (exists c :: Selected(qs, cache, c, t)) :: cache[Winner(qs, cache, last, t)];
    forall t | t in cache'
      ensures exists c :: Selected(qs, cache, c, t) && cache'[t] == cache[c]
    {
      var c := Winner(qs, cache, last, t);
      assert Selected(qs, cache, c, t) && cache'[t] == cache[c];
    }
  }

  /** Whatever the order of the rows, the rebuilt cache keys every answer to the question of its
      own text, exactly when no cached row has the id of a question and the text of none. */
  lemma AnswersMatchIff(qs: Questions, cache: Cache)
    requires DistinctTexts(qs)
    ensures (forall cache': Cache :: Rebuilt(qs, cache, cache') ==> AnswersMatch(qs, cache'))
            <==> (forall c :: c in cache ==> HasText(qs, cache[c].text) || c !in qs)
  {
    if c :| c in cache && !HasText(qs, cache[c].text) && c in qs {
      var cache' := RebuildWithLast(qs, cache, c);
      assert !AnswersMatch(qs, cache') by {
        assert cache'[c].text == cache[c].text && qs[c] != cache[c].text;
      }
    } else {
      forall cache': Cache | Rebuilt(qs, cache, cache')
        ensures AnswersMatch(qs, cache')
      {
        forall t | t in cache'
          ensures t in qs && cache'[t].text == qs[t]
        {
          var c :| Selected(qs, cache, c, t) && cache'[t] == cache[c];
        }
      }
    }
  }

  /** The two migrations together: a legacy question loses its id to another question, its
      text is stored nowhere, and its cached answer stays under the id. Then the only cached
      answer is served for the other question. */
  lemma LostQuestionMisleads(qs: Questions, legacy: Questions, id: Id, row: CachedRow, cache': Cache)
    requires DistinctTexts(qs) && DistinctTexts(legacy)
    requires id in legacy && id in qs && !HasText(qs, legacy[id]) && row.text == legacy[id]
    requires Rebuilt(qs + FreeQuestions(qs, legacy), map[id := row], cache')
    ensures cache' == map[id := row] && (qs + FreeQuestions(qs, legacy))[id] != row.text
  {
    var next := qs + FreeQuestions(qs, legacy);
    LegacyQuestionKeptIff(qs, legacy, id);
    assert Selected(next, map[id := row], id, id);
  }

  /* ---------- The database ---------- */

  class Database {
    var users: set<nat>
    var identities: Identities
    /** The highest id ever given out. */
    var lastIdentity: Id
    var legacyIdentities: Option<Identities>
    var questions: Questions
    var legacyQuestions: Option<Questions>
    var cache: Cache

    predicate Valid()
      reads this
    {
      && Unique(identities) && (legacyIdentities.Some? ==> Unique(legacyIdentities.value))
      && (forall id :: id in identities ==> id <= lastIdentity)
      && DistinctTexts(questions) && (legacyQuestions.Some? ==> DistinctTexts(legacyQuestions.value))
    }

    /** INSERT .. SELECT with the legacy ids. The statement fails as a whole when a row refers
        to a user that does not exist. */
    method InsertWithOwnIds(legacy: Identities) returns (ok: bool)
      requires Valid() && Unique(legacy)
      modifies this`identities, this`lastIdentity
      ensures Valid()
      ensures identities == if ok then old(identities) + WithOwnIds(old(identities), legacy) else old(identities)
      ensures ok <==> forall id :: id in WithOwnIds(old(identities), legacy) ==> legacy[id].user in users
    {
      var rows := WithOwnIds(identities, legacy);
      ok := forall id :: id in rows ==> rows[id].user in users;
      if !ok {
        return;
      }
      hide Unique, Clash, DistinctTexts;
      FirstStatementUnique(identities, legacy);
      var top := Highest(rows.Keys);
      identities := identities + rows;
      lastIdentity := if top > lastIdentity then top else lastIdentity;
    }

    /** INSERT .. SELECT with new ids, given out in the arbitrary order of the rows. */
    method InsertWithNewIds(legacy: Identities) returns (ok: bool)
      requires Valid() && Unique(legacy)
      modifies this`identities, this`lastIdentity
      ensures Valid()
      ensures ok <==> forall l :: l in NeedNewIds(old(identities), legacy) ==> legacy[l].user in users
      ensures !ok ==> identities == old(identities)
      ensures ok ==> Moved(old(identities), legacy, NeedNewIds(old(identities), legacy), {}, identities)
    {
      hide Unique, Clash, DistinctTexts, ClashesWith, Stored, FromLegacy;
      var rows := NeedNewIds(identities, legacy);
      ok := forall l :: l in rows ==> legacy[l].user in users;
      if !ok {
        return;
      }
      ghost var before := identities;
      NothingMoved(before, legacy);
      var t, last := identities, lastIdentity;
      var pending := rows;
      while pending != {}
        invariant Moved(before, legacy, rows, pending, t)
        invariant forall id :: id in t ==> id <= last
        decreases pending
      {
        var l :| l in pending;
        last := last + 1;
        MoveOne(before, legacy, rows, pending, t, l, last);
        pending := pending - {l};
        t := t[last := legacy[l]];
      }
      identities, lastIdentity := t, last;
    }

    /** Moves the legacy identities over and drops their table. It succeeds exactly when every
        legacy row whose keys are free belongs to an existing user; whatever happens, the rows
        that were there stay as they were. */
    method MigrateIdentities() returns (ok: bool)
      requires Valid()
      modifies this`identities, this`lastIdentity, this`legacyIdentities
      ensures Valid()
      ensures legacyIdentities == if ok then None else old(legacyIdentities)
      ensures old(legacyIdentities).None? ==> ok && identities == old(identities)
      ensures old(legacyIdentities).Some? ==>
                && FromLegacy(old(identities), old(legacyIdentities).value, identities)
                && (ok <==> OwnersExist(old(identities), old(legacyIdentities).value, users))
                && (ok ==> Covered(old(identities), old(legacyIdentities).value, identities))
    {
      if legacyIdentities.None? {
        return true;
      }
      hide Unique, Clash, ClashesWith, DistinctTexts, Covered, Moved, FromLegacy, OwnersExist, WithOwnIds, NeedNewIds;
      var legacy := legacyIdentities.value;
      ghost var t0 := identities;
      OwnIdsFromLegacy(t0, legacy);
      OwnersIff(t0, legacy, users);
      ok := InsertWithOwnIds(legacy);
      if !ok {
        return;
      }
      ghost var t1 := identities;
      ok := InsertWithNewIds(legacy);
      if ok {
        MovedCovers(t0, legacy, t1, identities);
        legacyIdentities := None;
      }
    }

    /** Moves the legacy questions over, rebuilds the answer cache and drops the legacy table. */
    method MigrateQuestions()
      requires Valid()
      modifies this`questions, this`legacyQuestions, this`cache
      ensures Valid() && legacyQuestions == None
      ensures questions == old(if legacyQuestions.None? then questions
                               else questions + FreeQuestions(questions, legacyQuestions.value))
      ensures Rebuilt(questions, old(cache), cache)
    {
      hide Unique, Clash, Rebuilt, DistinctTexts, FreeQuestions;
      if legacyQuestions.Some? {
        var legacy := legacyQuestions.value;
        var free := FreeQuestions(questions, legacy);
        InsertedDistinct(questions, legacy);
        questions := questions + free;
      }
      RebuildCache();
      legacyQuestions := None;
    }

    /** Copies the cache row by row, in an arbitrary order; a later row replaces an earlier one. */
    method RebuildCache()
      requires Valid()
      modifies this`cache
      ensures Valid() && Rebuilt(questions, old(cache), cache)
    {
      var rows := cache;
      var copy: Cache := map[];
      var pending := rows.Keys;
      while pending != {}
        invariant pending <= rows.Keys && Copied(questions, rows, pending, copy)
        decreases pending
      {
        var c :| c in pending;
        var target := FindTarget(c, rows[c]);
        CopyOne(questions, rows, pending, copy, c, target);
        pending := pending - {c};
        if target in questions {
          copy := copy[target := rows[c]];
        }
      }
      cache := copy;
    }

    method FindTarget(c: Id, row: CachedRow) returns (t: Id)
      requires Valid()
      ensures Target(questions, c, row, t)
    {
      if HasText(questions, row.text) {
        t :| t in questions && questions[t] == row.text;
      } else {
        t := c;
      }
    }
  }

  method Highest(ids: set<Id>) returns (top: Id)
    ensures forall id :: id in ids ==> id <= top
  {
    top := 0;
    var pending := ids;
    while pending != {}
      invariant pending <= ids && forall id :: id in ids && id !in pending ==> id <= top
      decreases pending
    {
      var id :| id in pending;
      pending := pending - {id};
      top := if id > top then id else top;
    }
  }

  lemma InsertedDistinct(qs: Questions, legacy: Questions)
    requires DistinctTexts(qs) && DistinctTexts(legacy)
    ensures DistinctTexts(qs + FreeQuestions(qs, legacy))
  {
    if id :| id in legacy {
      LegacyQuestionKeptIff(qs, legacy, id);
    } else {
      assert qs + FreeQuestions(qs, legacy) == qs;
    }
  }
}
