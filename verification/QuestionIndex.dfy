/** The question index of the smart FAQ: records by id, and lookups by text, by semantic hash
    and by distance. Distances are compared squared, which orders them alike. */
module QuestionIndex {

  import opened Domain
  import opened Wrappers
  import Ranking

  type Id = nat

  datatype Record = Record(id: Id, text: string, hash: Option<nat>)

  datatype Question = Question(record: Record, embedding: Vector)

  datatype Index = Index(nextID: Id, records: map<Id, Question>, byText: map<string, Id>, byHash: map<nat, Id>)

  const EMPTY := Index(1, map[], map[], map[])

  function Square(x: real): real {
    x * x
  }

  /** The squared distance over the common dimensions. */
  function Distance(a: Vector, b: Vector): real {
    if a == [] || b == [] then 0.0 else Square(a[0] - b[0]) + Distance(a[1..], b[1..])
  }

  lemma {:induction false} DistanceToSelf(a: Vector)
    ensures Distance(a, a) == 0.0
  {
    if a != [] {
      DistanceToSelf(a[1..]);
    }
  }

  /** The law of cosines: the distance is what the products of the two vectors, cut to their common
      dimensions, say it is. */
  lemma {:induction false} DistanceOfProducts(a: Vector, b: Vector)
    ensures var n := if |a| <= |b| then |a| else |b|;
            Distance(a, b) == Ranking.Dot(a[..n], a[..n]) - 2.0 * Ranking.Dot(a[..n], b[..n]) + Ranking.Dot(b[..n], b[..n])
  {
    hide Square, Ranking.Dot;
    var n := if |a| <= |b| then |a| else |b|;
    if n == 0 {
      NoProducts();
    } else {
      var x, y := a[..n], b[..n];
      DistanceOfProducts(a[1..], b[1..]);
      assert x[1..] == a[1..][..n - 1] && y[1..] == b[1..][..n - 1];
      Ranking.DotFront(x, x);
      Ranking.DotFront(x, y);
      Ranking.DotFront(y, y);
      SquareOfDifference(a[0], b[0]);
    }
  }

  lemma NoProducts()
    ensures Ranking.Dot([], []) == 0.0
  {
  }

  lemma SquareOfDifference(x: real, y: real)
    ensures Square(x - y) == x * x - 2.0 * (x * y) + y * y
  {
  }

  /** Lookups are defined: whatever a text or a hash leads to is a record that has it. */
  ghost predicate Closed(ix: Index) {
    && ix.nextID >= 1
    && (forall id :: id in ix.records ==> 1 <= id < ix.nextID && ix.records[id].record.id == id)
    && (forall t :: t in ix.byText ==> ix.byText[t] in ix.records && ix.records[ix.byText[t]].record.text == t)
    && (forall h :: h in ix.byHash ==> ix.byHash[h] in ix.records && ix.records[ix.byHash[h]].record.hash == Some(h))
    && (forall id :: id in ix.records ==>
          && ix.records[id].record.text in ix.byText
          && (ix.records[id].record.hash.Some? ==> ix.records[id].record.hash.value in ix.byHash))
  }

  /** The three maps agree: moreover every record is the one its text leads to. */
  ghost predicate Coherent(ix: Index) {
    Closed(ix) && forall id :: id in ix.records ==> ix.byText[ix.records[id].record.text] == id
  }

  ghost predicate DistinctTexts(ix: Index) {
    forall i, j :: i in ix.records && j in ix.records && ix.records[i].record.text == ix.records[j].record.text ==> i == j
  }

  function Inserted(ix: Index, text: string, embedding: Vector, hash: Option<nat>): Index {
    var id := ix.nextID;
    Index(id + 1,
          ix.records[id := Question(Record(id, text, hash), embedding)],
          ix.byText[text := id],
          if hash.Some? then ix.byHash[hash.value := id] else ix.byHash)
  }

  lemma InsertKeepsClosed(ix: Index, text: string, embedding: Vector, hash: Option<nat>)
    requires Closed(ix)
    ensures Closed(Inserted(ix, text, embedding, hash))
  {
  }

  /** No text is stored twice exactly when the maps are coherent. */
  lemma CoherentIffDistinctTexts(ix: Index)
    requires Closed(ix)
    ensures Coherent(ix) <==> DistinctTexts(ix)
  {
    if DistinctTexts(ix) {
      forall id | id in ix.records
        ensures ix.byText[ix.records[id].record.text] == id
      {
        var other := ix.byText[ix.records[id].record.text];
        assert ix.records[other].record.text == ix.records[id].record.text;
      }
    }
  }

  /** Inserting keeps the texts distinct exactly when the text is new. */
  lemma InsertCoherentIff(ix: Index, text: string, embedding: Vector, hash: Option<nat>)
    requires Coherent(ix)
    ensures Coherent(Inserted(ix, text, embedding, hash)) <==> text !in ix.byText
  {
    var next := Inserted(ix, text, embedding, hash);
    InsertKeepsClosed(ix, text, embedding, hash);
    if text in ix.byText {
      var i := ix.byText[text];
      assert i in next.records && next.records[i].record.text == text && next.byText[text] != i;
    }
  }

  /** `m` is a record at the least distance. */
  ghost predicate Nearest(ix: Index, embedding: Vector, m: Question) {
    && m.record.id in ix.records && ix.records[m.record.id] == m
    && forall id :: id in ix.records ==> Distance(embedding, m.embedding) <= Distance(embedding, ix.records[id].embedding)
  }

  class MemoryRepository {
    var nextID: Id
    var records: map<Id, Question>
    var byText: map<string, Id>
    var byHash: map<nat, Id>

    ghost function View(): Index
      reads this
    {
      Index(nextID, records, byText, byHash)
    }

    constructor ()
      ensures View() == EMPTY
    {
      nextID := 1;
      records, byText, byHash := map[], map[], map[];
    }

    method FindExact(text: string) returns (r: Option<Record>)
      requires Closed(View())
      ensures r == if text in byText then Some(records[byText[text]].record) else None
    {
      if text !in byText {
        return None;
      }
      return Some(records[byText[text]].record);
    }

    /** A hash of zero means there is none. */
    method FindBySemanticHash(hash: nat) returns (r: Option<Record>)
      requires Closed(View())
      ensures r == if hash != 0 && hash in byHash then Some(records[byHash[hash]].record) else None
    {
      if hash == 0 || hash !in byHash {
        return None;
      }
      return Some(records[byHash[hash]].record);
    }

    /** The records are visited in an arbitrary order; a tie is kept by the first one. */
    method FindNearest(embedding: Vector) returns (r: Option<Question>, distance: real)
      requires Closed(View())
      ensures r.None? <==> records == map[]
      ensures r.Some? ==> Nearest(View(), embedding, r.value) && distance == Distance(embedding, r.value.embedding)
    {
      hide Distance;
      r, distance := None, 0.0;
      var pending := records.Keys;
      while pending != {}
        invariant pending <= records.Keys
        invariant r.None? <==> pending == records.Keys
        invariant r.Some? ==>
                    && r.value.record.id in records && records[r.value.record.id] == r.value
                    && distance == Distance(embedding, r.value.embedding)
                    && forall k :: k in records && k !in pending ==> distance <= Distance(embedding, records[k].embedding)
        decreases pending
      {
        var id :| id in pending;
        pending := pending - {id};
        var dist := SquaredDistance(embedding, records[id].embedding);
        if r.None? || dist < distance {
          r, distance := Some(records[id]), dist;
        }
      }
    }

    method SquaredDistance(a: Vector, b: Vector) returns (sum: real)
      ensures sum == Distance(a, b)
    {
      hide Square;
      var length := if |b| < |a| then |b| else |a|;
      sum := 0.0;
      for i := 0 to length
        invariant sum + Distance(a[i..], b[i..]) == Distance(a, b)
      {
        assert a[i..][1..] == a[i + 1..] && b[i..][1..] == b[i + 1..];
        sum := sum + Square(a[i] - b[i]);
      }
    }

    method InsertQuestion(text: string, embedding: Vector, hash: Option<nat>) returns (record: Record)
      modifies this
      ensures View() == Inserted(old(View()), text, embedding, hash)
      ensures record == Record(old(nextID), text, hash)
    {
      var id := nextID;
      nextID := nextID + 1;
      record := Record(id, text, hash);
      if hash.Some? {
        byHash := byHash[hash.value := id];
      }
      records := records[id := Question(record, embedding)];
      byText := byText[text := id];
    }
  }
}
