/** Long-term conversation memories: keyed upsert, pruning by priority, and search.

    Pruning keeps the records of highest importance, the newer first. The main result is
    that pruning after every turn loses nothing that pruning once at the end would keep. */
module MemoryStore {
  import opened Domain
  import opened Ranking
  import opened Wrappers

  datatype Record = Record(id: int, session: SessionId, user: int, source: string, content: string,
                           embedding: Vector, importance: int, createdAt: int)

  datatype Key = Key(user: int, source: string, content: string)

  function KeyOf(r: Record): Key {
    Key(r.user, r.source, r.content)
  }

  /** A record without the id the store gave it. */
  function Bare(r: Record): Record {
    r.(id := 0)
  }

  /** Strictly higher priority: more important, or as important and newer. */
  predicate Above(a: Record, b: Record) {
    a.importance > b.importance || (a.importance == b.importance && a.createdAt > b.createdAt)
  }

  /* ---------- The operations on one bucket ---------- */

  /** The position of the record with the key of `mem`, or the length of the list. */
  function Find(list: seq<Record>, mem: Record): (i: nat)
    ensures i <= |list|
    ensures i < |list| ==> KeyOf(list[i]) == KeyOf(mem)
    ensures forall j :: 0 <= j < i ==> KeyOf(list[j]) != KeyOf(mem)
  {
    if list == [] then 0
    else if KeyOf(list[0]) == KeyOf(mem) then 0
    else 1 + Find(list[1..], mem)
  }

  /** Replaces the record of the same key, keeping its id, or adds a new one. */
  function Upserted(list: seq<Record>, mem: Record): seq<Record> {
    var i := Find(list, mem);
    if i < |list| then list[i := mem.(id := list[i].id)] else list + [mem]
  }

  function OfUser(list: seq<Record>, user: int): seq<Record> {
    if list == [] then []
    else (if list[0].user == user then [list[0]] else []) + OfUser(list[1..], user)
  }

  function Insert(r: Record, sorted: seq<Record>): seq<Record> {
    if sorted == [] then [r]
    else if Above(sorted[0], r) then [sorted[0]] + Insert(r, sorted[1..])
    else [r] + sorted
  }

  /** The library's stable sort by priority. */
  function Sorted(list: seq<Record>): seq<Record> {
    if list == [] then [] else Insert(list[0], Sorted(list[1..]))
  }

  function Pruned(list: seq<Record>, user: int, limit: int): seq<Record> {
    if limit <= 0 then list
    else
      var own := OfUser(list, user);
      if |own| <= limit then own else (SortKeepsLength(own); Sorted(own)[..limit])
  }

  predicate Ranked(s: seq<Record>) {
    forall i, j :: 0 <= i < j < |s| ==> !Above(s[j], s[i])
  }

  lemma {:induction false} InsertKeepsLength(r: Record, sorted: seq<Record>)
    ensures |Insert(r, sorted)| == |sorted| + 1
  {
    if sorted != [] && Above(sorted[0], r) {
      InsertKeepsLength(r, sorted[1..]);
    }
  }

  lemma {:induction false} SortKeepsLength(list: seq<Record>)
    ensures |Sorted(list)| == |list|
  {
    if list != [] {
      SortKeepsLength(list[1..]);
      InsertKeepsLength(list[0], Sorted(list[1..]));
    }
  }

  lemma {:induction false} InsertPermutes(r: Record, sorted: seq<Record>)
    ensures multiset(Insert(r, sorted)) == multiset{r} + multiset(sorted)
  {
    if sorted != [] && Above(sorted[0], r) {
      InsertPermutes(r, sorted[1..]);
      assert sorted == [sorted[0]] + sorted[1..];
    }
  }

  lemma {:induction false} InsertRanks(r: Record, sorted: seq<Record>)
    requires Ranked(sorted)
    ensures Ranked(Insert(r, sorted))
  {
    if sorted != [] && Above(sorted[0], r) {
      var tail := Insert(r, sorted[1..]);
      InsertRanks(r, sorted[1..]);
      InsertPermutes(r, sorted[1..]);
      forall j | 0 <= j < |tail|
        ensures !Above(tail[j], sorted[0])
      {
        assert tail[j] in multiset(tail);
        assert tail[j] == r || tail[j] in sorted[1..];
      }
    }
  }

  lemma {:induction false} SortRanks(list: seq<Record>)
    ensures Ranked(Sorted(list)) && multiset(Sorted(list)) == multiset(list)
  {
    if list != [] {
      SortRanks(list[1..]);
      InsertRanks(list[0], Sorted(list[1..]));
      InsertPermutes(list[0], Sorted(list[1..]));
      assert list == [list[0]] + list[1..];
    }
  }

  /* ---------- Buckets as sets ---------- */

  function Bag(list: seq<Record>): set<Record> {
    set r | r in list :: Bare(r)
  }

  ghost predicate DistinctKeys(list: seq<Record>) {
    forall i, j :: 0 <= i < j < |list| ==> KeyOf(list[i]) != KeyOf(list[j])
  }

  ghost predicate KeyedApart(s: set<Record>) {
    forall x, y :: x in s && y in s && KeyOf(x) == KeyOf(y) ==> x == y
  }

  /** No two records have the same priority. */
  ghost predicate RankedApart(s: set<Record>) {
    forall x, y :: x in s && y in s && x != y ==> Above(x, y) || Above(y, x)
  }

  function AboveIn(s: set<Record>, r: Record): set<Record> {
    set x | x in s && Above(x, r)
  }

  /** The `n` records of highest priority. */
  function Top(s: set<Record>, n: nat): set<Record> {
    set x | x in s && |AboveIn(s, x)| < n
  }

  function Put(s: set<Record>, r: Record): set<Record> {
    (set x | x in s && KeyOf(x) != KeyOf(r)) + {r}
  }

  lemma {:induction false} Highest(s: set<Record>) returns (m: Record)
    requires s != {} && RankedApart(s)
    ensures m in s && forall x :: x in s && x != m ==> Above(m, x)
    decreases s
  {
    var x :| x in s;
    var rest := s - {x};
    if rest == {} {
      m := x;
      assert s == {x};
    } else {
      var h := Highest(rest);
      m := if Above(h, x) then h else x;
      assert Above(h, x) || Above(x, h);
      forall y | y in s && y != m
        ensures Above(m, y)
      {
        assert y == x || y == h || (y in rest && Above(h, y));
      }
    }
  }

  /** Taking the highest record away shifts every other rank by one. */
  lemma WithoutHighest(s: set<Record>, m: Record, n: nat)
    requires m in s && (forall x :: x in s && x != m ==> Above(m, x)) && n > 0
    ensures m !in Top(s - {m}, n - 1) && Top(s, n) == Top(s - {m}, n - 1) + {m}
  {
    var rest := s - {m};
    assert AboveIn(s, m) == {};
    forall x | x in rest
      ensures |AboveIn(s, x)| == |AboveIn(rest, x)| + 1
    {
      assert AboveIn(s, x) == AboveIn(rest, x) + {m};
    }
  }

  lemma TopOfNothing(s: set<Record>, n: nat)
    requires n == 0 || s == {}
    ensures Top(s, n) == {}
  {
  }

  /** There are exactly `n` records of highest priority, if there are that many at all. */
  lemma {:induction false} TopSize(s: set<Record>, n: nat)
    requires RankedApart(s)
    ensures |Top(s, n)| == if n <= |s| then n else |s|
    decreases n
  {
    hide Top, AboveIn, Above;
    if n == 0 || s == {} {
      TopOfNothing(s, n);
    } else {
      var m := Highest(s);
      var rest := s - {m};
      SubsetRankedApart(rest, s);
      TopSize(rest, n - 1);
      WithoutHighest(s, m, n);
    }
  }

  /** Whoever has `n` records above it has `n` of the top ones above it. */
  lemma TopDominates(s: set<Record>, r: Record, n: nat)
    requires RankedApart(s) && |AboveIn(s, r)| >= n
    ensures |AboveIn(Top(s, n), r)| >= n
  {
    var a := AboveIn(s, r);
    TopSize(a, n);
    forall x | x in a
      ensures AboveIn(a, x) == AboveIn(s, x)
    {
    }
    assert Top(a, n) <= AboveIn(Top(s, n), r);
    Subset(Top(a, n), AboveIn(Top(s, n), r));
  }

  lemma Subset<T>(a: set<T>, b: set<T>)
    requires a <= b
    ensures |a| <= |b|
  {
    if a != b {
      assert b == a + (b - a);
    }
  }

  /* ---------- Pruning early loses nothing ---------- */

  /** `kept` misses only records that have `n` kept ones above them. */
  ghost predicate Covers(kept: set<Record>, full: set<Record>, n: nat) {
    kept <= full && forall x :: x in full && x !in kept ==> |AboveIn(kept, x)| >= n
  }

  lemma CoversSameTop(kept: set<Record>, full: set<Record>, n: nat)
    requires Covers(kept, full, n)
    ensures Top(kept, n) == Top(full, n)
  {
    forall x | x in full
      ensures x in Top(kept, n) <==> x in Top(full, n)
    {
      Subset(AboveIn(kept, x), AboveIn(full, x));
      if x in kept && |AboveIn(kept, x)| < n {
        forall y | y in AboveIn(full, x)
          ensures y in AboveIn(kept, x)
        {
          if y !in kept {
            assert AboveIn(kept, y) <= AboveIn(kept, x);
            Subset(AboveIn(kept, y), AboveIn(kept, x));
          }
        }
        assert AboveIn(full, x) == AboveIn(kept, x);
      }
    }
  }

  /** Two stores agree on the top exactly when the smaller one misses nothing that matters. */
  lemma SameTopIff(kept: set<Record>, full: set<Record>, n: nat)
    requires kept <= full && RankedApart(full)
    ensures Top(kept, n) == Top(full, n) <==> Covers(kept, full, n)
  {
    if Top(kept, n) == Top(full, n) {
      forall x | x in full && x !in kept
        ensures |AboveIn(kept, x)| >= n
      {
        assert x !in Top(full, n);
        TopDominates(full, x, n);
        Subset(AboveIn(Top(full, n), x), AboveIn(kept, x));
      }
    } else if Covers(kept, full, n) {
      CoversSameTop(kept, full, n);
    }
  }

  lemma PruneCovers(kept: set<Record>, full: set<Record>, n: nat)
    requires Covers(kept, full, n) && RankedApart(full)
    ensures Covers(Top(kept, n), full, n)
  {
    forall x | x in full && x !in Top(kept, n)
      ensures |AboveIn(Top(kept, n), x)| >= n
    {
      TopDominates(kept, x, n);
    }
  }

  /** A record put over one of the same key does not lose priority. */
  ghost predicate Raises(s: set<Record>, r: Record) {
    forall x :: x in s && KeyOf(x) == KeyOf(r) ==> !Above(x, r)
  }

  /** A save is harmless when each missing record that it brings the kept record of its key below
      has more than `n` kept records above it. Raising a record, and saving one that is not kept,
      always are. */
  ghost predicate Harmless(kept: set<Record>, full: set<Record>, r: Record, n: nat) {
    forall was, x ::
      was in kept && KeyOf(was) == KeyOf(r) && x in full && x !in kept && Above(was, x) && !Above(r, x) ==>
        |AboveIn(kept, x)| > n
  }

  /** How many records are above a missing one when `was` above it is replaced. */
  lemma AboveAfterPut(kept: set<Record>, r: Record, x: Record, was: Record)
    requires KeyedApart(kept) && was in kept && KeyOf(was) == KeyOf(r) && Above(was, x)
    ensures |AboveIn(Put(kept, r), x)| == |AboveIn(kept, x)| - (if Above(r, x) then 0 else 1)
  {
    hide Above, KeyOf;
    var rest := AboveIn(kept, x) - {was};
    assert forall y :: y in rest ==> KeyOf(y) != KeyOf(r);
    assert AboveIn(Put(kept, r), x) == rest + if Above(r, x) then {r} else {};
    assert r !in rest;
  }

  /** When none above it is replaced, there are no fewer. */
  lemma AboveAfterAdd(kept: set<Record>, r: Record, x: Record)
    requires forall was :: was in kept && KeyOf(was) == KeyOf(r) ==> !Above(was, x)
    ensures |AboveIn(Put(kept, r), x)| >= |AboveIn(kept, x)|
  {
    hide Above, KeyOf;
    assert AboveIn(kept, x) <= AboveIn(Put(kept, r), x);
    Subset(AboveIn(kept, x), AboveIn(Put(kept, r), x));
  }

  /** Saving leaves the two stores in agreement exactly when it is harmless. */
  lemma SaveAgreesIff(kept: set<Record>, full: set<Record>, r: Record, n: nat)
    requires Covers(kept, full, n) && KeyedApart(full) && RankedApart(Put(full, r))
    ensures Top(Put(kept, r), n) == Top(Put(full, r), n) <==> Harmless(kept, full, r, n)
  {
    SameTopIff(Put(kept, r), Put(full, r), n);
    SaveCoversIff(kept, full, r, n);
  }

  lemma SaveCoversIff(kept: set<Record>, full: set<Record>, r: Record, n: nat)
    requires Covers(kept, full, n) && KeyedApart(full)
    ensures Covers(Put(kept, r), Put(full, r), n) <==> Harmless(kept, full, r, n)
  {
    hide Above;
    if Harmless(kept, full, r, n) {
      forall x | x in Put(full, r) && x !in Put(kept, r)
        ensures |AboveIn(Put(kept, r), x)| >= n
      {
        if was :| was in kept && KeyOf(was) == KeyOf(r) && Above(was, x) {
          AboveAfterPut(kept, r, x, was);
        } else {
          AboveAfterAdd(kept, r, x);
        }
      }
    } else {
      var was, x :| was in kept && KeyOf(was) == KeyOf(r) && x in full && x !in kept && Above(was, x) && !Above(r, x)
                    && |AboveIn(kept, x)| <= n;
      AboveAfterPut(kept, r, x, was);
      assert x in Put(full, r) && x !in Put(kept, r);
    }
  }

  lemma PutCovers(kept: set<Record>, full: set<Record>, r: Record, n: nat)
    requires Covers(kept, full, n) && KeyedApart(full) && Raises(full, r)
    ensures Harmless(kept, full, r, n) && Covers(Put(kept, r), Put(full, r), n)
  {
    forall was, x | was in kept && KeyOf(was) == KeyOf(r) && Above(was, x)
      ensures Above(r, x)
    {
      assert !Above(was, r);
    }
    SaveCoversIff(kept, full, r, n);
  }

  /* ---------- The bucket operations are the set operations ---------- */

  lemma UpsertIsPut(list: seq<Record>, mem: Record)
    requires DistinctKeys(list)
    ensures DistinctKeys(Upserted(list, mem))
    ensures Bag(Upserted(list, mem)) == Put(Bag(list), Bare(mem))
  {
    var i, next := Find(list, mem), Upserted(list, mem);
    var put := Put(Bag(list), Bare(mem));
    forall x | x in Bag(next)
      ensures x in put
    {
      var r :| r in next && Bare(r) == x;
      var j :| 0 <= j < |next| && next[j] == r;
      if j != i {
        assert list[j] == r && r in list;
        assert x in Bag(list);
        assert KeyOf(x) == KeyOf(list[j]);
      }
    }
    forall x | x in put
      ensures x in Bag(next)
    {
      if x == Bare(mem) {
        assert next[i] in next && Bare(next[i]) == x;
      } else {
        var r :| r in list && Bare(r) == x;
        var j :| 0 <= j < |list| && list[j] == r;
        assert KeyOf(r) == KeyOf(x);
        assert next[j] == r && r in next;
      }
    }
  }

  lemma {:induction false} OfUserKeepsAll(list: seq<Record>, user: int)
    requires forall r :: r in list ==> r.user == user
    ensures OfUser(list, user) == list
  {
    if list != [] {
      OfUserKeepsAll(list[1..], user);
      assert list == [list[0]] + list[1..];
    }
  }

  /** In a list of distinct keys a prefix holds exactly its own records. */
  lemma BagOfPrefix(s: seq<Record>, i: nat, n: nat)
    requires DistinctKeys(s) && i < |s| && n <= |s|
    ensures Bare(s[i]) in Bag(s[..n]) <==> i < n
  {
    if i < n {
      assert s[..n][i] == s[i];
    } else {
      forall r | r in s[..n]
        ensures Bare(r) != Bare(s[i])
      {
        var j :| 0 <= j < n && s[..n][j] == r;
        assert KeyOf(s[j]) != KeyOf(s[i]);
        assert KeyOf(Bare(r)) == KeyOf(r) && KeyOf(Bare(s[i])) == KeyOf(s[i]);
      }
    }
  }

  lemma Position(s: seq<Record>, x: Record) returns (i: nat)
    requires x in Bag(s)
    ensures i < |s| && Bare(s[i]) == x
  {
    var r :| r in s && Bare(r) == x;
    i :| 0 <= i < |s| && s[i] == r;
  }

  lemma BagOfAppend(list: seq<Record>, r: Record)
    ensures Bag(list + [r]) == Bag(list) + {Bare(r)}
  {
    assert forall x :: x in list + [r] <==> x in list || x == r;
  }

  lemma {:induction false} BagSize(list: seq<Record>)
    requires DistinctKeys(list)
    ensures |Bag(list)| == |list|
  {
    hide KeyOf;
    if list != [] {
      var n := |list| - 1;
      BagSize(list[..n]);
      BagOfAppend(list[..n], list[n]);
      assert list == list[..n] + [list[n]];
      BagOfPrefix(list, n, n);
    }
  }

  lemma BagKeyedApart(list: seq<Record>)
    requires DistinctKeys(list)
    ensures KeyedApart(Bag(list))
  {
    forall x, y | x in Bag(list) && y in Bag(list) && KeyOf(x) == KeyOf(y)
      ensures x == y
    {
      var i := Position(list, x);
      var j := Position(list, y);
      assert KeyOf(list[i]) == KeyOf(x) && KeyOf(list[j]) == KeyOf(y);
      assert i == j;
    }
  }

  lemma SortDistinct(list: seq<Record>)
    requires DistinctKeys(list)
    ensures DistinctKeys(Sorted(list)) && Bag(Sorted(list)) == Bag(list)
  {
    SortRanks(list);
    var s := Sorted(list);
    assert forall r :: r in s <==> r in multiset(s);
    assert forall r :: r in list <==> r in multiset(list);
    forall i, j | 0 <= i < j < |s|
      ensures KeyOf(s[i]) != KeyOf(s[j])
    {
      var p, q := FromPermutation(list, s, i, j);
    }
  }

  /** Two places of a list come from two places of any list it is a permutation of. */
  lemma FromPermutation(list: seq<Record>, s: seq<Record>, i: nat, j: nat) returns (p: nat, q: nat)
    requires multiset(s) == multiset(list) && i < j < |s|
    ensures p < |list| && q < |list| && p != q
    ensures list[p] == s[i] && list[q] == s[j]
  {
    assert s[i] in multiset(s) && s[j] in multiset(s);
    if s[i] == s[j] {
      var r := s[i];
      assert s == s[..i] + [r] + s[i + 1..j] + [r] + s[j + 1..];
      assert multiset(s)[r] >= 2;
      TwiceInList(list, r);
      p, q :| 0 <= p < q < |list| && list[p] == r && list[q] == r;
    } else {
      p :| 0 <= p < |list| && list[p] == s[i];
      q :| 0 <= q < |list| && list[q] == s[j];
    }
  }

  lemma TwiceInList(list: seq<Record>, r: Record)
    requires multiset(list)[r] >= 2
    ensures exists i, j :: 0 <= i < j < |list| && list[i] == r && list[j] == r
  {
    var i :| 0 <= i < |list| && list[i] == r;
    assert list == list[..i] + [r] + list[i + 1..];
    assert r in list[..i] || r in list[i + 1..];
    if r in list[..i] {
      var j :| 0 <= j < i && list[j] == r;
    } else {
      var j :| 0 <= j < |list[i + 1..]| && list[i + 1..][j] == r;
      assert list[i + 1 + j] == r;
    }
  }

  /** Cutting the sorted list takes the records of highest priority. */
  lemma CutIsTop(s: seq<Record>, n: nat)
    requires Ranked(s) && DistinctKeys(s) && RankedApart(Bag(s)) && n <= |s|
    ensures Bag(s[..n]) == Top(Bag(s), n)
  {
    var all := Bag(s);
    forall x | x in all
      ensures x in Bag(s[..n]) <==> x in Top(all, n)
    {
      var i := Position(s, x);
      RankIsPosition(s, i);
      BagOfPrefix(s, i, n);
    }
    assert forall r :: r in s[..n] ==> r in s;
  }

  lemma RankIsPosition(s: seq<Record>, i: nat)
    requires Ranked(s) && DistinctKeys(s) && RankedApart(Bag(s)) && i < |s|
    ensures |AboveIn(Bag(s), Bare(s[i]))| == i
  {
    BagSize(s[..i]);
    var x := Bare(s[i]);
    assert s[i] in s;
    forall y | y in Bag(s)
      ensures y in AboveIn(Bag(s), x) <==> y in Bag(s[..i])
    {
      var j := Position(s, y);
      BagOfPrefix(s, j, i);
      BagOfPrefix(s, j, i + 1);
      if j < i {
        BagOfPrefix(s, i, i);
        assert !Above(s[i], s[j]);
      } else if j > i {
        assert !Above(s[j], s[i]);
      }
    }
    assert forall r :: r in s[..i] ==> r in s;
    assert AboveIn(Bag(s), x) == Bag(s[..i]);
  }

  lemma TopOfFew(s: set<Record>, n: nat)
    requires |s| <= n
    ensures Top(s, n) == s
  {
    forall x | x in s
      ensures |AboveIn(s, x)| < n
    {
      assert AboveIn(s, x) <= s - {x};
      Subset(AboveIn(s, x), s - {x});
    }
  }

  lemma PruneIsTop(list: seq<Record>, user: int, limit: int)
    requires limit > 0 && DistinctKeys(list) && RankedApart(Bag(list))
    requires forall r :: r in list ==> r.user == user
    ensures DistinctKeys(Pruned(list, user, limit))
    ensures Bag(Pruned(list, user, limit)) == Top(Bag(list), limit)
  {
    OfUserKeepsAll(list, user);
    BagSize(list);
    if |list| <= limit {
      TopOfFew(Bag(list), limit);
    } else {
      SortKeepsLength(list);
      SortRanks(list);
      SortDistinct(list);
      CutIsTop(Sorted(list), limit);
    }
  }

  /* ---------- Runs of one user's session ---------- */

  datatype Op = Save(mem: Record) | Prune

  /** The bucket after a run, pruning whenever asked. */
  function Kept(ops: seq<Op>, user: int, limit: int): seq<Record> {
    if ops == [] then []
    else
      var prior := Kept(ops[..|ops| - 1], user, limit);
      match ops[|ops| - 1]
      case Save(mem) => Upserted(prior, mem)
      case Prune => Pruned(prior, user, limit)
  }

  /** The bucket of a store that never prunes. */
  function Full(ops: seq<Op>): seq<Record> {
    if ops == [] then []
    else
      var prior := Full(ops[..|ops| - 1]);
      match ops[|ops| - 1]
      case Save(mem) => Upserted(prior, mem)
      case Prune => prior
  }

  /** Priorities stay pairwise distinct and saving over a record never lowers its priority. */
  ghost predicate Orderly(ops: seq<Op>, user: int) {
    ops != [] ==>
      var prior := ops[..|ops| - 1];
      && Orderly(prior, user)
      && RankedApart(Bag(Full(ops)))
      && (ops[|ops| - 1].Save? ==>
            ops[|ops| - 1].mem.user == user && Raises(Bag(Full(prior)), Bare(ops[|ops| - 1].mem)))
  }

  lemma UpsertKeepsUser(list: seq<Record>, mem: Record, user: int)
    requires mem.user == user && forall r :: r in list ==> r.user == user
    ensures forall r :: r in Upserted(list, mem) ==> r.user == user
  {
  }

  lemma {:induction false} OfUserIsOfUser(list: seq<Record>, user: int)
    ensures forall r :: r in OfUser(list, user) ==> r.user == user && r in list
  {
    if list != [] {
      OfUserIsOfUser(list[1..], user);
    }
  }

  lemma PruneKeepsUser(list: seq<Record>, user: int, limit: int)
    requires forall r :: r in list ==> r.user == user
    ensures forall r :: r in Pruned(list, user, limit) ==> r in list
  {
    if limit > 0 {
      var own := OfUser(list, user);
      OfUserIsOfUser(list, user);
      SortRanks(own);
      SortKeepsLength(own);
      assert forall r :: r in Sorted(own) ==> r in multiset(Sorted(own));
      assert forall r :: r in multiset(own) ==> r in own;
    }
  }

  ghost predicate InStep(kept: seq<Record>, all: seq<Record>, user: int, limit: nat) {
    && DistinctKeys(kept) && DistinctKeys(all)
    && (forall r :: r in kept ==> r.user == user)
    && Covers(Bag(kept), Bag(all), limit)
  }

  lemma SubsetRankedApart(a: set<Record>, b: set<Record>)
    requires a <= b && RankedApart(b)
    ensures RankedApart(a)
  {
  }

  lemma SaveInStep(kept: seq<Record>, all: seq<Record>, mem: Record, user: int, limit: nat)
    requires InStep(kept, all, user, limit) && mem.user == user && Raises(Bag(all), Bare(mem))
    ensures InStep(Upserted(kept, mem), Upserted(all, mem), user, limit)
  {
    hide Bag, Covers, Upserted, DistinctKeys, Raises;
    UpsertKeepsUser(kept, mem, user);
    UpsertIsPut(kept, mem);
    UpsertIsPut(all, mem);
    BagKeyedApart(all);
    PutCovers(Bag(kept), Bag(all), Bare(mem), limit);
  }

  lemma PruneInStep(kept: seq<Record>, all: seq<Record>, user: int, limit: nat)
    requires InStep(kept, all, user, limit) && limit > 0 && RankedApart(Bag(all))
    ensures InStep(Pruned(kept, user, limit), all, user, limit)
    ensures Bag(Pruned(kept, user, limit)) == Top(Bag(all), limit)
  {
    hide Bag, Pruned, DistinctKeys, RankedApart, Top;
    SubsetRankedApart(Bag(kept), Bag(all));
    PruneKeepsUser(kept, user, limit);
    PruneIsTop(kept, user, limit);
    PruneCovers(Bag(kept), Bag(all), limit);
    CoversSameTop(Bag(kept), Bag(all), limit);
  }

  lemma {:induction false} RunInStep(ops: seq<Op>, user: int, limit: nat)
    requires limit > 0 && Orderly(ops, user)
    ensures InStep(Kept(ops, user, limit), Full(ops), user, limit)
  {
    if ops != [] {
      hide InStep, Upserted, Pruned, Bag, Raises, RankedApart;
      var prior := ops[..|ops| - 1];
      RunInStep(prior, user, limit);
      match ops[|ops| - 1]
      case Save(mem) => SaveInStep(Kept(prior, user, limit), Full(prior), mem, user, limit);
      case Prune => PruneInStep(Kept(prior, user, limit), Full(prior), user, limit);
    }
  }

  /** After every prune the bucket holds exactly the records that a store which never pruned
      would rank first: pruning early loses nothing. Ids are left out of the comparison,
      because a record that is saved again after it was pruned gets a new one. */
  lemma PruningEarlyLosesNothing(ops: seq<Op>, user: int, limit: nat)
    requires limit > 0 && Orderly(ops, user)
    requires ops != [] && ops[|ops| - 1] == Prune
    ensures Bag(Kept(ops, user, limit)) == Top(Bag(Full(ops)), limit)
  {
    var prior := ops[..|ops| - 1];
    hide InStep, Bag, RankedApart, Top;
    RunInStep(prior, user, limit);
    PruneInStep(Kept(prior, user, limit), Full(prior), user, limit);
  }

  /* ---------- Runs that may lower priorities ---------- */

  /** Priorities stay pairwise distinct, and all saves are the user's. */
  ghost predicate Distinct(ops: seq<Op>, user: int) {
    ops != [] ==>
      && Distinct(ops[..|ops| - 1], user) && RankedApart(Bag(Full(ops)))
      && (ops[|ops| - 1].Save? ==> ops[|ops| - 1].mem.user == user)
  }

  /** Every save of the run is harmless. */
  ghost predicate AllHarmless(ops: seq<Op>, user: int, limit: nat) {
    ops != [] ==>
      var prior := ops[..|ops| - 1];
      && AllHarmless(prior, user, limit)
      && (ops[|ops| - 1].Save? ==>
            Harmless(Bag(Kept(prior, user, limit)), Bag(Full(prior)), Bare(ops[|ops| - 1].mem), limit))
  }

  /** A prune at any moment of the run would leave exactly the top of the store that never
      prunes. */
  ghost predicate AgreesThroughout(ops: seq<Op>, user: int, limit: nat) {
    && Bag(Pruned(Kept(ops, user, limit), user, limit)) == Top(Bag(Full(ops)), limit)
    && (ops != [] ==> AgreesThroughout(ops[..|ops| - 1], user, limit))
  }

  ghost predicate Within(kept: seq<Record>, all: seq<Record>, user: int) {
    && DistinctKeys(kept) && DistinctKeys(all)
    && (forall r :: r in kept ==> r.user == user)
    && Bag(kept) <= Bag(all)
  }

  lemma SaveWithin(kept: seq<Record>, all: seq<Record>, mem: Record, user: int)
    requires Within(kept, all, user) && mem.user == user
    ensures Within(Upserted(kept, mem), Upserted(all, mem), user)
  {
    hide Bag, Upserted, DistinctKeys;
    UpsertKeepsUser(kept, mem, user);
    UpsertIsPut(kept, mem);
    UpsertIsPut(all, mem);
  }

  lemma PruneWithin(kept: seq<Record>, all: seq<Record>, user: int, limit: nat)
    requires Within(kept, all, user) && limit > 0 && RankedApart(Bag(all))
    ensures Within(Pruned(kept, user, limit), all, user)
    ensures Bag(Pruned(kept, user, limit)) == Top(Bag(kept), limit)
  {
    hide Bag, Pruned, DistinctKeys, RankedApart;
    SubsetRankedApart(Bag(kept), Bag(all));
    PruneKeepsUser(kept, user, limit);
    PruneIsTop(kept, user, limit);
  }

  /** A prune now would agree exactly when nothing that matters is missing. */
  lemma AgreesIff(kept: seq<Record>, all: seq<Record>, user: int, limit: nat)
    requires Within(kept, all, user) && limit > 0 && RankedApart(Bag(all))
    ensures Bag(Pruned(kept, user, limit)) == Top(Bag(all), limit) <==> Covers(Bag(kept), Bag(all), limit)
  {
    hide Bag, Pruned, DistinctKeys, RankedApart, Top, Covers;
    PruneWithin(kept, all, user, limit);
    SameTopIff(Bag(kept), Bag(all), limit);
  }

  lemma {:induction false} RunWithin(ops: seq<Op>, user: int, limit: nat)
    requires limit > 0 && Distinct(ops, user)
    ensures Within(Kept(ops, user, limit), Full(ops), user) && RankedApart(Bag(Full(ops)))
  {
    if ops != [] {
      hide Within, Upserted, Pruned, Bag, RankedApart;
      var prior := ops[..|ops| - 1];
      RunWithin(prior, user, limit);
      match ops[|ops| - 1]
      case Save(mem) => SaveWithin(Kept(prior, user, limit), Full(prior), mem, user);
      case Prune => PruneWithin(Kept(prior, user, limit), Full(prior), user, limit);
    }
  }

  /** One more operation on two stores that agree. */
  lemma StepAgreesIff(kept: seq<Record>, all: seq<Record>, op: Op, user: int, limit: nat)
    requires Within(kept, all, user) && limit > 0 && RankedApart(Bag(all)) && Covers(Bag(kept), Bag(all), limit)
    requires op.Save? ==> op.mem.user == user && RankedApart(Bag(Upserted(all, op.mem)))
    ensures match op
            case Save(mem) =>
              Bag(Pruned(Upserted(kept, mem), user, limit)) == Top(Bag(Upserted(all, mem)), limit) <==>
                Harmless(Bag(kept), Bag(all), Bare(mem), limit)
            case Prune => Bag(Pruned(Pruned(kept, user, limit), user, limit)) == Top(Bag(all), limit)
  {
    hide Bag, Pruned, RankedApart, Top, Covers, Upserted, Harmless, DistinctKeys;
    match op
    case Save(mem) =>
      SaveWithin(kept, all, mem, user);
      AgreesIff(Upserted(kept, mem), Upserted(all, mem), user, limit);
      UpsertIsPut(kept, mem);
      UpsertIsPut(all, mem);
      BagKeyedApart(all);
      SaveCoversIff(Bag(kept), Bag(all), Bare(mem), limit);
    case Prune =>
      PruneWithin(kept, all, user, limit);
      PruneCovers(Bag(kept), Bag(all), limit);
      AgreesIff(Pruned(kept, user, limit), all, user, limit);
  }

  /** Over every run, lowering or not: pruning early never loses anything if and only if every
      save is harmless. */
  lemma {:induction false} AgreesThroughoutIff(ops: seq<Op>, user: int, limit: nat)
    requires limit > 0 && Distinct(ops, user)
    ensures AgreesThroughout(ops, user, limit) <==> AllHarmless(ops, user, limit)
  {
    hide Within, Upserted, Pruned, Bag, RankedApart, Top, Covers, Harmless;
    RunWithin(ops, user, limit);
    if ops == [] {
      NothingSaved(user, limit);
    } else {
      var prior := ops[..|ops| - 1];
      AgreesThroughoutIff(prior, user, limit);
      RunWithin(prior, user, limit);
      AgreesIff(Kept(prior, user, limit), Full(prior), user, limit);
      if AgreesThroughout(prior, user, limit) {
        StepAgreesIff(Kept(prior, user, limit), Full(prior), ops[|ops| - 1], user, limit);
      }
    }
  }

  lemma NothingSaved(user: int, limit: nat)
    requires limit > 0
    ensures Bag(Pruned([], user, limit)) == Top(Bag([]), limit)
  {
  }

  /** A run in which a record loses priority: "a" outranks "b", so "b" is pruned; then "a" is
      saved again below it. */
  function LoweringRun(user: int): seq<Op> {
    [Save(Note(user, "a", 2)), Save(Note(user, "b", 1)), Prune, Save(Note(user, "a", 0)), Prune]
  }

  function Note(user: int, content: string, importance: int): Record {
    Record(1, 0, user, "manual", content, [], importance, 1)
  }

  /** Its last save is not harmless, and a record is lost. */
  lemma LoweringLosesRecords(user: int)
    ensures !AllHarmless(LoweringRun(user), user, 1)
    ensures Kept(LoweringRun(user), user, 1) == [Note(user, "a", 0)]
    ensures Bare(Note(user, "a", 0)) !in Top(Bag(Full(LoweringRun(user))), 1)
  {
    hide Upserted, Pruned, Bag, AboveIn, Top, Harmless;
    var a2, b1, a0 := Note(user, "a", 2), Note(user, "b", 1), Note(user, "a", 0);
    var run := LoweringRun(user);
    var r0, r1, r2, r3 := [Save(a2)], [Save(a2), Save(b1)], [Save(a2), Save(b1), Prune], [Save(a2), Save(b1), Prune, Save(a0)];
    assert r0[..0] == [] && r1[..1] == r0 && r2[..2] == r1 && r3[..3] == r2 && run[..4] == r3;
    FourSaves(user);
    TwoNotes(user);
    assert Kept([], user, 1) == [] == Full([]);
    assert Kept(r0, user, 1) == [a2] == Full(r0);
    assert Kept(r1, user, 1) == [a2, b1] == Full(r1);
    assert Kept(r2, user, 1) == [a2] && Full(r2) == [a2, b1];
    assert Kept(r3, user, 1) == [a0] && Full(r3) == [a0, b1];
    LoweredIsBelow(user);
    LoweringHarms(user);
  }

  lemma FourSaves(user: int)
    ensures var a2, b1, a0 := Note(user, "a", 2), Note(user, "b", 1), Note(user, "a", 0);
            && Upserted([], a2) == [a2] && Upserted([a2], b1) == [a2, b1]
            && Upserted([a2], a0) == [a0] && Upserted([a2, b1], a0) == [a0, b1]
  {
    assert "a" != "b" by { assert "a"[0] != "b"[0]; }
    var a2, b1 := Note(user, "a", 2), Note(user, "b", 1);
    assert [a2][1..] == [] && [a2, b1][1..] == [b1];
  }

  lemma LoweredIsBelow(user: int)
    ensures var b1, a0 := Note(user, "b", 1), Note(user, "a", 0);
            Bare(a0) !in Top(Bag([a0, b1]), 1)
  {
    var b1, a0 := Note(user, "b", 1), Note(user, "a", 0);
    assert b1 in [a0, b1];
    assert Bare(b1) in AboveIn(Bag([a0, b1]), Bare(a0));
  }

  lemma LoweringHarms(user: int)
    ensures var a2, b1 := Note(user, "a", 2), Note(user, "b", 1);
            !Harmless(Bag([a2]), Bag([a2, b1]), Bare(Note(user, "a", 0)), 1)
  {
    var a2, b1 := Note(user, "a", 2), Note(user, "b", 1);
    assert "a" != "b" by { assert "a"[0] != "b"[0]; }
    assert a2 in [a2] && a2 in [a2, b1] && b1 in [a2, b1];
    assert Bag([a2]) == {Bare(a2)};
    Subset(AboveIn(Bag([a2]), Bare(b1)), {Bare(a2)});
    assert Bare(b1) in Bag([a2, b1]) && Bare(b1) !in Bag([a2]) && Bare(a2) in Bag([a2]);
  }

  lemma TwoNotes(user: int)
    ensures Pruned([Note(user, "a", 2), Note(user, "b", 1)], user, 1) == [Note(user, "a", 2)]
    ensures Pruned([Note(user, "a", 0)], user, 1) == [Note(user, "a", 0)]
  {
    var a2, b1, a0 := Note(user, "a", 2), Note(user, "b", 1), Note(user, "a", 0);
    OfUserKeepsAll([a2, b1], user);
    OfUserKeepsAll([a0], user);
    assert [a2, b1][1..] == [b1] && [b1][1..] == [];
    assert Sorted([b1]) == [b1];
    assert Insert(a2, [b1]) == [a2, b1];
    assert Sorted([a2, b1]) == [a2, b1];
  }

  /* ---------- The store itself ---------- */

  /** The records a search scores. */
  function Candidates(sqrt: real -> real, list: seq<Record>, user: int, query: Vector): seq<Scored<Record>> {
    if list == [] then []
    else
      (if list[0].user == user && |list[0].embedding| > 0
       then [Scored(list[0], Cosine(sqrt, query, list[0].embedding))] else [])
      + Candidates(sqrt, list[1..], user, query)
  }

  lemma CandidatesFront(sqrt: real -> real, list: seq<Record>, user: int, query: Vector)
    requires list != []
    ensures Candidates(sqrt, list, user, query) ==
            Candidates(sqrt, [list[0]], user, query) + Candidates(sqrt, list[1..], user, query)
  {
    hide Cosine;
    assert [list[0]][1..] == [];
  }

  lemma {:induction false} CandidatesAppend(sqrt: real -> real, a: seq<Record>, r: Record, user: int, query: Vector)
    ensures Candidates(sqrt, a + [r], user, query) == Candidates(sqrt, a, user, query) + Candidates(sqrt, [r], user, query)
  {
    if a == [] {
      assert a + [r] == [r];
    } else {
      hide Candidates;
      CandidatesFront(sqrt, a, user, query);
      CandidatesFront(sqrt, a + [r], user, query);
      assert (a + [r])[1..] == a[1..] + [r];
      CandidatesAppend(sqrt, a[1..], r, user, query);
    }
  }

  /** The search scores exactly the user's records that have an embedding, each as often as it
      stands in the bucket. */
  predicate Scores(sqrt: real -> real, user: int, query: Vector, x: Scored<Record>) {
    x.item.user == user && x.item.embedding != [] && x.score == Cosine(sqrt, query, x.item.embedding)
  }

  lemma {:induction false} CandidateCount(sqrt: real -> real, list: seq<Record>, user: int, query: Vector, x: Scored<Record>)
    ensures multiset(Candidates(sqrt, list, user, query))[x] ==
            if Scores(sqrt, user, query, x) then multiset(list)[x.item] else 0
  {
    hide Cosine;
    if list != [] {
      var own := Candidates(sqrt, [list[0]], user, query);
      CandidatesFront(sqrt, list, user, query);
      CandidateCount(sqrt, list[1..], user, query, x);
      assert list == [list[0]] + list[1..];
      assert [list[0]][1..] == [];
      assert own == if list[0].user == user && list[0].embedding != []
                    then [Scored(list[0], Cosine(sqrt, query, list[0].embedding))] else [];
      assert x == Scored(x.item, x.score);
    }
  }

  /** What a search returns: the user's own records that have an embedding and no others, each with
      its cosine score and as often as it stands in the bucket. With a positive `k` there are at
      most `k` of them, a record is left out only when there are `k`, and none that is left out
      scores more than one that is returned. */
  lemma SearchReturns(sqrt: real -> real, list: seq<Record>, user: int, query: Vector, k: int,
                      results: seq<Scored<Record>>, x: Scored<Record>)
    requires TopK(Candidates(sqrt, list, user, query), results, k)
    ensures var there := if x.item.user == user && x.item.embedding != []
                            && x.score == Cosine(sqrt, query, x.item.embedding)
                         then multiset(list)[x.item] else 0;
            && multiset(results)[x] <= there
            && (k <= 0 || |results| < k ==> multiset(results)[x] == there)
            && (k > 0 ==> |results| <= k)
            && (multiset(results)[x] < there ==> forall y :: y in results ==> y.score >= x.score)
  {
    hide Cosine, Candidates;
    var cands := Candidates(sqrt, list, user, query);
    CandidateCount(sqrt, list, user, query, x);
    if k <= 0 || |results| < k {
      SameSize(multiset(results), multiset(cands));
    }
    if multiset(results)[x] < multiset(cands)[x] {
      assert x in multiset(cands) - multiset(results);
    }
  }

  lemma SameSize<T>(a: multiset<T>, b: multiset<T>)
    requires a <= b && |a| == |b|
    ensures a == b
  {
    assert b == a + (b - a);
    assert |b - a| == 0;
  }

  /* ---------- Which records are kept, and in which order ---------- */

  /** An upsert changes no id: a record that is replaced keeps its own. */
  lemma UpsertKeepsIds(list: seq<Record>, mem: Record)
    ensures var r := Upserted(list, mem);
            && (forall i :: 0 <= i < |list| ==> i < |r| && r[i].id == list[i].id)
            && (|r| == |list| <==>
                  exists i :: 0 <= i < |list| && list[i].user == mem.user && list[i].source == mem.source
                              && list[i].content == mem.content)
            && (|r| != |list| ==> r == list + [mem])
  {
    var i := Find(list, mem);
    if i < |list| {
      assert KeyOf(list[i]) == KeyOf(mem);
    }
  }

  lemma {:induction false} OwnCount(list: seq<Record>, user: int, r: Record)
    ensures multiset(OfUser(list, user))[r] == if r.user == user then multiset(list)[r] else 0
  {
    if list != [] {
      OwnCount(list[1..], user, r);
      assert list == [list[0]] + list[1..];
    }
  }

  /** What pruning keeps: own records only, as many as the limit allows, and no record is dropped
      for one that is less important, or as important and older. */
  lemma PruneKeepsBest(list: seq<Record>, user: int, limit: int, x: Record)
    requires limit > 0
    ensures var kept := Pruned(list, user, limit);
            var own := if x.user == user then multiset(list)[x] else 0;
            && |kept| <= limit
            && multiset(kept)[x] <= own
            && (|kept| < limit ==> multiset(kept)[x] == own)
            && (multiset(kept)[x] < own ==>
                  forall y :: y in kept ==>
                    y.importance > x.importance || (y.importance == x.importance && y.createdAt >= x.createdAt))
  {
    hide OfUser, Sorted;
    var own := OfUser(list, user);
    OwnCount(list, user, x);
    if |own| > limit {
      var s := Sorted(own);
      SortKeepsLength(own);
      SortRanks(own);
      CutBeatsRest(s, limit, x);
    }
  }

  lemma CutBeatsRest(s: seq<Record>, n: nat, x: Record)
    requires Ranked(s) && n <= |s|
    ensures multiset(s[..n])[x] <= multiset(s)[x]
    ensures multiset(s[..n])[x] < multiset(s)[x] ==> forall y :: y in s[..n] ==> !Above(x, y)
  {
    SplitMultiset(s, n);
    if multiset(s[..n])[x] < multiset(s)[x] {
      assert x in multiset(s[n..]) && x in s[n..];
      var j :| 0 <= j < |s[n..]| && s[n..][j] == x;
      forall y | y in s[..n]
        ensures !Above(x, y)
      {
        var i :| 0 <= i < n && s[..n][i] == y;
        assert !Above(s[n + j], s[i]);
      }
    }
  }

  /** The records of one priority, in order. */
  function OfRank(s: seq<Record>, importance: int, createdAt: int): seq<Record> {
    if s == [] then []
    else
      (if s[0].importance == importance && s[0].createdAt == createdAt then [s[0]] else [])
      + OfRank(s[1..], importance, createdAt)
  }

  lemma {:induction false} InsertIsStable(r: Record, sorted: seq<Record>, importance: int, createdAt: int)
    ensures OfRank(Insert(r, sorted), importance, createdAt) == OfRank([r] + sorted, importance, createdAt)
  {
    assert ([r] + sorted)[1..] == sorted;
    if sorted != [] && Above(sorted[0], r) {
      InsertIsStable(r, sorted[1..], importance, createdAt);
      assert ([r] + sorted[1..])[1..] == sorted[1..];
      assert ([sorted[0]] + Insert(r, sorted[1..]))[1..] == Insert(r, sorted[1..]);
    }
  }

  /** Records of equal priority keep their order, so of those the earliest are kept. */
  lemma {:induction false} SortIsStable(list: seq<Record>, importance: int, createdAt: int)
    ensures OfRank(Sorted(list), importance, createdAt) == OfRank(list, importance, createdAt)
  {
    if list != [] {
      SortIsStable(list[1..], importance, createdAt);
      InsertIsStable(list[0], Sorted(list[1..]), importance, createdAt);
      assert ([list[0]] + Sorted(list[1..]))[1..] == Sorted(list[1..]);
    }
  }

  lemma {:induction false} RankOfPrefix(s: seq<Record>, n: nat, importance: int, createdAt: int)
    requires n <= |s|
    ensures OfRank(s[..n], importance, createdAt) <= OfRank(s, importance, createdAt)
  {
    if n > 0 {
      assert s[..n][1..] == s[1..][..n - 1];
      RankOfPrefix(s[1..], n - 1, importance, createdAt);
    }
  }

  lemma PruneKeepsEarliest(list: seq<Record>, user: int, limit: int, importance: int, createdAt: int)
    ensures limit > 0 ==>
              OfRank(Pruned(list, user, limit), importance, createdAt) <= OfRank(OfUser(list, user), importance, createdAt)
  {
    hide OfRank, Sorted, OfUser;
    var own := OfUser(list, user);
    if 0 < limit < |own| {
      SortKeepsLength(own);
      SortIsStable(own, importance, createdAt);
      RankOfPrefix(Sorted(own), limit, importance, createdAt);
    }
  }

  class MemoryStore {
    var nextID: int
    var memories: map<SessionId, seq<Record>>

    constructor ()
      ensures nextID == 0 && memories == map[]
    {
      nextID := 0;
      memories := map[];
    }

    function Of(session: SessionId): seq<Record>
      reads this
    {
      if session in memories then memories[session] else []
    }

    /** Inserts or replaces a memory by its key. */
    method Upsert(mem: Record, now: int)
      modifies this
      ensures nextID == if mem.id == 0 then old(nextID) + 1 else old(nextID)
      ensures var stamped := mem.(id := if mem.id == 0 then nextID else mem.id,
                                  createdAt := if mem.createdAt == 0 then now else mem.createdAt);
              memories == old(memories)[mem.session := Upserted(old(Of(mem.session)), stamped)]
    {
      var m := mem;
      if m.id == 0 {
        nextID := nextID + 1;
        m := m.(id := nextID);
      }
      if m.createdAt == 0 {
        m := m.(createdAt := now);
      }
      var list := Of(m.session);
      ghost var before := list;
      var updated := false;
      var i := 0;
      while i < |list| && !updated
        invariant i <= |list| == |before|
        invariant !updated ==> list == before && i <= Find(before, m)
        invariant updated ==> i == Find(before, m) < |before| && list == Upserted(before, m)
        decreases |list| - i, !updated
      {
        if list[i].user == m.user && list[i].source == m.source && list[i].content == m.content {
          list := list[i := m.(id := list[i].id)];
          updated := true;
        } else {
          i := i + 1;
        }
      }
      if !updated {
        list := list + [m];
      }
      memories := memories[m.session := list];
    }

    /** Drops the user's records of low priority beyond the limit, and everybody else's, in one
        session or, when none is named, in all of them. */
    method Prune(user: int, session: Option<SessionId>, limit: int)
      modifies this`memories
      ensures limit <= 0 ==> memories == old(memories)
      ensures limit > 0 && session.Some? ==>
                memories == old(memories)[session.value := Pruned(old(Of(session.value)), user, limit)]
      ensures limit > 0 && session.None? ==>
                memories == map sid | sid in old(memories) :: Pruned(old(memories)[sid], user, limit)
    {
      hide Pruned;
      if limit <= 0 {
        return;
      }
      if session.Some? {
        var kept := PrunedBucket(Of(session.value), user, limit);
        memories := memories[session.value := kept];
      } else {
        var before := memories;
        var pending := memories.Keys;
        while pending != {}
          invariant pending <= before.Keys && memories.Keys == before.Keys
          invariant forall sid :: sid in before.Keys ==>
                      memories[sid] == if sid in pending then before[sid] else Pruned(before[sid], user, limit)
          decreases pending
        {
          var sid :| sid in pending;
          var kept := PrunedBucket(memories[sid], user, limit);
          memories := memories[sid := kept];
          pending := pending - {sid};
        }
      }
    }

    static method PrunedBucket(list: seq<Record>, user: int, limit: nat) returns (kept: seq<Record>)
      requires limit > 0
      ensures kept == Pruned(list, user, limit)
    {
      hide Sorted;
      kept := [];
      for i := 0 to |list|
        invariant kept + OfUser(list[i..], user) == OfUser(list, user)
      {
        assert list[i..][1..] == list[i + 1..];
        if list[i].user == user {
          kept := kept + [list[i]];
        }
      }
      assert list[|list|..] == [];
      assert kept == OfUser(list, user);
      if |kept| > limit {
        SortKeepsLength(kept);
        kept := Sorted(kept)[..limit];
      }
    }

    /** The `k` memories of the user most similar to the query. */
    method Search(sqrt: real -> real, user: int, session: SessionId, query: Vector, k: int)
      returns (results: seq<Scored<Record>>)
      ensures TopK(Candidates(sqrt, Of(session), user, query), results, k)
    {
      var candidates := Of(session);
      results := [];
      for i := 0 to |candidates|
        invariant results == Candidates(sqrt, candidates[..i], user, query)
      {
        var mem := candidates[i];
        assert candidates[..i + 1] == candidates[..i] + [mem];
        CandidatesAppend(sqrt, candidates[..i], mem, user, query);
        assert [mem][1..] == [];
        if mem.user != user {
          continue;
        }
        if |mem.embedding| == 0 {
          continue;
        }
        var score := CosineSimilarity(sqrt, query, mem.embedding);
        results := results + [Scored(mem, score)];
      }
      assert candidates[..|candidates|] == candidates;
      results := Rank(results, k);
    }
  }
}
