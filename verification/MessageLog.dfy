/** The conversation log: which recent messages are replayed under a token budget and a
    message count, in memory and over the rows of a database. */
module MessageLog {
  import opened Domain

  datatype Message = Message(id: int, session: SessionId, user: int, content: string, tokenCount: int, createdAt: int)

  function Tokens(m: Message): nat {
    if m.tokenCount < 0 then 0 else m.tokenCount
  }

  function SumTokens(msgs: seq<Message>): nat {
    if msgs == [] then 0 else Tokens(msgs[0]) + SumTokens(msgs[1..])
  }

  /** The messages of one user, in the order they were appended. */
  function Own(msgs: seq<Message>, user: int): seq<Message> {
    if msgs == [] then []
    else (if msgs[0].user == user then [msgs[0]] else []) + Own(msgs[1..], user)
  }

  function Suffix(msgs: seq<Message>, k: nat): seq<Message>
    requires k <= |msgs|
  {
    msgs[|msgs| - k..]
  }

  /** The last `k` messages fit both budgets; a budget that is not positive does not bind. */
  predicate Fits(own: seq<Message>, k: nat, maxTokens: int, maxMessages: int) {
    && k <= |own|
    && (maxMessages > 0 ==> k <= maxMessages)
    && (maxTokens > 0 ==> SumTokens(Suffix(own, k)) <= maxTokens)
  }

  /** `sel` is the longest suffix of `own` that fits. */
  ghost predicate LongestSuffix(own: seq<Message>, sel: seq<Message>, maxTokens: int, maxMessages: int) {
    && Fits(own, |sel|, maxTokens, maxMessages)
    && sel == Suffix(own, |sel|)
    && forall k: nat :: Fits(own, k, maxTokens, maxMessages) ==> k <= |sel|
  }

  function Reverse(msgs: seq<Message>): (r: seq<Message>)
    ensures |r| == |msgs|
    ensures forall i :: 0 <= i < |r| ==> r[i] == msgs[|msgs| - 1 - i]
  {
    if msgs == [] then [] else Reverse(msgs[1..]) + [msgs[0]]
  }

  lemma {:induction false} LongerSuffixCostsMore(own: seq<Message>, j: nat, k: nat)
    requires j <= k <= |own|
    ensures SumTokens(Suffix(own, j)) <= SumTokens(Suffix(own, k))
  {
    if j < k {
      LongerSuffixCostsMore(own, j, k - 1);
      assert Suffix(own, k)[1..] == Suffix(own, k - 1);
    }
  }

  /** When one more message does not fit, none of the longer suffixes does. */
  lemma StopsAtLongest(own: seq<Message>, n: nat, maxTokens: int, maxMessages: int)
    requires Fits(own, n, maxTokens, maxMessages)
    requires n < |own| ==> !Fits(own, n + 1, maxTokens, maxMessages)
    ensures LongestSuffix(own, Suffix(own, n), maxTokens, maxMessages)
  {
    forall k: nat | Fits(own, k, maxTokens, maxMessages)
      ensures k <= n
    {
      if k > n {
        LongerSuffixCostsMore(own, n + 1, k);
      }
    }
  }

  lemma SuffixGrows(own: seq<Message>, n: nat)
    requires n < |own|
    ensures SumTokens(Suffix(own, n + 1)) == Tokens(own[|own| - 1 - n]) + SumTokens(Suffix(own, n))
    ensures Reverse(Suffix(own, n + 1)) == Reverse(Suffix(own, n)) + [own[|own| - 1 - n]]
  {
    assert Suffix(own, n + 1)[1..] == Suffix(own, n);
  }

  lemma OwnFront(msgs: seq<Message>, user: int)
    requires msgs != []
    ensures Own(msgs, user) == (if msgs[0].user == user then [msgs[0]] else []) + Own(msgs[1..], user)
  {
  }

  lemma Assoc<T>(a: seq<T>, b: seq<T>, c: seq<T>)
    ensures a + b + c == a + (b + c)
  {
  }

  lemma {:induction false} OwnSplits(a: seq<Message>, b: seq<Message>, user: int)
    ensures Own(a + b, user) == Own(a, user) + Own(b, user)
  {
    hide Own;
    if a == [] {
      NothingOwned(user);
      assert a + b == b;
    } else {
      OwnFront(a, user);
      OwnFront(a + b, user);
      assert (a + b)[1..] == a[1..] + b;
      OwnSplits(a[1..], b, user);
      Assoc(if a[0].user == user then [a[0]] else [], Own(a[1..], user), Own(b, user));
    }
  }

  /** The user's messages and no others, each as often as it stands in the log. With `OwnSplits`
      this says that they are in its order. */
  lemma {:induction false} OwnCount(msgs: seq<Message>, user: int, m: Message)
    ensures multiset(Own(msgs, user))[m] == if m.user == user then multiset(msgs)[m] else 0
  {
    if msgs != [] {
      OwnCount(msgs[1..], user, m);
      assert msgs == [msgs[0]] + msgs[1..];
    }
  }

  /** Counts that are negative add nothing. */
  lemma {:induction false} SumOfCounts(msgs: seq<Message>, m: Message)
    ensures SumTokens(msgs + [m]) == SumTokens(msgs) + if m.tokenCount > 0 then m.tokenCount else 0
  {
    if msgs == [] {
      assert ([] + [m])[1..] == [];
    } else {
      assert (msgs + [m])[1..] == msgs[1..] + [m];
      SumOfCounts(msgs[1..], m);
    }
  }

  /** Scanning one message further back. */
  lemma OwnStep(msgs: seq<Message>, i: nat, user: int, own: seq<Message>, n: nat)
    requires i < |msgs| && n <= |own|
    requires own == Own(msgs[..i + 1], user) + Suffix(own, n)
    ensures msgs[i].user != user ==> own == Own(msgs[..i], user) + Suffix(own, n)
    ensures msgs[i].user == user ==>
              && n < |own| && own[|own| - 1 - n] == msgs[i]
              && own == Own(msgs[..i], user) + Suffix(own, n + 1)
  {
    hide Own;
    var msg := msgs[i];
    assert msgs[..i + 1] == msgs[..i] + [msg];
    OwnSplits(msgs[..i], [msg], user);
    OwnFront([msg], user);
    NothingOwned(user);
    assert [msg][1..] == [];
  }

  lemma NothingSelected(own: seq<Message>)
    ensures Suffix(own, 0) == [] && SumTokens([]) == 0 && Reverse([]) == []
  {
  }

  lemma NothingOwned(user: int)
    ensures Own([], user) == []
  {
  }

  /* ---------- What a caller may rely on ---------- */

  lemma LongestIsUnique(own: seq<Message>, a: seq<Message>, b: seq<Message>, maxTokens: int, maxMessages: int)
    requires LongestSuffix(own, a, maxTokens, maxMessages) && LongestSuffix(own, b, maxTokens, maxMessages)
    ensures a == b
  {
  }

  /** The row limit the database applies before the budget. */
  function RowLimit(maxMessages: int): nat {
    if maxMessages <= 0 then 200 else maxMessages
  }

  /** The database scan selects what the in-memory scan selects exactly when a message count is
      asked for, the user has no more messages than the default row limit, or one more message
      than that would break the token budget. */
  lemma ScansAgreeIff(own: seq<Message>, mem: seq<Message>, sql: seq<Message>, maxTokens: int, maxMessages: int)
    requires LongestSuffix(own, mem, maxTokens, maxMessages)
    requires LongestSuffix(own, sql, maxTokens, RowLimit(maxMessages))
    ensures mem == sql <==>
              || maxMessages > 0 || |own| <= 200
              || (maxTokens > 0 && SumTokens(Suffix(own, 201)) > maxTokens)
  {
    if maxMessages <= 0 {
      if |mem| <= 200 {
        assert Fits(own, |mem|, maxTokens, RowLimit(maxMessages));
        assert Fits(own, |sql|, maxTokens, maxMessages);
      } else {
        LongerSuffixCostsMore(own, 201, |mem|);
      }
      assert |own| > 200 ==> (Fits(own, 201, maxTokens, maxMessages) ==> |mem| >= 201);
    }
  }

  /** The shortest log on which they differ: 201 messages and no budget at all. */
  lemma ScansDiffer() returns (own: seq<Message>, mem: seq<Message>, sql: seq<Message>)
    ensures |own| == 201 && mem == own && sql == own[1..]
    ensures LongestSuffix(own, mem, 0, 0) && LongestSuffix(own, sql, 0, RowLimit(0))
  {
    own := seq(201, i => Message(i + 1, 1, 1, "", 0, i + 1));
    mem, sql := own, own[1..];
  }

  /** Appending a message makes it the last one selected, unless it alone breaks the budget. */
  lemma NewestIsReplayed(own: seq<Message>, m: Message, sel: seq<Message>, maxTokens: int, maxMessages: int)
    requires LongestSuffix(own + [m], sel, maxTokens, maxMessages)
    ensures sel == [] <==> maxTokens > 0 && Tokens(m) > maxTokens
    ensures sel != [] ==> sel[|sel| - 1] == m
  {
    var all := own + [m];
    SuffixGrows(all, 0);
    assert Suffix(all, 0) == [];
    assert Fits(all, 1, maxTokens, maxMessages) <==> !(maxTokens > 0 && Tokens(m) > maxTokens);
    if sel != [] {
      LongerSuffixCostsMore(all, 1, |sel|);
    }
  }

  /** The token total of the selected history. */
  method SumOf(msgs: seq<Message>) returns (total: int)
    ensures total == SumTokens(msgs)
  {
    total := 0;
    for i := 0 to |msgs|
      invariant total + SumTokens(msgs[i..]) == SumTokens(msgs)
    {
      assert msgs[i..][1..] == msgs[i + 1..];
      if msgs[i].tokenCount > 0 {
        total := total + msgs[i].tokenCount;
      }
    }
  }

  /** Reverses a slice by swapping its ends. */
  method ReverseInPlace(a: array<Message>)
    modifies a
    ensures a[..] == Reverse(old(a[..]))
  {
    var i, j := 0, a.Length - 1;
    while i < j
      invariant 0 <= i && j == a.Length - 1 - i && i <= j + 1
      invariant forall k :: 0 <= k < i || j < k < a.Length ==> a[k] == old(a[a.Length - 1 - k])
      invariant forall k :: i <= k <= j ==> a[k] == old(a[k])
    {
      a[i], a[j] := a[j], a[i];
      i, j := i + 1, j - 1;
    }
  }

  method Chronological(selected: seq<Message>) returns (r: seq<Message>)
    ensures r == Reverse(selected)
  {
    var a := new Message[|selected|](i requires 0 <= i < |selected| => selected[i]);
    assert a[..] == selected;
    ReverseInPlace(a);
    r := a[..];
  }

  lemma ReverseTwice(msgs: seq<Message>)
    ensures Reverse(Reverse(msgs)) == msgs
  {
  }

  class MemoryMessageLog {
    var nextID: int
    var messages: map<SessionId, seq<Message>>

    constructor ()
      ensures nextID == 0 && messages == map[]
    {
      nextID := 0;
      messages := map[];
    }

    function Of(session: SessionId): seq<Message>
      reads this
    {
      if session in messages then messages[session] else []
    }

    /** A message without an id or a time gets the next id and the present time. */
    method Append(msg: Message, now: int)
      modifies this
      ensures nextID == if msg.id == 0 then old(nextID) + 1 else old(nextID)
      ensures messages == old(messages)[msg.session := old(Of(msg.session)) +
                [msg.(id := if msg.id == 0 then nextID else msg.id,
                      createdAt := if msg.createdAt == 0 then now else msg.createdAt)]]
    {
      var m := msg;
      if m.id == 0 {
        nextID := nextID + 1;
        m := m.(id := nextID);
      }
      if m.createdAt == 0 {
        m := m.(createdAt := now);
      }
      messages := messages[m.session := Of(m.session) + [m]];
    }

    method ListRecent(user: int, session: SessionId, maxTokens: int, maxMessages: int) returns (selected: seq<Message>)
      ensures LongestSuffix(Own(Of(session), user), selected, maxTokens, maxMessages)
    {
      hide Own, SumTokens, Reverse;
      var msgs := Of(session);
      ghost var own := Own(msgs, user);
      selected := [];
      var totalTokens, i := 0, |msgs| - 1;
      assert msgs[..|msgs|] == msgs;
      NothingSelected(own);
      while i >= 0
        invariant -1 <= i < |msgs|
        invariant |selected| <= |own| && selected == Reverse(Suffix(own, |selected|))
        invariant own == Own(msgs[..i + 1], user) + Suffix(own, |selected|)
        invariant totalTokens == SumTokens(Suffix(own, |selected|))
        invariant Fits(own, |selected|, maxTokens, maxMessages)
      {
        var msg := msgs[i];
        OwnStep(msgs, i, user, own, |selected|);
        if msg.user != user {
          i := i - 1;
          continue;
        }
        SuffixGrows(own, |selected|);
        if maxMessages > 0 && |selected| >= maxMessages {
          break;
        }
        var tokens := msg.tokenCount;
        if tokens < 0 {
          tokens := 0;
        }
        if maxTokens > 0 && totalTokens + tokens > maxTokens {
          break;
        }
        totalTokens := totalTokens + tokens;
        selected := selected + [msg];
        i := i - 1;
      }
      if i < 0 {
        NothingOwned(user);
        assert msgs[..0] == [];
      }
      StopsAtLongest(own, |selected|, maxTokens, maxMessages);
      ReverseTwice(Suffix(own, |selected|));
      selected := Chronological(selected);
    }
  }

  /** How many messages are replayed at most. */
  const HISTORY_LIMIT: nat := 50

  /** The history for an answer and its token total, which never exceeds a positive budget. There
      is none when there is no log, it is not wanted, or reading it fails. */
  method LoadHistory(log: MemoryMessageLog?, user: int, session: SessionId, maxTokens: int, wanted: bool, fails: bool)
    returns (msgs: seq<Message>, used: int)
    ensures log == null || !wanted || fails ==> msgs == [] && used == 0
    ensures log != null && wanted && !fails ==>
              LongestSuffix(Own(log.Of(session), user), msgs, maxTokens, 50) && used == SumTokens(msgs)
    ensures |msgs| <= 50 && (maxTokens > 0 ==> used <= maxTokens)
  {
    if log == null || !wanted {
      return [], 0;
    }
    if fails {
      return [], 0;
    }
    msgs := log.ListRecent(user, session, maxTokens, HISTORY_LIMIT);
    used := SumOf(msgs);
  }

  /* ---------- The database variant ---------- */

  function OfSession(table: seq<Message>, session: SessionId): seq<Message> {
    if table == [] then []
    else (if table[0].session == session then [table[0]] else []) + OfSession(table[1..], session)
  }

  /** The rows of the session and no others, and, by the next lemma, in table order. */
  lemma {:induction false} OfSessionCount(table: seq<Message>, session: SessionId, m: Message)
    ensures multiset(OfSession(table, session))[m] == if m.session == session then multiset(table)[m] else 0
  {
    if table != [] {
      OfSessionCount(table[1..], session, m);
      assert table == [table[0]] + table[1..];
    }
  }

  lemma {:induction false} OfSessionSplits(table: seq<Message>, rest: seq<Message>, session: SessionId)
    ensures OfSession(table + rest, session) == OfSession(table, session) + OfSession(rest, session)
  {
    if table == [] {
      assert table + rest == rest;
    } else {
      OfSessionSplits(table[1..], rest, session);
      assert (table + rest)[1..] == table[1..] + rest;
      Assoc(if table[0].session == session then [table[0]] else [], OfSession(table[1..], session), OfSession(rest, session));
    }
  }

  /** The order of the query, oldest first: by time, and by id where times are equal. */
  predicate Before(a: Message, b: Message) {
    a.createdAt < b.createdAt || (a.createdAt == b.createdAt && a.id <= b.id)
  }

  predicate InTimeOrder(msgs: seq<Message>) {
    forall i, j :: 0 <= i < j < |msgs| ==> Before(msgs[i], msgs[j])
  }

  function PutInOrder(m: Message, sorted: seq<Message>): (r: seq<Message>)
    ensures r != []
  {
    if sorted == [] || Before(m, sorted[0]) then [m] + sorted else [sorted[0]] + PutInOrder(m, sorted[1..])
  }

  function ByTime(msgs: seq<Message>): seq<Message> {
    if msgs == [] then [] else PutInOrder(msgs[0], ByTime(msgs[1..]))
  }

  lemma BeforeIsAnOrder()
    ensures forall a, b :: !Before(a, b) ==> Before(b, a)
    ensures forall a, b, c :: Before(a, b) && Before(b, c) ==> Before(a, c)
  {
  }

  lemma FirstInOrder(m: Message, rest: seq<Message>)
    requires InTimeOrder(rest) && (rest != [] ==> Before(m, rest[0]))
    ensures InTimeOrder([m] + rest)
  {
    hide Before;
    BeforeIsAnOrder();
  }

  lemma {:induction false} PutKeepsOrder(m: Message, sorted: seq<Message>)
    requires InTimeOrder(sorted)
    ensures InTimeOrder(PutInOrder(m, sorted))
    ensures multiset(PutInOrder(m, sorted)) == multiset{m} + multiset(sorted)
    ensures PutInOrder(m, sorted)[0] == m || (sorted != [] && PutInOrder(m, sorted)[0] == sorted[0])
  {
    hide Before, InTimeOrder;
    BeforeIsAnOrder();
    if sorted == [] || Before(m, sorted[0]) {
      FirstInOrder(m, sorted);
    } else {
      TailInOrder(sorted);
      PutKeepsOrder(m, sorted[1..]);
      FirstInOrder(sorted[0], PutInOrder(m, sorted[1..]));
      assert sorted == [sorted[0]] + sorted[1..];
    }
  }

  lemma TailInOrder(sorted: seq<Message>)
    requires sorted != [] && InTimeOrder(sorted)
    ensures InTimeOrder(sorted[1..]) && (|sorted| > 1 ==> Before(sorted[0], sorted[1]))
  {
    hide Before;
  }

  /** The query returns all the rows, in time order. */
  lemma {:induction false} ByTimeSorts(msgs: seq<Message>)
    ensures InTimeOrder(ByTime(msgs)) && multiset(ByTime(msgs)) == multiset(msgs)
  {
    if msgs != [] {
      ByTimeSorts(msgs[1..]);
      PutKeepsOrder(msgs[0], ByTime(msgs[1..]));
      assert msgs == [msgs[0]] + msgs[1..];
    }
  }

  lemma {:induction false} InOrderStays(msgs: seq<Message>)
    requires InTimeOrder(msgs)
    ensures ByTime(msgs) == msgs
  {
    if msgs != [] {
      InOrderStays(msgs[1..]);
      assert msgs == [msgs[0]] + msgs[1..];
    }
  }

  /** With ids given out in append order, the query returns the log in append order exactly when
      no message is stamped earlier than one appended before it. */
  lemma ByTimeIsAppendOrderIff(log: seq<Message>)
    requires forall i, j :: 0 <= i < j < |log| ==> log[i].id < log[j].id
    ensures ByTime(log) == log <==> forall i, j :: 0 <= i < j < |log| ==> log[i].createdAt <= log[j].createdAt
  {
    if forall i, j :: 0 <= i < j < |log| ==> log[i].createdAt <= log[j].createdAt {
      InOrderStays(log);
    } else {
      ByTimeSorts(log);
    }
  }

  lemma CursorAt(rows: seq<Message>, n: nat, k: nat)
    requires k < n <= |rows|
    ensures Reverse(rows)[..n][k] == rows[|rows| - 1 - k]
  {
  }

  /** One more row is taken exactly when the budget holds. */
  lemma FitsNextIff(rows: seq<Message>, k: nat, maxTokens: int, limit: nat)
    requires Fits(rows, k, maxTokens, limit) && k < |rows| && k < limit
    ensures Fits(rows, k + 1, maxTokens, limit) <==>
              !(maxTokens > 0 && SumTokens(Suffix(rows, k)) + Tokens(rows[|rows| - 1 - k]) > maxTokens)
  {
    hide Suffix, SumTokens, Reverse;
    SuffixGrows(rows, k);
  }

  lemma FitsNoMore(rows: seq<Message>, maxTokens: int, limit: nat)
    requires limit > 0
    ensures !Fits(rows, limit + 1, maxTokens, limit) && !Fits(rows, |rows| + 1, maxTokens, limit)
  {
  }

  lemma FitsNothing(rows: seq<Message>, maxTokens: int, limit: nat)
    ensures Fits(rows, 0, maxTokens, limit)
  {
  }

  /** Rows newest first, cut at the row limit before any budget is applied. */
  method ScanRows(rows: seq<Message>, maxTokens: int, maxMessages: int) returns (collected: seq<Message>)
    ensures LongestSuffix(rows, collected, maxTokens, RowLimit(maxMessages))
  {
    hide LongestSuffix, Reverse, SumTokens, Suffix, Fits;
    NothingSelected(rows);
    var limit := maxMessages;
    if limit <= 0 {
      limit := 200;
    }
    FitsNothing(rows, maxTokens, limit);
    FitsNoMore(rows, maxTokens, limit);
    var n := if |rows| < limit then |rows| else limit;
    var cursor := Reverse(rows)[..n];
    collected := [];
    var totalTokens, k := 0, 0;
    while k < n
      invariant 0 <= k <= n && |collected| == k && collected == Reverse(Suffix(rows, k))
      invariant totalTokens == SumTokens(Suffix(rows, k))
      invariant Fits(rows, k, maxTokens, limit)
    {
      var msg := cursor[k];
      CursorAt(rows, n, k);
      SuffixGrows(rows, k);
      FitsNextIff(rows, k, maxTokens, limit);
      var tokens := msg.tokenCount;
      if tokens < 0 {
        tokens := 0;
      }
      if maxTokens > 0 && totalTokens + tokens > maxTokens {
        break;
      }
      totalTokens := totalTokens + tokens;
      collected := collected + [msg];
      k := k + 1;
      if maxMessages > 0 && |collected| >= maxMessages {
        break;
      }
    }
    StopsAtLongest(rows, k, maxTokens, limit);
    ReverseTwice(Suffix(rows, k));
    collected := Chronological(collected);
  }

  /** The query selects the user's messages of the session in time order, whatever the order of
      the table. */
  method SqliteListRecent(table: seq<Message>, user: int, session: SessionId, maxTokens: int, maxMessages: int)
    returns (collected: seq<Message>)
    ensures LongestSuffix(ByTime(Own(OfSession(table, session), user)), collected, maxTokens, RowLimit(maxMessages))
  {
    hide LongestSuffix, ByTime, Own, OfSession;
    collected := ScanRows(ByTime(Own(OfSession(table, session), user)), maxTokens, maxMessages);
  }
}
