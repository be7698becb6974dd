/** Retrying a POST request: every attempt answers into a recorder of its own, and only the
    recorder of the last attempt reaches the client. */
module Retry {
  import opened Arithmetic

  type Headers = map<string, seq<string>>

  /** What a handler does to its response writer. */
  datatype Action =
    | SetHeader(name: string, value: string)
    | AddHeader(name: string, value: string)
    | DelHeader(name: string)
    | WriteHeader(status: nat)
    | Write(bytes: string)

  datatype Response = Response(header: Headers, status: nat, body: string)

  /** What one run of the handler answers, action by action. */
  type Run = seq<Action>

  const OK: nat := 200
  const FIRST_SERVER_ERROR: nat := 500

  /* ---------- What a run means ---------- */

  function HeadersOf(run: Run): Headers {
    if run == [] then map[]
    else
      var before := HeadersOf(run[..|run| - 1]);
      match run[|run| - 1]
      case SetHeader(name, value) => before[name := [value]]
      case AddHeader(name, value) => before[name := (if name in before then before[name] else []) + [value]]
      case DelHeader(name) => before - {name}
      case _ => before
  }

  /** The first status written counts; 200 when there is none. */
  function StatusOf(run: Run): nat {
    if run == [] then OK else if run[0].WriteHeader? then run[0].status else StatusOf(run[1..])
  }

  function BodyOf(run: Run): string {
    if run == [] then "" else (if run[0].Write? then run[0].bytes else "") + BodyOf(run[1..])
  }

  function ResponseOf(run: Run): Response {
    Response(HeadersOf(run), StatusOf(run), BodyOf(run))
  }

  predicate Wrote(run: Run) {
    exists i :: 0 <= i < |run| && run[i].WriteHeader?
  }

  lemma {:induction false} StatusOfAppend(run: Run, a: Action)
    ensures StatusOf(run + [a]) == if !Wrote(run) && a.WriteHeader? then a.status else StatusOf(run)
    ensures Wrote(run + [a]) <==> Wrote(run) || a.WriteHeader?
    ensures !Wrote(run) ==> StatusOf(run) == OK
  {
    var next := run + [a];
    if run != [] {
      assert next[1..] == run[1..] + [a];
      StatusOfAppend(run[1..], a);
      WroteFront(run);
      WroteFront(next);
    } else {
      assert next[0] == a && next[1..] == [];
    }
  }

  lemma WroteFront(run: Run)
    requires run != []
    ensures Wrote(run) <==> run[0].WriteHeader? || Wrote(run[1..])
  {
    if i :| 0 <= i < |run| && run[i].WriteHeader? && i > 0 {
      assert run[1..][i - 1].WriteHeader?;
    }
    if i :| 0 <= i < |run| - 1 && run[1..][i].WriteHeader? {
      assert run[i + 1].WriteHeader?;
    }
  }

  lemma {:induction false} BodyOfAppend(run: Run, a: Action)
    ensures BodyOf(run + [a]) == BodyOf(run) + if a.Write? then a.bytes else ""
  {
    var next := run + [a];
    if run != [] {
      assert next[1..] == run[1..] + [a];
      BodyOfAppend(run[1..], a);
    } else {
      assert next[0] == a && next[1..] == [];
    }
  }

  /* ---------- What the client is told ---------- */

  predicate Resets(a: Action, name: string) {
    (a.SetHeader? || a.DelHeader?) && a.name == name
  }

  /** The values added to a header, in order. */
  function Added(run: Run, name: string): seq<string> {
    if run == [] then []
    else (if run[0].AddHeader? && run[0].name == name then [run[0].value] else []) + Added(run[1..], name)
  }

  lemma {:induction false} AddedAppend(run: Run, a: Action, name: string)
    ensures Added(run + [a], name) == Added(run, name) + if a.AddHeader? && a.name == name then [a.value] else []
  {
    var next := run + [a];
    if run == [] {
      assert next[0] == a && next[1..] == [];
    } else {
      assert next[1..] == run[1..] + [a];
      AddedAppend(run[1..], a, name);
    }
  }

  /** The values of a header and whether it is there: after `since` actions, none of which sets or
      deletes it, the values it had before and then those that were added. */
  lemma {:induction false} HeaderSince(before: Run, since: Run, name: string)
    requires forall i :: 0 <= i < |since| ==> !Resets(since[i], name)
    ensures var h, was := HeadersOf(before + since), HeadersOf(before);
            && (name in h <==> name in was || Added(since, name) != [])
            && (name in h ==> h[name] == (if name in was then was[name] else []) + Added(since, name))
  {
    if since == [] {
      assert before + since == before;
    } else {
      var n := |since| - 1;
      HeaderSince(before, since[..n], name);
      AddedAppend(since[..n], since[n], name);
      assert since == since[..n] + [since[n]];
      assert (before + since)[..|before + since| - 1] == before + since[..n];
      assert !Resets(since[n], name);
    }
  }

  /** Every header of the response: the value it was last set to, unless it was deleted after that,
      and then all the values that were added since. */
  lemma HeaderIs(run: Run, i: nat, name: string)
    requires i < |run| && Resets(run[i], name)
    requires forall k :: i < k < |run| ==> !Resets(run[k], name)
    ensures var h, added := HeadersOf(run), Added(run[i + 1..], name);
            && (name in h <==> run[i].SetHeader? || added != [])
            && (name in h ==> h[name] == (if run[i].SetHeader? then [run[i].value] else []) + added)
  {
    hide HeadersOf;
    var before := run[..i + 1];
    assert run == before + run[i + 1..];
    HeaderSince(before, run[i + 1..], name);
    assert before == run[..i] + [run[i]];
    ResetHeader(run[..i], run[i], name);
  }

  lemma ResetHeader(before: Run, a: Action, name: string)
    requires Resets(a, name)
    ensures var h := HeadersOf(before + [a]);
            if a.SetHeader? then name in h && h[name] == [a.value] else name !in h
  {
    assert (before + [a])[..|before|] == before;
  }

  /** A header that is never set or deleted has just the values that were added to it. */
  lemma HeaderNeverReset(run: Run, name: string)
    requires forall k :: 0 <= k < |run| ==> !Resets(run[k], name)
    ensures var h := HeadersOf(run);
            && (name in h <==> Added(run, name) != [])
            && (name in h ==> h[name] == Added(run, name))
  {
    HeaderSince([], run, name);
    assert [] + run == run;
  }

  /** The status is the first one that was written, or 200. */
  lemma {:induction false} StatusIsFirst(run: Run, i: nat)
    requires i <= |run| && (i < |run| ==> run[i].WriteHeader?)
    requires forall k :: 0 <= k < i ==> !run[k].WriteHeader?
    ensures StatusOf(run) == if i < |run| then run[i].status else 200
  {
    if i > 0 {
      StatusIsFirst(run[1..], i - 1);
    }
  }

  /* ---------- The client's side ---------- */

  class ResponseWriter {
    var header: Headers
    var status: nat
    var body: string
    /** How often a status was sent. */
    var sent: nat

    constructor (header: Headers)
      ensures this.header == header && sent == 0 && body == ""
    {
      this.header := header;
      status := OK;
      body := "";
      sent := 0;
    }

    ghost function Contents(): Response
      reads this
    {
      Response(header, status, body)
    }
  }

  /* ---------- The recorder ---------- */

  class Recorder {
    var header: Headers
    var body: string
    var statusCode: nat
    var wroteHead: bool
    ghost var run: Run

    ghost predicate Valid()
      reads this
    {
      && header == HeadersOf(run) && body == BodyOf(run)
      && statusCode == StatusOf(run) && (wroteHead <==> Wrote(run))
    }

    constructor ()
      ensures Valid() && run == []
    {
      header, body, statusCode, wroteHead := map[], "", OK, false;
      run := [];
    }

    method Do(a: Action)
      requires Valid()
      modifies this
      ensures Valid() && run == old(run) + [a]
    {
      StatusOfAppend(run, a);
      BodyOfAppend(run, a);
      assert (run + [a])[..|run|] == run;
      run := run + [a];
      match a
      case SetHeader(name, value) =>
        header := header[name := [value]];
      case AddHeader(name, value) =>
        var values := if name in header then header[name] else [];
        header := header[name := values + [value]];
      case DelHeader(name) =>
        header := header - {name};
      case WriteHeader(status) =>
        if wroteHead {
          return;
        }
        statusCode := status;
        wroteHead := true;
      case Write(bytes) =>
        body := body + bytes;
    }

    predicate Retryable()
      reads this
    {
      statusCode >= FIRST_SERVER_ERROR
    }

    /** Replaces whatever headers the client's writer had and sends the recorded answer. */
    method Commit(dst: ResponseWriter)
      requires Valid() && dst.body == ""
      modifies this`statusCode, dst
      ensures dst.Contents() == ResponseOf(run) && dst.sent == old(dst.sent) + 1
    {
      StatusOfNone(run);
      dst.header := header;
      if !wroteHead {
        statusCode := OK;
      }
      dst.status := statusCode;
      dst.sent := dst.sent + 1;
      if |body| > 0 {
        dst.body := dst.body + body;
      }
    }
  }

  lemma StatusOfNone(run: Run)
    ensures !Wrote(run) ==> StatusOf(run) == OK
  {
    StatusOfAppend(run, Write(""));
  }

  method Serve(run: Run) returns (r: Recorder)
    ensures fresh(r) && r.Valid() && r.run == run
  {
    r := new Recorder();
    for i := 0 to |run|
      invariant r.Valid() && r.run == run[..i]
    {
      assert run[..i + 1] == run[..i] + [run[i]];
      r.Do(run[i]);
    }
    assert run[..|run|] == run;
  }

  /* ---------- The attempts ---------- */

  /** The pauses before attempts 2 .. n: the base, doubled each time. */
  function Waited(n: nat, base: nat): nat {
    if n <= 1 then 0 else Waited(n - 1, base) + base * Pow2(n - 2)
  }

  lemma {:induction false} WaitedClosed(n: nat, base: nat)
    requires n >= 1
    ensures Waited(n, base) == base * (Pow2(n - 1) - 1)
  {
    if n > 1 {
      WaitedClosed(n - 1, base);
      Doubled(base, Pow2(n - 2));
    }
  }

  lemma Doubled(base: nat, p: nat)
    ensures base * (p - 1) + base * p == base * (2 * p - 1)
  {
  }

  /** `runs[n]` is what the handler would answer to attempt `n + 1`: any runs at all, since the
      handler may fail in any way. The client gets exactly one response, that of the first attempt that does not end in a
      server error, or else of the last allowed one; no later attempt is made, and the waiting
      before it is the base times one less than a power of two. */
  method WithRetry(runs: seq<Run>, base: nat, dst: ResponseWriter) returns (attempts: nat, waited: nat)
    requires |runs| > 1 && dst.sent == 0 && dst.body == ""
    modifies dst
    ensures 1 <= attempts <= |runs|
    ensures forall n :: 0 <= n < attempts - 1 ==> StatusOf(runs[n]) >= 500
    ensures attempts < |runs| ==> StatusOf(runs[attempts - 1]) < 500
    ensures dst.Contents() == ResponseOf(runs[attempts - 1]) && dst.sent == 1
    ensures waited == base * (Pow2(attempts - 1) - 1)
  {
    attempts, waited := 1, 0;
    while true
      invariant 1 <= attempts <= |runs|
      invariant forall n :: 0 <= n < attempts - 1 ==> StatusOf(runs[n]) >= FIRST_SERVER_ERROR
      invariant dst.sent == 0 && dst.body == ""
      invariant waited == Waited(attempts - 1, base)
      decreases |runs| - attempts
    {
      if attempts > 1 {
        waited := waited + base * Pow2(attempts - 2);
      }
      var recorder := Serve(runs[attempts - 1]);
      if !recorder.Retryable() || attempts == |runs| {
        recorder.Commit(dst);
        WaitedClosed(attempts, base);
        return;
      }
      attempts := attempts + 1;
    }
  }
}
