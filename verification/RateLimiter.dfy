/** Token-bucket rate limiter keyed by client IP, with idle expiry.

    Times are minutes and token amounts are reals. `Step` is the specification of one
    request; its `forget` flag says whether idle visitors are dropped, so that the
    limiter that runs (`forget == true`) can be compared with an ideal one that keeps
    every visitor for ever (`forget == false`). The class at the end is the imperative
    limiter, proved against `Step`. */
module RateLimiter {

  /** Idle time, in minutes, after which a visitor is dropped. */
  const TTL: real := 5.0

  /** The validated configuration: both fields are positive integers. */
  datatype Limits = Limits(rpm: int, burst: int) {
    predicate Valid() {
      rpm > 0 && burst > 0
    }

    function Rate(): real {
      rpm as real
    }

    function Cap(): real {
      burst as real
    }

    /** A full refill takes no longer than the idle time. */
    predicate RefillsWithinTtl() {
      burst <= 5 * rpm
    }
  }

  datatype Visitor = Visitor(tokens: real, lastSeen: real)

  type Table = map<string, Visitor>

  datatype Call = Call(ip: string, now: real)

  function Min(a: real, b: real): real {
    if a <= b then a else b
  }

  /** Tokens earned in `elapsed` minutes. */
  function Refill(cfg: Limits, elapsed: real): real {
    elapsed * cfg.Rate()
  }

  /** The visitor as seen by the decision: created full, or refilled and stamped. */
  function Touch(cfg: Limits, t: Table, ip: string, now: real): Visitor {
    if ip !in t then
      Visitor(cfg.Cap(), now)
    else
      var elapsed := now - t[ip].lastSeen;
      if elapsed > 0.0 then
        Visitor(Min(cfg.Cap(), t[ip].tokens + Refill(cfg, elapsed)), now)
      else
        Visitor(t[ip].tokens, now)
  }

  predicate Idle(v: Visitor, now: real) {
    now - v.lastSeen > TTL
  }

  function Forget(t: Table, now: real): Table {
    map ip | ip in t && !Idle(t[ip], now) :: t[ip]
  }

  function Spend(v: Visitor): Visitor {
    if v.tokens < 1.0 then v else Visitor(v.tokens - 1.0, v.lastSeen)
  }

  function Step(cfg: Limits, forget: bool, t: Table, c: Call): Table {
    var v := Touch(cfg, t, c.ip, c.now);
    var touched := t[c.ip := v];
    (if forget then Forget(touched, c.now) else touched)[c.ip := Spend(v)]
  }

  predicate Decision(cfg: Limits, t: Table, c: Call) {
    Touch(cfg, t, c.ip, c.now).tokens >= 1.0
  }

  /* ---------- Runs ---------- */

  function After(cfg: Limits, forget: bool, calls: seq<Call>): Table {
    if calls == [] then map[]
    else Step(cfg, forget, After(cfg, forget, calls[..|calls| - 1]), calls[|calls| - 1])
  }

  /** What the limiter answers to the i-th request of a run. */
  predicate Answer(cfg: Limits, forget: bool, calls: seq<Call>, i: nat)
    requires i < |calls|
  {
    Decision(cfg, After(cfg, forget, calls[..i]), calls[i])
  }

  predicate Monotone(calls: seq<Call>) {
    forall i, j :: 0 <= i < j < |calls| ==> calls[i].now <= calls[j].now
  }

  /** How many requests of `ip` made in the window [a, b] are allowed. */
  function AllowedIn(cfg: Limits, forget: bool, calls: seq<Call>, ip: string, a: real, b: real): nat {
    if calls == [] then 0
    else
      var n := |calls| - 1;
      AllowedIn(cfg, forget, calls[..n], ip, a, b) +
      (if calls[n].ip == ip && a <= calls[n].now <= b && Answer(cfg, forget, calls, n) then 1 else 0)
  }

  /** The calls of one client, in order. */
  function Only(calls: seq<Call>, ip: string): seq<Call> {
    if calls == [] then []
    else
      var n := |calls| - 1;
      Only(calls[..n], ip) + (if calls[n].ip == ip then [calls[n]] else [])
  }

  lemma StampedNow(cfg: Limits, t: Table, ip: string, now: real)
    ensures Touch(cfg, t, ip, now).lastSeen == now
  {
  }

  lemma StepFacts(cfg: Limits, forget: bool, t: Table, c: Call)
    ensures var u := Step(cfg, forget, t, c);
            && c.ip in u && u[c.ip] == Spend(Touch(cfg, t, c.ip, c.now))
            && forall ip :: ip != c.ip ==>
                 && (ip in u <==> ip in t && (forget ==> !Idle(t[ip], c.now)))
                 && (ip in u ==> u[ip] == t[ip])
  {
  }

  /* ---------- Invariants of a run ---------- */

  /** Token counts never leave [0, burst]. */
  ghost predicate InRange(cfg: Limits, t: Table) {
    forall ip :: ip in t ==> 0.0 <= t[ip].tokens <= cfg.Cap()
  }

  lemma {:induction false} TokensInRange(cfg: Limits, forget: bool, calls: seq<Call>)
    requires cfg.Valid()
    ensures InRange(cfg, After(cfg, forget, calls))
  {
    if calls != [] {
      var n := |calls| - 1;
      TokensInRange(cfg, forget, calls[..n]);
      TouchInRange(cfg, After(cfg, forget, calls[..n]), calls[n]);
    }
  }

  lemma TouchInRange(cfg: Limits, t: Table, c: Call)
    requires cfg.Valid() && InRange(cfg, t)
    ensures 0.0 <= Touch(cfg, t, c.ip, c.now).tokens <= cfg.Cap()
  {
    if c.ip in t && c.now - t[c.ip].lastSeen > 0.0 {
      Scale(cfg.Rate(), 0.0, c.now - t[c.ip].lastSeen);
    }
  }

  /** The running limiter's table is part of the keeping limiter's: the same stamps, and
      whoever is missing has been idle for longer than the TTL. */
  ghost predicate Shadows(t: Table, k: Table, now: real) {
    && (forall ip :: ip in t ==> ip in k && t[ip].lastSeen == k[ip].lastSeen)
    && (forall ip :: ip in k && ip !in t ==> Idle(k[ip], now))
    && (forall ip :: ip in k ==> k[ip].lastSeen <= now)
  }

  lemma {:induction false} RunShadows(cfg: Limits, calls: seq<Call>, now: real)
    requires Monotone(calls)
    requires calls != [] ==> calls[|calls| - 1].now <= now
    ensures Shadows(After(cfg, true, calls), After(cfg, false, calls), now)
  {
    if calls != [] {
      var n := |calls| - 1;
      RunShadows(cfg, calls[..n], calls[n].now);
    }
  }

  /** Under the refill condition the two tables agree on every visitor still held. */
  lemma {:induction false} RunAgrees(cfg: Limits, calls: seq<Call>)
    requires cfg.Valid() && cfg.RefillsWithinTtl() && Monotone(calls)
    ensures forall ip :: ip in After(cfg, true, calls) ==>
              ip in After(cfg, false, calls) && After(cfg, true, calls)[ip] == After(cfg, false, calls)[ip]
  {
    if calls != [] {
      var n := |calls| - 1;
      RunAgrees(cfg, calls[..n]);
      TouchAgrees(cfg, calls[..n], calls[n]);
    }
  }

  lemma IdleRefillsFully(cfg: Limits, elapsed: real)
    requires cfg.Valid() && cfg.RefillsWithinTtl() && elapsed > TTL
    ensures Refill(cfg, elapsed) >= cfg.Cap()
  {
    Scale(cfg.Rate(), TTL, elapsed);
    assert cfg.Rate() * 5.0 == (5 * cfg.rpm) as real;
  }

  /** A forgotten visitor comes back full, exactly as if it had been refilled. */
  lemma TouchAgrees(cfg: Limits, calls: seq<Call>, c: Call)
    requires cfg.Valid() && cfg.RefillsWithinTtl() && Monotone(calls)
    requires calls != [] ==> calls[|calls| - 1].now <= c.now
    requires forall ip :: ip in After(cfg, true, calls) ==>
               ip in After(cfg, false, calls) && After(cfg, true, calls)[ip] == After(cfg, false, calls)[ip]
    ensures Touch(cfg, After(cfg, true, calls), c.ip, c.now) == Touch(cfg, After(cfg, false, calls), c.ip, c.now)
  {
    hide Touch, Monotone;
    RunShadows(cfg, calls, c.now);
    TokensInRange(cfg, false, calls);
    TouchOfShadow(cfg, After(cfg, true, calls), After(cfg, false, calls), c);
  }

  /** A forgotten visitor is idle, and refilled it is as good as new. */
  lemma TouchOfShadow(cfg: Limits, t: Table, k: Table, c: Call)
    requires cfg.Valid() && cfg.RefillsWithinTtl() && Shadows(t, k, c.now) && InRange(cfg, k)
    requires c.ip in t ==> t[c.ip] == k[c.ip]
    ensures Touch(cfg, t, c.ip, c.now) == Touch(cfg, k, c.ip, c.now)
  {
    hide Refill;
    if c.ip in k && c.ip !in t {
      IdleRefillsFully(cfg, c.now - k[c.ip].lastSeen);
    }
  }

  /* ---------- Idle expiry is invisible exactly when a refill fits in the TTL ---------- */

  lemma CleanupInvisible(cfg: Limits, calls: seq<Call>, i: nat)
    requires cfg.Valid() && cfg.RefillsWithinTtl() && Monotone(calls) && i < |calls|
    ensures Answer(cfg, true, calls, i) == Answer(cfg, false, calls, i)
  {
    RunAgrees(cfg, calls[..i]);
    TouchAgrees(cfg, calls[..i], calls[i]);
  }

  /** `calls` followed by `n` copies of `c`. */
  function Repeat(calls: seq<Call>, c: Call, n: nat): (r: seq<Call>)
    ensures |r| == |calls| + n && r[..|calls|] == calls
    ensures forall i :: |calls| <= i < |r| ==> r[i] == c
  {
    if n == 0 then calls else Repeat(calls, c, n - 1) + [c]
  }

  lemma {:induction false} RepeatPrefix(calls: seq<Call>, c: Call, n: nat, m: nat)
    requires m <= n
    ensures Repeat(calls, c, n)[..|calls| + m] == Repeat(calls, c, m)
  {
    if m < n {
      RepeatPrefix(calls, c, n - 1, m);
      assert Repeat(calls, c, n)[..|calls| + m] == Repeat(calls, c, n - 1)[..|calls| + m];
    }
  }

  lemma SpendOne(cfg: Limits, forget: bool, t: Table, c: Call)
    requires var v := Touch(cfg, t, c.ip, c.now); v.tokens >= 1.0
    ensures var v, u := Touch(cfg, t, c.ip, c.now), Step(cfg, forget, t, c);
            && c.ip in u && u[c.ip] == Visitor(v.tokens - 1.0, c.now)
            && Touch(cfg, u, c.ip, c.now) == u[c.ip]
  {
    StepFacts(cfg, forget, t, c);
  }

  lemma RepeatStep(cfg: Limits, forget: bool, calls: seq<Call>, c: Call, n: nat)
    requires n > 0
    ensures After(cfg, forget, Repeat(calls, c, n)) == Step(cfg, forget, After(cfg, forget, Repeat(calls, c, n - 1)), c)
  {
    hide Step;
    var r := Repeat(calls, c, n);
    assert r[..|r| - 1] == Repeat(calls, c, n - 1) && r[|r| - 1] == c;
  }

  /** A burst of calls at one instant costs one token each while tokens last. */
  lemma {:induction false} Drain(cfg: Limits, forget: bool, calls: seq<Call>, c: Call, n: nat)
    requires Touch(cfg, After(cfg, forget, calls), c.ip, c.now).tokens >= n as real
    ensures var v := Touch(cfg, After(cfg, forget, calls), c.ip, c.now);
            var t := After(cfg, forget, Repeat(calls, c, n));
            && Touch(cfg, t, c.ip, c.now) == Visitor(v.tokens - n as real, c.now)
            && (n > 0 ==> c.ip in t && t[c.ip] == Visitor(v.tokens - n as real, c.now))
  {
    hide Touch, Step, After;
    if n == 0 {
      StampedNow(cfg, After(cfg, forget, calls), c.ip, c.now);
    } else {
      Drain(cfg, forget, calls, c, n - 1);
      SpendOne(cfg, forget, After(cfg, forget, Repeat(calls, c, n - 1)), c);
      RepeatStep(cfg, forget, calls, c, n);
    }
  }

  /** The distinguishing run: spend the burst, let somebody else trigger the cleanup just
      after the TTL, and spend the burst again. */
  function Probe(cfg: Limits, now: real): (r: seq<Call>)
    requires cfg.Valid() && now >= 0.0
    ensures Monotone(r)
  {
    var first := Repeat([], Call("a", 0.0), cfg.burst);
    Repeat(first + [Call("b", now)], Call("a", now), cfg.burst)
  }

  lemma Quotient(cap: real, rate: real) returns (q: real)
    requires rate > 0.0
    ensures rate * q == cap
  {
    q := cap / rate;
  }

  lemma QuotientAbove(rate: real, q: real, cap: real)
    requires rate > 0.0 && rate * q == cap && cap > rate * 5.0
    ensures q > 5.0
  {
    if q <= 5.0 {
      Scale(rate, q, 5.0);
    }
  }

  /** A point between 5 and `q`. */
  lemma Midpoint(rate: real, q: real, cap: real) returns (now: real)
    requires rate > 0.0 && rate * q == cap && q > 5.0
    ensures now > 5.0 && rate * now < cap
  {
    now := (5.0 + q) / 2.0;
    assert now < q;
    assert rate * q == rate * now + rate * (q - now);
    PositiveProduct(rate, q - now);
  }

  lemma PositiveProduct(x: real, y: real)
    requires x > 0.0 && y > 0.0
    ensures x * y > 0.0
  {
  }

  /** The instant of the second burst: after the TTL, with the refill short of the burst. */
  lemma ProbeInstant(cfg: Limits) returns (now: real)
    requires cfg.Valid() && !cfg.RefillsWithinTtl()
    ensures now > TTL && Refill(cfg, now) < cfg.Cap()
  {
    var rate, cap := cfg.Rate(), cfg.Cap();
    assert cap > rate * 5.0 by {
      assert rate * 5.0 == (5 * cfg.rpm) as real;
    }
    var q := Quotient(cap, rate);
    QuotientAbove(rate, q, cap);
    now := Midpoint(rate, q, cap);
  }

  lemma ProbeMiddle(cfg: Limits, now: real)
    requires cfg.Valid() && now > TTL
    ensures var mid := Repeat([], Call("a", 0.0), cfg.burst) + [Call("b", now)];
            && "a" !in After(cfg, true, mid)
            && "a" in After(cfg, false, mid) && After(cfg, false, mid)["a"] == Visitor(0.0, 0.0)
  {
    var a0, b := Call("a", 0.0), Call("b", now);
    var first := Repeat([], a0, cfg.burst);
    var mid := first + [b];
    assert mid[..|mid| - 1] == first;
    Drain(cfg, true, [], a0, cfg.burst);
    Drain(cfg, false, [], a0, cfg.burst);
    StepFacts(cfg, true, After(cfg, true, first), b);
    StepFacts(cfg, false, After(cfg, false, first), b);
  }

  lemma ProbeDistinguishes(cfg: Limits) returns (calls: seq<Call>, i: nat)
    requires cfg.Valid() && !cfg.RefillsWithinTtl()
    ensures Monotone(calls) && i < |calls|
    ensures Answer(cfg, true, calls, i) != Answer(cfg, false, calls, i)
  {
    var now := ProbeInstant(cfg);
    calls := Probe(cfg, now);
    ProbeMiddle(cfg, now);
    var mid, a1 := Repeat([], Call("a", 0.0), cfg.burst) + [Call("b", now)], Call("a", now);

    // Only the forgetting limiter hands out a second full burst: the other one refuses
    // as soon as the whole tokens of its refill are spent.
    var earned := Refill(cfg, now);
    Scale(cfg.Rate(), 0.0, now);
    var whole: nat := earned.Floor;
    assert whole < cfg.burst;
    i := |mid| + whole;
    RepeatPrefix(mid, a1, cfg.burst, whole);
    assert calls[..i] == Repeat(mid, a1, whole);
    assert Touch(cfg, After(cfg, true, mid), "a", now) == Visitor(cfg.Cap(), now);
    assert Touch(cfg, After(cfg, false, mid), "a", now) == Visitor(earned, now);
    Drain(cfg, true, mid, a1, whole);
    Drain(cfg, false, mid, a1, whole);
  }

  /** Forgetting idle clients is unobservable over all runs if and only if a full refill
      takes at most the idle time. */
  lemma CleanupInvisibleIff(cfg: Limits)
    requires cfg.Valid()
    ensures (forall calls, i: nat :: Monotone(calls) && i < |calls| ==>
               Answer(cfg, true, calls, i) == Answer(cfg, false, calls, i))
            <==> cfg.RefillsWithinTtl()
  {
    if cfg.RefillsWithinTtl() {
      forall calls, i: nat | Monotone(calls) && i < |calls|
        ensures Answer(cfg, true, calls, i) == Answer(cfg, false, calls, i)
      {
        CleanupInvisible(cfg, calls, i);
      }
    } else {
      var calls, i := ProbeDistinguishes(cfg);
    }
  }

  /* ---------- One client's answers depend only on its own calls ---------- */

  ghost predicate SameFor(t: Table, u: Table, ip: string) {
    (ip in t <==> ip in u) && (ip in t ==> t[ip] == u[ip])
  }

  lemma StepPerClient(cfg: Limits, t: Table, u: Table, c: Call, ip: string)
    requires SameFor(t, u, ip)
    ensures SameFor(Step(cfg, false, t, c), if c.ip == ip then Step(cfg, false, u, c) else u, ip)
  {
  }

  lemma {:induction false} KeepsPerClient(cfg: Limits, calls: seq<Call>, ip: string)
    ensures SameFor(After(cfg, false, calls), After(cfg, false, Only(calls, ip)), ip)
  {
    if calls != [] {
      var n := |calls| - 1;
      KeepsPerClient(cfg, calls[..n], ip);
      StepPerClient(cfg, After(cfg, false, calls[..n]), After(cfg, false, Only(calls[..n], ip)), calls[n], ip);
      if calls[n].ip == ip {
        var o := Only(calls, ip);
        assert o[..|o| - 1] == Only(calls[..n], ip);
      } else {
        assert Only(calls, ip) == Only(calls[..n], ip);
      }
    }
  }

  /** A run of one client never forgets that client: whenever it is looked at, it has just been
      seen. */
  lemma {:induction false} AloneNeverForgotten(cfg: Limits, calls: seq<Call>, ip: string)
    ensures After(cfg, true, Only(calls, ip)) == After(cfg, false, Only(calls, ip))
    ensures After(cfg, true, Only(calls, ip)).Keys <= {ip}
  {
    hide Touch, Spend;
    if calls != [] {
      var n := |calls| - 1;
      AloneNeverForgotten(cfg, calls[..n], ip);
      if calls[n].ip == ip {
        var o := Only(calls, ip);
        assert o[..|o| - 1] == Only(calls[..n], ip);
        StampedNow(cfg, After(cfg, true, Only(calls[..n], ip)), ip, calls[n].now);
      } else {
        assert Only(calls, ip) == Only(calls[..n], ip);
      }
    }
  }

  /** What the limiter would answer to the i-th request if its client were the only one. */
  predicate AnswerAlone(cfg: Limits, calls: seq<Call>, i: nat)
    requires i < |calls|
  {
    var own := Only(calls[..i + 1], calls[i].ip);
    own != [] && Answer(cfg, true, own, |own| - 1)
  }

  /** Alone, a client is served as by a limiter that never forgets anybody, for every
      configuration. */
  lemma AloneIsNeverForgetting(cfg: Limits, calls: seq<Call>, i: nat)
    requires i < |calls|
    ensures Only(calls[..i + 1], calls[i].ip) != []
    ensures AnswerAlone(cfg, calls, i) == Answer(cfg, false, calls, i)
  {
    var c := calls[i];
    var upTo, prior := calls[..i + 1], calls[..i];
    assert upTo[..|upTo| - 1] == prior;
    var own := Only(upTo, c.ip);
    assert own == Only(prior, c.ip) + [c];
    assert own[..|own| - 1] == Only(prior, c.ip);
    KeepsPerClient(cfg, prior, c.ip);
    AloneNeverForgotten(cfg, prior, c.ip);
  }

  /** Deleting every other client's calls from the run leaves this client's answer as it was. */
  lemma ClientsIndependent(cfg: Limits, calls: seq<Call>, i: nat)
    requires cfg.Valid() && cfg.RefillsWithinTtl() && Monotone(calls) && i < |calls|
    ensures var own := Only(calls[..i + 1], calls[i].ip);
            own != [] && Answer(cfg, true, calls, i) == Answer(cfg, true, own, |own| - 1)
  {
    CleanupInvisible(cfg, calls, i);
    AloneIsNeverForgetting(cfg, calls, i);
  }

  /** Clients are independent of each other over all runs if and only if a full refill takes at
      most the idle time. */
  lemma ClientsIndependentIff(cfg: Limits)
    requires cfg.Valid()
    ensures (forall calls, i: nat :: Monotone(calls) && i < |calls| ==>
               Answer(cfg, true, calls, i) == AnswerAlone(cfg, calls, i))
            <==> cfg.RefillsWithinTtl()
  {
    hide Answer, AnswerAlone, Monotone;
    hide Limits.RefillsWithinTtl;
    CleanupInvisibleIff(cfg);
    forall calls, i: nat | i < |calls|
      ensures AnswerAlone(cfg, calls, i) == Answer(cfg, false, calls, i)
    {
      AloneIsNeverForgetting(cfg, calls, i);
    }
  }

  /* ---------- A slow enough client is never refused ---------- */

  lemma {:induction false} StampIsACall(cfg: Limits, calls: seq<Call>, ip: string) returns (i: nat)
    requires ip in After(cfg, true, calls)
    ensures i < |calls| && calls[i] == Call(ip, After(cfg, true, calls)[ip].lastSeen)
  {
    var n := |calls| - 1;
    if calls[n].ip == ip {
      i := n;
    } else {
      i := StampIsACall(cfg, calls[..n], ip);
    }
  }

  ghost predicate Spaced(cfg: Limits, calls: seq<Call>, ip: string) {
    forall i, j :: 0 <= i < j < |calls| && calls[i].ip == ip && calls[j].ip == ip ==>
                     Refill(cfg, calls[j].now - calls[i].now) >= 1.0
  }

  lemma SpacedNeverRefused(cfg: Limits, calls: seq<Call>, i: nat)
    requires cfg.Valid() && i < |calls| && Spaced(cfg, calls, calls[i].ip)
    ensures Answer(cfg, true, calls, i)
  {
    var c := calls[i];
    var t := After(cfg, true, calls[..i]);
    if c.ip in t {
      TokensInRange(cfg, true, calls[..i]);
      var j := StampIsACall(cfg, calls[..i], c.ip);
      assert calls[j] == Call(c.ip, t[c.ip].lastSeen);
      var elapsed := c.now - t[c.ip].lastSeen;
      assert Refill(cfg, elapsed) >= 1.0;
      assert elapsed > 0.0 by {
        if elapsed <= 0.0 {
          Scale(cfg.Rate(), elapsed, 0.0);
        }
      }
    }
  }

  /* ---------- Rate bounds over arbitrary windows ---------- */

  /** The tokens a client still holds, zero once it is forgotten. */
  function Held(t: Table, ip: string): real {
    if ip in t then t[ip].tokens else 0.0
  }

  /** One more allowance of a burst for every reset. */
  function Bursts(cfg: Limits, resets: nat): real {
    cfg.Cap() * (1 + resets) as real
  }

  lemma RefillSplits(cfg: Limits, a: real, s: real, now: real)
    ensures Refill(cfg, s - a) + Refill(cfg, now - s) == Refill(cfg, now - a)
  {
  }

  /** The potential of one client, at most this after `count` allowed requests since `a`. */
  ghost predicate Bounded(cfg: Limits, t: Table, k: Table, ip: string, a: real, count: real, resets: nat) {
    if ip in k && k[ip].lastSeen >= a then
      && TTL * resets as real <= k[ip].lastSeen - a
      && count + Held(t, ip) <= Bursts(cfg, resets) + Refill(cfg, k[ip].lastSeen - a)
    else count == 0.0
  }

  lemma RefillNonNegative(cfg: Limits, elapsed: real)
    requires cfg.Valid() && elapsed >= 0.0
    ensures Refill(cfg, elapsed) >= 0.0
  {
    Scale(cfg.Rate(), 0.0, elapsed);
  }

  /** A decision never sees more than what was left plus the refill. */
  lemma TouchEarns(cfg: Limits, t: Table, c: Call)
    requires cfg.Valid() && c.ip in t && t[c.ip].lastSeen <= c.now
    ensures Touch(cfg, t, c.ip, c.now).tokens <= t[c.ip].tokens + Refill(cfg, c.now - t[c.ip].lastSeen)
  {
    RefillNonNegative(cfg, c.now - t[c.ip].lastSeen);
  }

  lemma OneMoreBurst(cfg: Limits, resets: nat)
    requires cfg.Valid()
    ensures Bursts(cfg, resets + 1) == Bursts(cfg, resets) + cfg.Cap()
    ensures Bursts(cfg, 0) == cfg.Cap() && Bursts(cfg, resets) >= 0.0
  {
    Scale(cfg.Cap(), 0.0, (1 + resets) as real);
  }

  /** A request in the window keeps the potential. */
  lemma TouchPotential(cfg: Limits, t: Table, k: Table, c: Call, a: real, count: real, resets: nat)
    returns (next: nat)
    requires cfg.Valid() && InRange(cfg, t) && Shadows(t, k, c.now) && c.now >= a
    requires Bounded(cfg, t, k, c.ip, a, count, resets)
    ensures TTL * next as real <= c.now - a
    ensures count + Touch(cfg, t, c.ip, c.now).tokens <= Bursts(cfg, next) + Refill(cfg, c.now - a)
  {
    hide Refill, Bursts;
    OneMoreBurst(cfg, resets);
    TouchInRange(cfg, t, c);
    if c.ip in k && k[c.ip].lastSeen >= a {
      var s := k[c.ip].lastSeen;
      RefillSplits(cfg, a, s, c.now);
      RefillNonNegative(cfg, c.now - s);
      if c.ip in t {
        next := resets;
        TouchEarns(cfg, t, c);
      } else {
        next := resets + 1;
      }
    } else {
      next := 0;
      RefillNonNegative(cfg, c.now - a);
    }
  }

  lemma StepPotential(cfg: Limits, t: Table, k: Table, c: Call, ip: string, a: real, count: real, resets: nat)
    returns (next: nat)
    requires cfg.Valid() && InRange(cfg, t) && Shadows(t, k, c.now)
    requires Bounded(cfg, t, k, ip, a, count, resets)
    ensures var spent := if c.ip == ip && a <= c.now && Decision(cfg, t, c) then 1.0 else 0.0;
            Bounded(cfg, Step(cfg, true, t, c), Step(cfg, false, k, c), ip, a, count + spent, next)
  {
    hide Refill, Bursts, Step;
    StepFacts(cfg, true, t, c);
    StepFacts(cfg, false, k, c);
    next := resets;
    if c.ip == ip && c.now >= a {
      next := TouchPotential(cfg, t, k, c, a, count, resets);
    }
  }

  /** The potential argument. `resets` counts the times the client was forgotten inside
      the window, each of which took more than the TTL. */
  lemma {:induction false} WindowPotential(cfg: Limits, calls: seq<Call>, ip: string, a: real, b: real)
    returns (resets: nat)
    requires cfg.Valid() && Monotone(calls)
    requires calls != [] ==> calls[|calls| - 1].now <= b
    ensures Bounded(cfg, After(cfg, true, calls), After(cfg, false, calls), ip, a,
                    AllowedIn(cfg, true, calls, ip, a, b) as real, resets)
  {
    resets := 0;
    if calls != [] {
      var n := |calls| - 1;
      var c, prior := calls[n], calls[..n];
      resets := WindowPotential(cfg, prior, ip, a, b);
      RunShadows(cfg, prior, c.now);
      TokensInRange(cfg, true, prior);
      resets := StepPotential(cfg, After(cfg, true, prior), After(cfg, false, prior), c, ip, a,
                              AllowedIn(cfg, true, prior, ip, a, b) as real, resets);
    }
  }

  /** The calls made up to the end of the window. */
  function Until(calls: seq<Call>, b: real): seq<Call> {
    if calls == [] || calls[|calls| - 1].now <= b then calls else Until(calls[..|calls| - 1], b)
  }

  lemma {:induction false} LaterCallsDoNotCount(cfg: Limits, forget: bool, calls: seq<Call>, ip: string, a: real, b: real)
    requires Monotone(calls)
    ensures AllowedIn(cfg, forget, calls, ip, a, b) == AllowedIn(cfg, forget, Until(calls, b), ip, a, b)
    ensures Monotone(Until(calls, b))
    ensures Until(calls, b) != [] ==> Until(calls, b)[|Until(calls, b)| - 1].now <= b
  {
    if calls != [] && calls[|calls| - 1].now > b {
      LaterCallsDoNotCount(cfg, forget, calls[..|calls| - 1], ip, a, b);
    }
  }

  lemma WiderWindow(cfg: Limits, a: real, b: real, s: real, resets: nat)
    requires cfg.Valid() && a <= s <= b && TTL * resets as real <= s - a
    ensures Bursts(cfg, resets) <= Bursts(cfg, ((b - a) / TTL).Floor)
    ensures 0.0 <= Refill(cfg, s - a) <= Refill(cfg, b - a)
  {
    var fits: nat := ((b - a) / TTL).Floor;
    assert resets <= fits;
    Scale(cfg.Cap(), (1 + resets) as real, (1 + fits) as real);
    assert Bursts(cfg, resets) <= Bursts(cfg, fits);
    Scale(cfg.Rate(), 0.0, s - a);
    Scale(cfg.Rate(), s - a, b - a);
  }

  /** For every configuration: one burst, one more per idle time that fits in the window,
      and the steady rate. */
  lemma WindowBound(cfg: Limits, calls: seq<Call>, ip: string, a: real, b: real)
    requires cfg.Valid() && Monotone(calls) && a <= b
    ensures AllowedIn(cfg, true, calls, ip, a, b) as real <= Bursts(cfg, ((b - a) / TTL).Floor) + Refill(cfg, b - a)
  {
    hide Refill, Bursts, Step;
    LaterCallsDoNotCount(cfg, true, calls, ip, a, b);
    var seen := Until(calls, b);
    var f := WindowPotential(cfg, seen, ip, a, b);
    var t, k := After(cfg, true, seen), After(cfg, false, seen);
    WiderWindow(cfg, a, b, a, 0);
    if ip in k && k[ip].lastSeen >= a {
      TokensInRange(cfg, true, seen);
      RunShadows(cfg, seen, b);
      WiderWindow(cfg, a, b, k[ip].lastSeen, f);
      assert Held(t, ip) >= 0.0;
    } else {
      OneMoreBurst(cfg, ((b - a) / TTL).Floor);
    }
  }

  lemma Scale(c: real, x: real, y: real)
    requires c >= 0.0 && x <= y
    ensures c * x <= c * y
  {
  }

  /** The same argument on the keeping limiter needs no allowance for resets. */
  ghost predicate KeptBounded(cfg: Limits, k: Table, ip: string, a: real, count: real) {
    if ip in k && k[ip].lastSeen >= a then
      count + k[ip].tokens <= cfg.Cap() + Refill(cfg, k[ip].lastSeen - a)
    else count == 0.0
  }

  lemma KeptStep(cfg: Limits, k: Table, c: Call, ip: string, a: real, count: real)
    requires cfg.Valid() && InRange(cfg, k) && Shadows(k, k, c.now)
    requires KeptBounded(cfg, k, ip, a, count)
    ensures var spent := if c.ip == ip && a <= c.now && Decision(cfg, k, c) then 1.0 else 0.0;
            KeptBounded(cfg, Step(cfg, false, k, c), ip, a, count + spent)
  {
    hide Refill, Step;
    StepFacts(cfg, false, k, c);
    if c.ip == ip && c.now >= a {
      TouchInRange(cfg, k, c);
      if ip in k && k[ip].lastSeen >= a {
        RefillSplits(cfg, a, k[ip].lastSeen, c.now);
        TouchEarns(cfg, k, c);
      } else {
        RefillNonNegative(cfg, c.now - a);
      }
    }
  }

  lemma {:induction false} KeptPotential(cfg: Limits, calls: seq<Call>, ip: string, a: real, b: real)
    requires cfg.Valid() && Monotone(calls)
    requires calls != [] ==> calls[|calls| - 1].now <= b
    ensures KeptBounded(cfg, After(cfg, false, calls), ip, a, AllowedIn(cfg, false, calls, ip, a, b) as real)
  {
    if calls != [] {
      var n := |calls| - 1;
      var c, prior := calls[n], calls[..n];
      KeptPotential(cfg, prior, ip, a, b);
      RunShadows(cfg, prior, c.now);
      TokensInRange(cfg, false, prior);
      KeptStep(cfg, After(cfg, false, prior), c, ip, a, AllowedIn(cfg, false, prior, ip, a, b) as real);
    }
  }

  lemma {:induction false} CountsAgree(cfg: Limits, calls: seq<Call>, ip: string, a: real, b: real)
    requires cfg.Valid() && cfg.RefillsWithinTtl() && Monotone(calls)
    ensures AllowedIn(cfg, true, calls, ip, a, b) == AllowedIn(cfg, false, calls, ip, a, b)
  {
    if calls != [] {
      var n := |calls| - 1;
      CountsAgree(cfg, calls[..n], ip, a, b);
      CleanupInvisible(cfg, calls, n);
    }
  }

  /** When a refill fits in the TTL: one burst plus the steady rate, in every window. */
  lemma TightWindowBound(cfg: Limits, calls: seq<Call>, ip: string, a: real, b: real)
    requires cfg.Valid() && cfg.RefillsWithinTtl() && Monotone(calls) && a <= b
    ensures AllowedIn(cfg, true, calls, ip, a, b) as real <= cfg.Cap() + Refill(cfg, b - a)
  {
    hide Refill, Bursts, Step;
    CountsAgree(cfg, calls, ip, a, b);
    LaterCallsDoNotCount(cfg, false, calls, ip, a, b);
    var seen := Until(calls, b);
    KeptPotential(cfg, seen, ip, a, b);
    var k := After(cfg, false, seen);
    WiderWindow(cfg, a, b, a, 0);
    if ip in k && k[ip].lastSeen >= a {
      TokensInRange(cfg, false, seen);
      RunShadows(cfg, seen, b);
      WiderWindow(cfg, a, b, k[ip].lastSeen, 0);
    }
  }

  /* ---------- No request is refused that need not be ---------- */

  /** What the rate has earned since the bucket was last seen full, at `a`, less what was allowed
      since then, is still there. */
  ghost predicate Owed(cfg: Limits, v: Visitor, a: real, count: real) {
    a <= v.lastSeen && v.tokens >= cfg.Cap() + Refill(cfg, v.lastSeen - a) - count
  }

  lemma EarnedTwice(cfg: Limits, a: real, s: real, now: real)
    ensures Refill(cfg, s - a) + Refill(cfg, now - s) == Refill(cfg, now - a)
  {
    DistributeRate(s - a, now - s, cfg.Rate());
  }

  lemma DistributeRate(x: real, y: real, rate: real)
    ensures x * rate + y * rate == (x + y) * rate
  {
  }

  lemma NoRefill(cfg: Limits)
    ensures Refill(cfg, 0.0) == 0.0
  {
  }

  /** Looking at a visitor credits all the time since it was last seen, unless the bucket is full. */
  lemma TouchCredits(cfg: Limits, t: Table, c: Call, a: real, count: real)
    requires c.ip in t && t[c.ip].lastSeen <= c.now && Owed(cfg, t[c.ip], a, count)
    ensures var v := Touch(cfg, t, c.ip, c.now);
            v.lastSeen == c.now && (v.tokens == cfg.Cap() || Owed(cfg, v, a, count))
  {
    hide Refill;
    EarnedTwice(cfg, a, t[c.ip].lastSeen, c.now);
    NoRefill(cfg);
  }

  /** `b` is any time after the run, so that it does not bind. */
  lemma {:induction false} AlwaysOwed(cfg: Limits, calls: seq<Call>, ip: string, b: real) returns (a: real)
    requires cfg.Valid() && Monotone(calls) && ip in After(cfg, true, calls)
    requires forall i :: 0 <= i < |calls| ==> calls[i].now <= b
    ensures Owed(cfg, After(cfg, true, calls)[ip], a, AllowedIn(cfg, true, calls, ip, a, b) as real)
  {
    hide Refill, Touch, Owed, Monotone, Step, Answer;
    var n := |calls| - 1;
    var c, prior := calls[n], calls[..n];
    var t := After(cfg, true, prior);
    PriorMonotone(calls);
    if c.ip != ip {
      OtherVisitor(cfg, t, c, ip);
      a := AlwaysOwed(cfg, prior, ip, b);
    } else {
      StampBefore(cfg, calls);
      var v := Touch(cfg, t, ip, c.now);
      a := c.now;
      if ip in t {
        a := AlwaysOwed(cfg, prior, ip, b);
        TouchCredits(cfg, t, c, a, AllowedIn(cfg, true, prior, ip, a, b) as real);
        if v.tokens == cfg.Cap() {
          a := c.now;
        }
      } else {
        NewIsFull(cfg, t, ip, c.now);
      }
      if v.tokens == cfg.Cap() {
        FullIsOwed(cfg, v, AllowedIn(cfg, true, prior, ip, a, b) as real);
      }
      OwnCallIsOwed(cfg, calls, b, a);
    }
  }

  lemma OtherVisitor(cfg: Limits, t: Table, c: Call, ip: string)
    requires ip != c.ip && ip in Step(cfg, true, t, c)
    ensures ip in t && Step(cfg, true, t, c)[ip] == t[ip]
  {
    hide Touch, Spend;
  }

  /** The last call takes its token and is counted. */
  lemma OwnCallIsOwed(cfg: Limits, calls: seq<Call>, b: real, a: real)
    requires calls != [] && calls[|calls| - 1].now <= b
    requires var n := |calls| - 1;
             Owed(cfg, Touch(cfg, After(cfg, true, calls[..n]), calls[n].ip, calls[n].now), a,
                  AllowedIn(cfg, true, calls[..n], calls[n].ip, a, b) as real)
    ensures calls[|calls| - 1].ip in After(cfg, true, calls)
    ensures Owed(cfg, After(cfg, true, calls)[calls[|calls| - 1].ip], a,
                 AllowedIn(cfg, true, calls, calls[|calls| - 1].ip, a, b) as real)
  {
    hide Refill, Touch, Step, Spend;
    var n := |calls| - 1;
    var t := After(cfg, true, calls[..n]);
    StepFacts(cfg, true, t, calls[n]);
    StampedNow(cfg, t, calls[n].ip, calls[n].now);
    SpendIsOwed(cfg, Touch(cfg, t, calls[n].ip, calls[n].now), a, AllowedIn(cfg, true, calls[..n], calls[n].ip, a, b) as real);
  }

  lemma PriorMonotone(calls: seq<Call>)
    requires calls != [] && Monotone(calls)
    ensures Monotone(calls[..|calls| - 1])
  {
  }

  lemma StampBefore(cfg: Limits, calls: seq<Call>)
    requires calls != [] && Monotone(calls)
    ensures var n := |calls| - 1;
            var t := After(cfg, true, calls[..n]);
            calls[n].ip in t ==> t[calls[n].ip].lastSeen <= calls[n].now
  {
    hide Touch, Step;
    var n := |calls| - 1;
    if calls[n].ip in After(cfg, true, calls[..n]) {
      var i := StampIsACall(cfg, calls[..n], calls[n].ip);
      assert calls[i] == calls[..n][i];
    }
  }

  lemma NewIsFull(cfg: Limits, t: Table, ip: string, now: real)
    requires ip !in t
    ensures Touch(cfg, t, ip, now) == Visitor(cfg.Cap(), now)
  {
  }

  lemma FullIsOwed(cfg: Limits, v: Visitor, count: real)
    requires v.tokens == cfg.Cap() && count >= 0.0
    ensures Owed(cfg, v, v.lastSeen, count)
  {
    hide Refill;
    NoRefill(cfg);
  }

  lemma SpendIsOwed(cfg: Limits, v: Visitor, a: real, count: real)
    requires Owed(cfg, v, a, count)
    ensures Owed(cfg, Spend(v), a, count + if v.tokens >= 1.0 then 1.0 else 0.0)
  {
    hide Refill;
  }

  /** The rate explains a request at `now` from `a` on: what was allowed since then has used up all
      but less than one token of a full bucket and of what was earned since. */
  predicate UsedUp(cfg: Limits, calls: seq<Call>, ip: string, a: real, now: real) {
    a <= now && AllowedIn(cfg, true, calls, ip, a, now) as real > cfg.burst as real + cfg.rpm as real * (now - a) - 1.0
  }

  lemma Earned(cfg: Limits, elapsed: real)
    ensures Refill(cfg, elapsed) == cfg.rpm as real * elapsed
  {
  }

  /** The limiter refuses only when it must: for every configuration, a refused request comes at the
      end of some window in which the client has used up a burst and the steady rate. */
  lemma RefusedOnlyWhenUsedUp(cfg: Limits, calls: seq<Call>, i: nat) returns (a: real)
    requires cfg.Valid() && Monotone(calls) && i < |calls| && !Answer(cfg, true, calls, i)
    ensures UsedUp(cfg, calls[..i], calls[i].ip, a, calls[i].now)
  {
    hide Refill, Touch, Owed, Step, Monotone;
    var c, prior := calls[i], calls[..i];
    var t := After(cfg, true, prior);
    PrefixMonotone(calls, i);
    RefusedIsKnown(cfg, t, c);
    a := AlwaysOwed(cfg, prior, c.ip, c.now);
    assert calls[..i + 1][..i] == prior;
    StampBefore(cfg, calls[..i + 1]);
    var count := AllowedIn(cfg, true, prior, c.ip, a, c.now) as real;
    TouchCredits(cfg, t, c, a, count);
    OwedLeavesLittle(cfg, Touch(cfg, t, c.ip, c.now), a, count);
  }

  lemma PrefixMonotone(calls: seq<Call>, i: nat)
    requires Monotone(calls) && i < |calls|
    ensures Monotone(calls[..i]) && Monotone(calls[..i + 1])
    ensures forall k :: 0 <= k < i ==> calls[..i][k].now <= calls[i].now
  {
  }

  lemma RefusedIsKnown(cfg: Limits, t: Table, c: Call)
    requires cfg.Valid() && Touch(cfg, t, c.ip, c.now).tokens < 1.0
    ensures c.ip in t && Touch(cfg, t, c.ip, c.now).tokens != cfg.Cap()
  {
  }

  lemma OwedLeavesLittle(cfg: Limits, v: Visitor, a: real, count: real)
    requires Owed(cfg, v, a, count) && v.tokens < 1.0
    ensures a <= v.lastSeen && count > cfg.burst as real + cfg.rpm as real * (v.lastSeen - a) - 1.0
  {
    hide Refill;
    Earned(cfg, v.lastSeen - a);
  }

  lemma AllowedLeavesRoom(cfg: Limits, calls: seq<Call>, i: nat, a: real)
    requires cfg.Valid() && cfg.RefillsWithinTtl() && Monotone(calls) && i < |calls| && Answer(cfg, true, calls, i)
    ensures !UsedUp(cfg, calls[..i], calls[i].ip, a, calls[i].now)
  {
    hide Refill, After, Decision, Monotone;
    hide Limits.Valid;
    hide Limits.RefillsWithinTtl;
    var c, upTo := calls[i], calls[..i + 1];
    assert upTo[..i] == calls[..i];
    if a <= c.now {
      PrefixMonotone(calls, i);
      TightWindowBound(cfg, upTo, c.ip, a, c.now);
      Earned(cfg, c.now - a);
    }
  }

  /** Where a refill fits in the idle time the answers are exactly those of sliding windows: a
      request is allowed if and only if no window that ends with it is used up. */
  lemma AllowedIffNoneUsedUp(cfg: Limits, calls: seq<Call>, i: nat)
    requires cfg.Valid() && cfg.RefillsWithinTtl() && Monotone(calls) && i < |calls|
    ensures Answer(cfg, true, calls, i) <==> forall a :: !UsedUp(cfg, calls[..i], calls[i].ip, a, calls[i].now)
  {
    hide UsedUp, Answer, Monotone;
    if Answer(cfg, true, calls, i) {
      forall a
        ensures !UsedUp(cfg, calls[..i], calls[i].ip, a, calls[i].now)
      {
        AllowedLeavesRoom(cfg, calls, i, a);
      }
    } else {
      var a := RefusedOnlyWhenUsedUp(cfg, calls, i);
    }
  }

  /* ---------- The limiter itself ---------- */

  class VisitorCell {
    var tokens: real
    var lastSeen: real

    constructor (tokens: real, lastSeen: real)
      ensures this.tokens == tokens && this.lastSeen == lastSeen
    {
      this.tokens, this.lastSeen := tokens, lastSeen;
    }
  }

  /** The visitor that was just seen is not forgotten. */
  lemma StaysInForget(cfg: Limits, t: Table, ip: string, now: real)
    ensures var v := Touch(cfg, t, ip, now);
            var kept := Forget(t[ip := v], now);
            ip in kept && kept[ip] == v
  {
    StampedNow(cfg, t, ip, now);
  }

  /** Finding, forgetting and taking, in this order, are one step of the run. */
  lemma CallIsStep(cfg: Limits, history: seq<Call>, t: Table, c: Call)
    requires t == After(cfg, true, history)
    ensures var v := Touch(cfg, t, c.ip, c.now);
            && Forget(t[c.ip := v], c.now)[c.ip := Spend(v)] == After(cfg, true, history + [c])
            && (v.tokens >= 1.0) == Answer(cfg, true, history + [c], |history|)
  {
    hide Touch, Spend, Forget;
    assert (history + [c])[..|history|] == history;
  }

  class IpRateLimiter {
    const cfg: Limits
    var visitors: map<string, VisitorCell>
    /** Every request served so far. */
    ghost var history: seq<Call>

    ghost predicate Distinct()
      reads this
    {
      forall p, q :: p in visitors && q in visitors && p != q ==> visitors[p] != visitors[q]
    }

    ghost function View(): Table
      reads this, visitors.Values
    {
      map ip | ip in visitors :: Visitor(visitors[ip].tokens, visitors[ip].lastSeen)
    }

    ghost predicate Valid()
      reads this, visitors.Values
    {
      cfg.Valid() && Distinct() && View() == After(cfg, true, history)
    }

    constructor (cfg: Limits)
      requires cfg.Valid()
      ensures Valid() && this.cfg == cfg && history == []
    {
      this.cfg := cfg;
      visitors := map[];
      history := [];
    }

    method Allow(ip: string, now: real) returns (ok: bool)
      requires Valid()
      modifies this, visitors.Values
      ensures Valid() && history == old(history) + [Call(ip, now)]
      ensures ok == Answer(cfg, true, history, |old(history)|)
      ensures fresh(visitors.Values - old(visitors.Values))
    {
      hide Touch, Spend, Step, After, Forget, Answer;
      CallIsStep(cfg, history, View(), Call(ip, now));
      ok := Decide(ip, now);
      history := history + [Call(ip, now)];
    }

    /** The critical section. */
    method Decide(ip: string, now: real) returns (ok: bool)
      requires cfg.Valid() && Distinct()
      modifies this`visitors, visitors.Values
      ensures Distinct()
      ensures var v := Touch(cfg, old(View()), ip, now);
              && View() == Forget(old(View())[ip := v], now)[ip := Spend(v)]
              && ok == (v.tokens >= 1.0)
      ensures fresh(visitors.Values - old(visitors.Values))
    {
      hide Touch, Spend, Forget;
      StaysInForget(cfg, View(), ip, now);
      var v := Find(ip, now);
      Cleanup(now);
      ok := Take(ip, v);
    }

    /** Pays for the request if a whole token is left. */
    method Take(ip: string, v: VisitorCell) returns (ok: bool)
      requires Distinct() && ip in visitors && visitors[ip] == v
      modifies v
      ensures ok == (old(View())[ip].tokens >= 1.0)
      ensures View() == old(View())[ip := Spend(old(View())[ip])]
    {
      if v.tokens < 1.0 {
        return false;
      }
      v.tokens := v.tokens - 1.0;
      return true;
    }

    /** Looks the visitor up, creating or refilling it. */
    method Find(ip: string, now: real) returns (v: VisitorCell)
      requires cfg.Valid() && Distinct()
      modifies this`visitors, visitors.Values
      ensures Distinct() && ip in visitors && visitors[ip] == v
      ensures View() == old(View())[ip := Touch(cfg, old(View()), ip, now)]
      ensures fresh(visitors.Values - old(visitors.Values))
    {
      hide Refill;
      if ip !in visitors {
        v := new VisitorCell(cfg.burst as real, now);
        visitors := visitors[ip := v];
      } else {
        v := visitors[ip];
        var elapsed := now - v.lastSeen;
        if elapsed > 0.0 {
          var refill := Refill(cfg, elapsed);
          v.tokens := Min(cfg.burst as real, v.tokens + refill);
        }
        v.lastSeen := now;
      }
    }

    method Cleanup(now: real)
      requires Distinct()
      modifies this`visitors
      ensures Distinct() && View() == old(Forget(View(), now))
      ensures forall ip :: ip in visitors ==> ip in old(visitors) && visitors[ip] == old(visitors[ip])
    {
      var pending := visitors.Keys;
      while pending != {}
        invariant pending <= visitors.Keys <= old(visitors.Keys)
        invariant forall ip :: ip in visitors ==> visitors[ip] == old(visitors[ip])
        invariant forall ip :: ip in old(visitors) && ip !in pending ==>
                                 (ip in visitors <==> !Idle(old(View())[ip], now))
        decreases pending
      {
        var ip :| ip in pending;
        pending := pending - {ip};
        if now - visitors[ip].lastSeen > TTL {
          visitors := visitors - {ip};
        }
      }
    }
  }
}
