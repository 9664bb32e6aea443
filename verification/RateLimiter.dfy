/**
 * The per-client token bucket, over exact reals.
 *
 * `Fold` serves a list of calls one after the other; with `sweeps` it evicts
 * idle buckets once the map has grown past the threshold, as the running limiter does,
 * and without it never forgets anybody.
 *
 * The product and the quotient the limiter computes sit in a `Policy`, as the
 * functions `regain` and `wait`; the reasoning uses only their laws.
 */
module RateLimiter {

  const IDLE_EVICTION_SECS: real := 300.0
  const SWEEP_THRESHOLD: nat := 10_000

  datatype Bucket = Bucket(tokens: real, lastRefill: real)

  type Clients = map<string, Bucket>

  datatype Answer = Admitted | Refused(waitSecs: int)

  datatype Call = Call(client: string, at: real)

  /** The size of a full bucket, the tokens some seconds put back, and the wait for a shortfall. */
  datatype Policy = Policy(burst: real, regain: real -> real, wait: real -> int)

  function Min(x: real, y: real): real { if x <= y then x else y }

  function Max(x: real, y: real): real { if x >= y then x else y }

  function Ceil(x: real): int { -(-x).Floor }

  function AtLeastOne(n: nat): nat { if n < 1 then 1 else n }

  /** The wait in whole seconds for a shortfall of tokens, never less than one. */
  function WaitSecs(shortfall: real, perSecond: real): int
    requires perSecond > 0.0
  {
    Max(Ceil(shortfall / perSecond) as real, 1.0).Floor
  }

  function PolicyOf(burst: real, perSecond: real): Policy
    requires perSecond > 0.0
  {
    Policy(burst, secs => secs * perSecond, shortfall => WaitSecs(shortfall, perSecond))
  }

  /** Both limits are configured as integers and raised to at least one. */
  function Configured(burst: nat, perSecond: nat): Policy {
    PolicyOf(AtLeastOne(burst) as real, AtLeastOne(perSecond) as real)
  }

  /** Tokens at time `now`; a clock that ran backwards counts as no time. */
  function Refill(p: Policy, b: Bucket, now: real): real {
    Min(b.tokens + p.regain(Max(now - b.lastRefill, 0.0)), p.burst)
  }

  function Sweep(m: Clients, now: real): Clients {
    map c | c in m && Max(now - m[c].lastRefill, 0.0) < IDLE_EVICTION_SECS :: m[c]
  }

  function Retained(sweeps: bool, m: Clients, now: real): Clients {
    if sweeps && |m| > SWEEP_THRESHOLD then Sweep(m, now) else m
  }

  /** What a client may spend at `now`. */
  function Level(p: Policy, m: Clients, c: string, now: real): real {
    if c in m then Refill(p, m[c], now) else p.burst
  }

  function Check(p: Policy, sweeps: bool, m: Clients, call: Call): (Clients, Answer)
  {
    var kept := Retained(sweeps, m, call.at);
    var tokens := Level(p, kept, call.client, call.at);
    if tokens >= 1.0 then (kept[call.client := Bucket(tokens - 1.0, call.at)], Admitted)
    else (kept[call.client := Bucket(tokens, call.at)], Refused(p.wait(1.0 - tokens)))
  }

  /** The limiter object. */
  class RateLimiter {
    var buckets: Clients
    const burst: real
    const perSecond: real

    ghost predicate Valid() reads this { perSecond >= 1.0 }

    constructor (configuredBurst: nat, configuredPerSecond: nat)
      ensures Valid() && buckets == map[]
      ensures PolicyOf(burst, perSecond) == Configured(configuredBurst, configuredPerSecond)
    {
      buckets := map[];
      burst := AtLeastOne(configuredBurst) as real;
      perSecond := AtLeastOne(configuredPerSecond) as real;
    }

    method Consume(client: string, now: real) returns (r: Answer)
      requires Valid()
      modifies this
      ensures Valid()
      ensures (buckets, r) == Check(PolicyOf(burst, perSecond), true, old(buckets), Call(client, now))
    {
      if |buckets| > SWEEP_THRESHOLD {
        buckets := Sweep(buckets, now);
      }
      ghost var kept := buckets;
      if client !in buckets {
        buckets := buckets[client := Bucket(burst, now)];
      }
      var bucket := buckets[client];
      var elapsed := Max(now - bucket.lastRefill, 0.0);
      assert client !in kept ==> elapsed * perSecond == 0.0;
      bucket := Bucket(Min(bucket.tokens + elapsed * perSecond, burst), now);
      assert bucket.tokens == Level(PolicyOf(burst, perSecond), kept, client, now);
      if bucket.tokens >= 1.0 {
        buckets := buckets[client := Bucket(bucket.tokens - 1.0, now)];
        assert buckets == kept[client := Bucket(bucket.tokens - 1.0, now)];
        return Admitted;
      }
      buckets := buckets[client := bucket];
      assert buckets == kept[client := bucket];
      r := Refused(WaitSecs(1.0 - bucket.tokens, perSecond));
    }
  }

  // --------------------------------------------------- laws of a policy --

  ghost predicate AdditiveAt(p: Policy, x: real, y: real) {
    p.regain(x + y) == p.regain(x) + p.regain(y)
  }

  /** What the reasoning uses of a policy. */
  ghost predicate Lawful(p: Policy) {
    && p.burst >= 1.0 && p.regain(0.0) == 0.0 && p.regain(1.0) >= 1.0
    && (forall x, y :: AdditiveAt(p, x, y))
    && (forall x | x >= 0.0 :: p.regain(x) >= 0.0)
    && (forall x | 0.0 < x <= 1.0 :: p.wait(x) == 1)
  }

  lemma ConfiguredIsLawful(burst: nat, perSecond: nat)
    ensures Lawful(Configured(burst, perSecond))
  {
    var p, rate := Configured(burst, perSecond), AtLeastOne(perSecond) as real;
    forall x, y
      ensures AdditiveAt(p, x, y)
    {
      Distribute(x, y, rate);
    }
    forall x | x >= 0.0
      ensures p.regain(x) >= 0.0
    {
      Product(x, rate);
    }
    forall x | 0.0 < x <= 1.0
      ensures p.wait(x) == 1
    {
      UnitQuotient(x, rate);
    }
  }

  /** The limits a configuration stands for: at least one token, refilled at no less than one a second. */
  lemma ConfiguredLimits(burst: nat, perSecond: nat, secs: real)
    ensures
      var p := Configured(burst, perSecond);
      && p.burst == (if burst == 0 then 1.0 else burst as real)
      && p.regain(secs) == secs * (if perSecond == 0 then 1.0 else perSecond as real)
  {
  }

  lemma Distribute(x: real, y: real, p: real)
    ensures (x + y) * p == x * p + y * p
  {
  }

  lemma Product(x: real, p: real)
    requires x >= 0.0 && p >= 0.0
    ensures x * p >= 0.0
  {
  }

  lemma UnitQuotient(x: real, p: real)
    requires 0.0 < x <= 1.0 && p >= 1.0
    ensures WaitSecs(x, p) == 1
  {
    var q := x / p;
    assert q * p == x;
    ProductSign(q, p);
  }

  lemma ProductSign(q: real, p: real)
    requires p >= 1.0
    ensures q > 1.0 ==> q * p > 1.0
    ensures q <= 0.0 ==> q * p <= 0.0
  {
  }

  // ---------------------------------------------------------------- runs --

  type Step = (Clients, Call) -> (Clients, Answer)

  /** The limiter as a function from one state and call to the next state and the answer. */
  function Limiter(p: Policy, sweeps: bool): Step {
    (m, call) => Check(p, sweeps, m, call)
  }

  function Fold(step: Step, m: Clients, calls: seq<Call>): (r: (Clients, seq<Answer>))
    ensures |r.1| == |calls|
    decreases |calls|
  {
    if calls == [] then (m, [])
    else
      var (m1, a) := step(m, calls[0]);
      var (m2, rest) := Fold(step, m1, calls[1..]);
      (m2, [a] + rest)
  }

  predicate Ordered(calls: seq<Call>) {
    forall i, j :: 0 <= i < j < |calls| ==> calls[i].at <= calls[j].at
  }

  /** How many of a client's calls were admitted. */
  function Admissions(calls: seq<Call>, answers: seq<Answer>, c: string): nat
    requires |calls| == |answers|
  {
    if calls == [] then 0 else Spent(calls[0], answers[0], c) + Admissions(calls[1..], answers[1..], c)
  }

  function Spent(call: Call, a: Answer, c: string): nat {
    if call.client == c && a.Admitted? then 1 else 0
  }

  // ------------------------------------------------------- sound buckets --

  /** Buckets hold between zero and `burst` tokens and were touched no later than `now`. */
  predicate Sound(p: Policy, m: Clients, now: real) {
    forall c :: c in m ==> 0.0 <= m[c].tokens <= p.burst && m[c].lastRefill <= now
  }

  lemma CheckSound(p: Policy, sweeps: bool, m: Clients, call: Call)
    requires Lawful(p) && Sound(p, m, call.at)
    ensures Sound(p, Check(p, sweeps, m, call).0, call.at)
  {
    var kept := Retained(sweeps, m, call.at);
    assert forall c :: c in kept ==> c in m && kept[c] == m[c];
  }

  lemma LawfulWait(p: Policy, sweeps: bool, m: Clients, call: Call)
    requires Lawful(p) && Sound(p, m, call.at)
    ensures
      var answer := Check(p, sweeps, m, call).1;
      answer == Admitted || answer == Refused(1)
  {
    var kept := Retained(sweeps, m, call.at);
    assert forall c :: c in kept ==> c in m && kept[c] == m[c];
  }

  // -------------------------------------------------------- window bound --

  lemma LevelBounds(p: Policy, m: Clients, c: string, t: real)
    requires Lawful(p) && Sound(p, m, t)
    ensures 0.0 <= Level(p, m, c, t) <= p.burst
  {
  }

  /** Spending takes tokens out; waiting puts back at most what the time regains. */
  lemma CheckSpends(p: Policy, m: Clients, call: Call, c: string, t: real)
    requires Lawful(p) && t <= call.at && Sound(p, m, t)
    ensures
      var (m', a) := Check(p, false, m, call);
      Spent(call, a, c) as real + Level(p, m', c, call.at) <= Level(p, m, c, t) + p.regain(call.at - t)
  {
    assert p.regain(call.at - t) >= 0.0;
    if c in m {
      assert AdditiveAt(p, t - m[c].lastRefill, call.at - t);
      assert (t - m[c].lastRefill) + (call.at - t) == call.at - m[c].lastRefill;
    }
    assert call.at - call.at == 0.0;
  }

  lemma LevelGrows(p: Policy, m: Clients, c: string, t: real, end: real)
    requires Lawful(p) && Sound(p, m, t) && t <= end
    ensures Level(p, m, c, end) <= Level(p, m, c, t) + p.regain(end - t)
  {
    if c in m {
      assert AdditiveAt(p, t - m[c].lastRefill, end - t);
      assert (t - m[c].lastRefill) + (end - t) == end - m[c].lastRefill;
    }
  }

  /** Amortized counting: admissions and the tokens left are at most the tokens at the start plus what time put back. */
  lemma {:induction false} AmortizedBound(p: Policy, m: Clients, calls: seq<Call>, c: string, t: real, end: real)
    requires Lawful(p) && Sound(p, m, t) && Ordered(calls)
    requires t <= end && forall i :: 0 <= i < |calls| ==> t <= calls[i].at <= end
    ensures
      var (m', answers) := Fold(Limiter(p, false), m, calls);
      Admissions(calls, answers, c) as real + Level(p, m', c, end) <= Level(p, m, c, t) + p.regain(end - t)
    decreases |calls|
  {
    if calls == [] {
      LevelGrows(p, m, c, t, end);
    } else {
      var s := calls[0].at;
      var (m', a) := Check(p, false, m, calls[0]);
      CheckSound(p, false, m, calls[0]);
      AmortizedBound(p, m', calls[1..], c, s, end);
      AdmissionsHead(Limiter(p, false), m, calls, c);
      AmortizedStep(p, m, calls[0], c, t, end);
    }
  }

  lemma AmortizedStep(p: Policy, m: Clients, call: Call, c: string, t: real, end: real)
    requires Lawful(p) && Sound(p, m, t) && t <= call.at <= end
    ensures
      var (m', a) := Check(p, false, m, call);
      Spent(call, a, c) as real + Level(p, m', c, call.at) + p.regain(end - call.at) <= Level(p, m, c, t) + p.regain(end - t)
  {
    CheckSpends(p, m, call, c, t);
    assert AdditiveAt(p, call.at - t, end - call.at) && (call.at - t) + (end - call.at) == end - t;
  }

  lemma AdmissionsHead(step: Step, m: Clients, calls: seq<Call>, c: string)
    requires calls != []
    ensures
      var (m', a) := step(m, calls[0]);
      && Fold(step, m, calls).0 == Fold(step, m', calls[1..]).0
      && Admissions(calls, Fold(step, m, calls).1, c)
         == Spent(calls[0], a, c) + Admissions(calls[1..], Fold(step, m', calls[1..]).1, c)
  {
    var (m', a) := step(m, calls[0]);
    var rest := Fold(step, m', calls[1..]).1;
    assert Fold(step, m, calls).1 == [a] + rest;
    assert ([a] + rest)[1..] == rest;
  }

  lemma {:induction false} FoldSplit(step: Step, m: Clients, a: seq<Call>, b: seq<Call>)
    ensures
      var (m1, xs) := Fold(step, m, a);
      var (m2, ys) := Fold(step, m1, b);
      Fold(step, m, a + b) == (m2, xs + ys)
    decreases |a|
  {
    if a == [] {
      assert a + b == b;
      var (m2, ys) := Fold(step, m, b);
      assert [] + ys == ys;
    } else {
      assert (a + b)[0] == a[0] && (a + b)[1..] == a[1..] + b;
      FoldSplit(step, step(m, a[0]).0, a[1..], b);
      var (m1, xs) := Fold(step, m, a);
      var (_, ys) := Fold(step, m1, b);
      assert xs + ys == [step(m, a[0]).1] + (xs[1..] + ys);
    }
  }

  lemma {:induction false} FoldSound(p: Policy, sweeps: bool, m: Clients, calls: seq<Call>, now: real, end: real)
    requires Lawful(p) && Ordered(calls) && Sound(p, m, now) && now <= end
    requires forall i :: 0 <= i < |calls| ==> now <= calls[i].at <= end
    ensures Sound(p, Fold(Limiter(p, sweeps), m, calls).0, end)
    decreases |calls|
  {
    if calls != [] {
      assert Sound(p, m, calls[0].at);
      CheckSound(p, sweeps, m, calls[0]);
      FoldSound(p, sweeps, Check(p, sweeps, m, calls[0]).0, calls[1..], calls[0].at, end);
    }
  }

  /** The answers to a slice of a run are those of serving the slice from where it starts. */
  lemma FoldSlice(step: Step, m: Clients, calls: seq<Call>, i: nat, j: nat)
    requires i <= j <= |calls|
    ensures Fold(step, m, calls).1[i..j] == Fold(step, Fold(step, m, calls[..i]).0, calls[i..j]).1
  {
    assert calls == calls[..i] + (calls[i..j] + calls[j..]);
    var m1 := Fold(step, m, calls[..i]).0;
    FoldSplit(step, m, calls[..i], calls[i..j] + calls[j..]);
    FoldSplit(step, m1, calls[i..j], calls[j..]);
  }

  /** Within any window of a run the limiter without sweeping keeps the bound. */
  lemma PlainWindowBound(p: Policy, calls: seq<Call>, i: nat, j: nat, c: string)
    requires Lawful(p) && Ordered(calls) && i < j <= |calls|
    ensures WithinBound(p, false, calls, i, j, c)
  {
    var m := Fold(Limiter(p, false), map[], calls[..i]).0;
    FoldSound(p, false, map[], calls[..i], calls[0].at, calls[i].at);
    var window := calls[i..j];
    assert forall k :: 0 <= k < |window| ==> window[k] == calls[i + k];
    AmortizedBound(p, m, window, c, calls[i].at, calls[j - 1].at);
    LevelBounds(p, m, c, calls[i].at);
    FoldSound(p, false, m, window, calls[i].at, calls[j - 1].at);
    LevelBounds(p, Fold(Limiter(p, false), m, window).0, c, calls[j - 1].at);
    FoldSlice(Limiter(p, false), map[], calls, i, j);
  }

  // ------------------------------------------------------------ sweeping --

  /** The sweeping map lost only buckets idle long enough to be full again. */
  ghost predicate Forgot(swept: Clients, plain: Clients, now: real) {
    && swept.Keys <= plain.Keys
    && (forall c :: c in swept ==> swept[c] == plain[c])
    && (forall c :: c in plain && c !in swept ==> plain[c].lastRefill + IDLE_EVICTION_SECS <= now)
  }

  lemma FullAgain(p: Policy, b: Bucket, now: real)
    requires Lawful(p) && p.burst <= p.regain(IDLE_EVICTION_SECS)
    requires 0.0 <= b.tokens <= p.burst && b.lastRefill + IDLE_EVICTION_SECS <= now
    ensures Refill(p, b, now) == p.burst
  {
    var rest := now - b.lastRefill - IDLE_EVICTION_SECS;
    assert AdditiveAt(p, IDLE_EVICTION_SECS, rest) && IDLE_EVICTION_SECS + rest == now - b.lastRefill;
  }

  lemma ForgotStep(p: Policy, swept: Clients, plain: Clients, call: Call)
    requires Lawful(p) && p.burst <= p.regain(IDLE_EVICTION_SECS)
    requires Sound(p, plain, call.at) && Forgot(swept, plain, call.at)
    ensures
      var (s, a) := Check(p, true, swept, call);
      var (q, b) := Check(p, false, plain, call);
      a == b && Forgot(s, q, call.at)
  {
    var kept := Retained(true, swept, call.at);
    assert Forgot(kept, plain, call.at);
    if call.client in plain && call.client !in kept {
      FullAgain(p, plain[call.client], call.at);
    }
    assert Level(p, kept, call.client, call.at) == Level(p, plain, call.client, call.at);
  }

  lemma {:induction false} ForgotRun(p: Policy, swept: Clients, plain: Clients, calls: seq<Call>, now: real)
    requires Lawful(p) && p.burst <= p.regain(IDLE_EVICTION_SECS)
    requires Ordered(calls) && (forall i :: 0 <= i < |calls| ==> now <= calls[i].at)
    requires Sound(p, plain, now) && Forgot(swept, plain, now)
    ensures Fold(Limiter(p, true), swept, calls).1 == Fold(Limiter(p, false), plain, calls).1
    decreases |calls|
  {
    if calls != [] {
      var c := calls[0];
      assert Sound(p, plain, c.at) && Forgot(swept, plain, c.at);
      ForgotStep(p, swept, plain, c);
      CheckSound(p, false, plain, c);
      ForgotRun(p, Check(p, true, swept, c).0, Check(p, false, plain, c).0, calls[1..], c.at);
    }
  }

  ghost predicate SameAnswers(p: Policy, calls: seq<Call>) {
    Fold(Limiter(p, true), map[], calls).1 == Fold(Limiter(p, false), map[], calls).1
  }

  /** Idle eviction changes no answer when an idle bucket is full again by the time it is evicted. */
  lemma SweepingIsTransparent(p: Policy, calls: seq<Call>)
    requires Lawful(p) && p.burst <= p.regain(IDLE_EVICTION_SECS) && Ordered(calls)
    ensures SameAnswers(p, calls)
  {
    if calls != [] {
      ForgotRun(p, map[], map[], calls, calls[0].at);
    }
  }

  // --------------------------------------------- when the bound is broken --

  function Repeat(client: string, at: real, n: nat): seq<Call> {
    seq(n, _ => Call(client, at))
  }

  /** The client's bucket, touched at `at`, holds so many tokens. */
  predicate HasTokens(m: Clients, c: string, at: real, tokens: real) {
    c in m && m[c] == Bucket(tokens, at)
  }

  lemma SpendStep(p: Policy, m: Clients, c: string, at: real, tokens: real)
    requires p.regain(0.0) == 0.0 && HasTokens(m, c, at, tokens) && 1.0 <= tokens <= p.burst
    ensures
      var (m', a) := Check(p, true, m, Call(c, at));
      a == Admitted && HasTokens(m', c, at, tokens - 1.0) && m'.Keys <= m.Keys
  {
    assert at - at == 0.0;
    assert c in Retained(true, m, at);
  }

  /** n calls of a client at one moment, all admitted, each taking a token and no other client's bucket added. */
  ghost predicate SpentDown(step: Step, m: Clients, c: string, at: real, left: real, n: nat) {
    var (m', answers) := Fold(step, m, Repeat(c, at, n));
    && Admissions(Repeat(c, at, n), answers, c) == n
    && HasTokens(m', c, at, left) && m'.Keys <= m.Keys + {c}
  }

  /** One call more at the front. */
  lemma SpentDownHead(step: Step, m: Clients, m': Clients, c: string, at: real, left: real, n: nat)
    requires step(m, Call(c, at)) == (m', Admitted) && m'.Keys <= m.Keys + {c} && SpentDown(step, m', c, at, left, n)
    ensures SpentDown(step, m, c, at, left, n + 1)
  {
    RepeatHead(step, m, m', c, at, n + 1);
  }

  lemma {:induction false} SpendDown(p: Policy, m: Clients, c: string, at: real, tokens: real, n: nat)
    requires p.regain(0.0) == 0.0 && HasTokens(m, c, at, tokens) && n as real <= tokens <= p.burst
    ensures SpentDown(Limiter(p, true), m, c, at, tokens - n as real, n)
    decreases n
  {
    if n > 0 {
      SpendStep(p, m, c, at, tokens);
      var m' := Check(p, true, m, Call(c, at)).0;
      SpendDown(p, m', c, at, tokens - 1.0, n - 1);
      assert tokens - 1.0 - (n - 1) as real == tokens - n as real;
      SpentDownHead(Limiter(p, true), m, m', c, at, tokens - n as real, n - 1);
    }
  }

  lemma RepeatHead(step: Step, m: Clients, m': Clients, c: string, at: real, n: nat)
    requires n > 0 && step(m, Call(c, at)) == (m', Admitted)
    ensures
      var (end, answers) := Fold(step, m', Repeat(c, at, n - 1));
      && Fold(step, m, Repeat(c, at, n)) == (end, [Admitted] + answers)
      && Admissions(Repeat(c, at, n), [Admitted] + answers, c) == 1 + Admissions(Repeat(c, at, n - 1), answers, c)
  {
    assert Repeat(c, at, n)[1..] == Repeat(c, at, n - 1);
    var answers := Fold(step, m', Repeat(c, at, n - 1)).1;
    assert ([Admitted] + answers)[1..] == answers;
  }

  /** A client with n tokens once idle buckets are evicted has n calls admitted, however many clients there are. */
  lemma SpendAll(p: Policy, m: Clients, c: string, at: real, start: real, n: nat)
    requires p.regain(0.0) == 0.0 && start == Level(p, Retained(true, m, at), c, at) && 1 <= n && n as real <= start
    ensures SpentDown(Limiter(p, true), m, c, at, start - n as real, n)
  {
    var m' := Check(p, true, m, Call(c, at)).0;
    FirstSpend(p, m, c, at, start);
    SpendDown(p, m', c, at, start - 1.0, n - 1);
    assert start - 1.0 - (n - 1) as real == start - n as real;
    SpentDownHead(Limiter(p, true), m, m', c, at, start - n as real, n - 1);
  }

  lemma FirstSpend(p: Policy, m: Clients, c: string, at: real, start: real)
    requires start == Level(p, Retained(true, m, at), c, at) && 1.0 <= start
    ensures
      var (m', a) := Check(p, true, m, Call(c, at));
      a == Admitted && HasTokens(m', c, at, start - 1.0) && m'.Keys <= m.Keys + {c} && start <= p.burst
  {
  }

  function CrowdName(i: nat): string {
    seq(i + 1, _ => 'x')
  }

  function Crowd(n: nat, at: real): seq<Call> {
    seq(n, i requires 0 <= i < n => Call(CrowdName(i), at))
  }

  ghost predicate AllAt(m: Clients, at: real) {
    forall c :: c in m ==> m[c].lastRefill == at
  }

  ghost predicate Unseen(m: Clients, n: nat) {
    forall i: nat :: i >= n ==> CrowdName(i) !in m
  }

  /** A crowd of new clients at one moment: each gets a bucket, and nobody is forgotten. */
  lemma {:induction false} CrowdArrives(p: Policy, m: Clients, at: real, n: nat)
    requires AllAt(m, at) && Unseen(m, 0)
    ensures
      var m' := Fold(Limiter(p, true), m, Crowd(n, at)).0;
      AllAt(m', at) && Unseen(m', n) && |m'| == |m| + n
  {
    if n > 0 {
      CrowdArrives(p, m, at, n - 1);
      var m1 := Fold(Limiter(p, true), m, Crowd(n - 1, at)).0;
      var last := Call(CrowdName(n - 1), at);
      assert Crowd(n, at) == Crowd(n - 1, at) + [last];
      ServedLast(Limiter(p, true), m, Crowd(n - 1, at), last);
      OneArrives(p, m1, at, n - 1);
    }
  }

  lemma OneArrives(p: Policy, m: Clients, at: real, n: nat)
    requires AllAt(m, at) && Unseen(m, n)
    ensures
      var m' := Check(p, true, m, Call(CrowdName(n), at)).0;
      AllAt(m', at) && Unseen(m', n + 1) && |m'| == |m| + 1
  {
    var b := Newcomer(p, m, CrowdName(n), at);
    Joined(m, at, n, b);
  }

  lemma Newcomer(p: Policy, m: Clients, c: string, at: real) returns (b: Bucket)
    requires AllAt(m, at)
    ensures Check(p, true, m, Call(c, at)).0 == m[c := b] && b.lastRefill == at
  {
    assert Retained(true, m, at) == m;
    b := Check(p, true, m, Call(c, at)).0[c];
  }

  lemma Joined(m: Clients, at: real, n: nat, b: Bucket)
    requires AllAt(m, at) && Unseen(m, n) && b.lastRefill == at
    ensures
      var m' := m[CrowdName(n) := b];
      AllAt(m', at) && Unseen(m', n + 1) && |m'| == |m| + 1
  {
    var m' := m[CrowdName(n) := b];
    assert m'.Keys == m.Keys + {CrowdName(n)};
    assert |m'| == |m'.Keys| && |m| == |m.Keys|;
    forall i: nat | i >= n + 1
      ensures CrowdName(i) !in m'
    {
      assert |CrowdName(i)| != |CrowdName(n)|;
    }
  }

  lemma {:induction false} AdmissionsSplit(a: seq<Call>, b: seq<Call>, xs: seq<Answer>, ys: seq<Answer>, c: string)
    requires |a| == |xs| && |b| == |ys|
    ensures Admissions(a + b, xs + ys, c) == Admissions(a, xs, c) + Admissions(b, ys, c)
  {
    if a == [] {
      assert a + b == b && xs + ys == ys;
    } else {
      assert (a + b)[1..] == a[1..] + b && (xs + ys)[1..] == xs[1..] + ys;
      AdmissionsSplit(a[1..], b, xs[1..], ys, c);
    }
  }

  /** The run that breaks the bound: spend the burst, let a crowd in, come back when idle just long enough. */
  function Overdraft(burst: nat, perSecond: nat): seq<Call> {
    Repeat("a", 0.0, burst) + (Crowd(SWEEP_THRESHOLD + 1, 0.0) + Repeat("a", 300.0, 300 * perSecond + 1))
  }

  lemma OverdraftOrdered(burst: nat, perSecond: nat)
    requires burst >= 1
    ensures
      var calls := Overdraft(burst, perSecond);
      Ordered(calls) && calls != [] && calls[|calls| - 1].at == 300.0 && calls[0].at == 0.0
  {
    var calls := Overdraft(burst, perSecond);
    var idle := burst + SWEEP_THRESHOLD + 1;
    assert |Crowd(SWEEP_THRESHOLD + 1, 0.0)| == SWEEP_THRESHOLD + 1;
    forall i | 0 <= i < |calls|
      ensures calls[i].at == if i < idle then 0.0 else 300.0
    {
    }
  }

  /** After the burst is spent and the crowd has come, 300 seconds of quiet make the limiter forget everybody. */
  lemma OverdraftState(p: Policy, burst: nat)
    requires p.regain(0.0) == 0.0 && p.burst == burst as real && burst >= 1
    ensures
      var (m1, answers) := Fold(Limiter(p, true), map[], Repeat("a", 0.0, burst));
      var m2 := Fold(Limiter(p, true), m1, Crowd(SWEEP_THRESHOLD + 1, 0.0)).0;
      Admissions(Repeat("a", 0.0, burst), answers, "a") == burst && Retained(true, m2, 300.0) == map[]
  {
    var empty: Clients := map[];
    assert Retained(true, empty, 0.0) == empty;
    SpendAll(p, empty, "a", 0.0, p.burst, burst);
    var m1 := Fold(Limiter(p, true), empty, Repeat("a", 0.0, burst)).0;
    assert m1.Keys <= {"a"};
    forall i: nat
      ensures CrowdName(i) !in m1
    {
      assert CrowdName(i)[0] == 'x' && "a"[0] == 'a';
    }
    CrowdArrives(p, m1, 0.0, SWEEP_THRESHOLD + 1);
  }

  /** A client coming back to a limiter that forgets everybody on its call gets a whole burst. */
  lemma FreshStart(p: Policy, m: Clients, n: nat)
    requires p.regain(0.0) == 0.0 && Retained(true, m, 300.0) == map[] && 1 <= n && n as real <= p.burst
    ensures Admissions(Repeat("a", 300.0, n), Fold(Limiter(p, true), m, Repeat("a", 300.0, n)).1, "a") == n
  {
    SpendAll(p, m, "a", 300.0, p.burst, n);
  }

  lemma ThreeParts(step: Step, m: Clients, a: seq<Call>, b: seq<Call>, d: seq<Call>, c: string, x: nat, y: nat)
    requires Admissions(a, Fold(step, m, a).1, c) == x
    requires
      var m2 := Fold(step, Fold(step, m, a).0, b).0;
      Admissions(d, Fold(step, m2, d).1, c) == y
    ensures Admissions(a + (b + d), Fold(step, m, a + (b + d)).1, c) >= x + y
  {
    var (m1, xs) := Fold(step, m, a);
    var (m2, ys) := Fold(step, m1, b);
    var (_, zs) := Fold(step, m2, d);
    FoldSplit(step, m, a, b + d);
    FoldSplit(step, m1, b, d);
    AdmissionsSplit(a, b + d, xs, ys + zs, c);
    AdmissionsSplit(b, d, ys, zs, c);
  }

  /**
   * With a burst above 300 seconds of refill there is a time-ordered run in which
   * the sweeping limiter admits one client more than burst + 300 * perSecond times
   * within 300 seconds.
   */
  lemma BoundFailsAboveThreshold(p: Policy, burst: nat, perSecond: nat)
    requires p.regain(0.0) == 0.0 && p.burst == burst as real && burst > 300 * perSecond
    ensures
      var calls := Overdraft(burst, perSecond);
      && Ordered(calls) && calls != []
      && calls[0].at == 0.0 && calls[|calls| - 1].at == 300.0
      && Admissions(calls, Fold(Limiter(p, true), map[], calls).1, "a") > burst + 300 * perSecond
  {
    var n := 300 * perSecond + 1;
    var a, crowd, b := Repeat("a", 0.0, burst), Crowd(SWEEP_THRESHOLD + 1, 0.0), Repeat("a", 300.0, n);
    var step := Limiter(p, true);
    OverdraftOrdered(burst, perSecond);
    OverdraftState(p, burst);
    FreshStart(p, Fold(step, Fold(step, map[], a).0, crowd).0, n);
    ThreeParts(step, map[], a, crowd, b, "a", burst, n);
  }

  // --------------------------------------------------------- the theorems --

  /** A client's admissions in calls i to j-1 are within burst plus what that time regains. */
  ghost predicate WithinBound(p: Policy, sweeps: bool, calls: seq<Call>, i: nat, j: nat, c: string)
    requires i < j <= |calls|
  {
    Admissions(calls[i..j], Fold(Limiter(p, sweeps), map[], calls).1[i..j], c) as real
    <= p.burst + p.regain(calls[j - 1].at - calls[i].at)
  }

  /** Every client, in every window of every time-ordered run. */
  ghost predicate BoundHolds(p: Policy)
  {
    forall calls: seq<Call>, i: nat, j: nat, c ::
      Ordered(calls) && i < j <= |calls| ==> WithinBound(p, true, calls, i, j, c)
  }

  /** Forgetting idle clients changes no answer of any time-ordered run. */
  ghost predicate Transparent(p: Policy) {
    forall calls | Ordered(calls) :: SameAnswers(p, calls)
  }

  lemma TransparentIsBounded(p: Policy)
    requires Lawful(p) && Transparent(p)
    ensures BoundHolds(p)
  {
    forall calls: seq<Call>, i: nat, j: nat, c | Ordered(calls) && i < j <= |calls|
      ensures WithinBound(p, true, calls, i, j, c)
    {
      assert SameAnswers(p, calls);
      PlainWindowBound(p, calls, i, j, c);
    }
  }

  lemma LargeBurstBreaksBound(p: Policy, burst: nat, perSecond: nat)
    requires p.regain(0.0) == 0.0 && p.burst == burst as real && p.regain(300.0) == 300.0 * perSecond as real
    requires burst > 300 * perSecond
    ensures !BoundHolds(p)
  {
    BoundFailsAboveThreshold(p, burst, perSecond);
    var calls := Overdraft(burst, perSecond);
    var answers := Fold(Limiter(p, true), map[], calls).1;
    assert calls[0..|calls|] == calls && answers[0..|calls|] == answers;
    assert !WithinBound(p, true, calls, 0, |calls|, "a");
  }

  /**
   * With sweeping on, as the limiter runs, every client's admissions in every
   * window of every time-ordered run stay within burst plus refill, and sweeping
   * is invisible, exactly when the configured burst is at most 300 seconds of refill.
   */
  lemma WindowBound(burst: nat, perSecond: nat)
    ensures BoundHolds(Configured(burst, perSecond)) <==> AtLeastOne(burst) <= 300 * AtLeastOne(perSecond)
    ensures Transparent(Configured(burst, perSecond)) <==> AtLeastOne(burst) <= 300 * AtLeastOne(perSecond)
  {
    var p := Configured(burst, perSecond);
    ConfiguredIsLawful(burst, perSecond);
    assert p.regain(300.0) == 300.0 * AtLeastOne(perSecond) as real;
    LawfulWindowBound(p, AtLeastOne(burst), AtLeastOne(perSecond));
  }

  lemma LawfulWindowBound(p: Policy, burst: nat, perSecond: nat)
    requires Lawful(p) && p.burst == burst as real && p.regain(300.0) == 300.0 * perSecond as real
    ensures BoundHolds(p) <==> burst <= 300 * perSecond
    ensures Transparent(p) <==> burst <= 300 * perSecond
  {
    if burst <= 300 * perSecond {
      forall calls | Ordered(calls)
        ensures SameAnswers(p, calls)
      {
        SweepingIsTransparent(p, calls);
      }
    }
    if Transparent(p) {
      TransparentIsBounded(p);
    }
    if burst > 300 * perSecond {
      LargeBurstBreaksBound(p, burst, perSecond);
    }
  }

  // ------------------------------------------------- when a call is refused --

  /** How many of a client's calls i to j-1 were admitted. */
  ghost function AdmittedIn(p: Policy, sweeps: bool, calls: seq<Call>, i: nat, j: nat, c: string): nat
    requires i <= j <= |calls|
  {
    Admissions(calls[i..j], Fold(Limiter(p, sweeps), map[], calls).1[i..j], c)
  }

  ghost function Before(p: Policy, calls: seq<Call>, k: nat): Clients
    requires k <= |calls|
  {
    Fold(Limiter(p, false), map[], calls[..k]).0
  }

  /** One call of a run: it is served in the state the calls before it left. */
  lemma ServedAt(step: Step, calls: seq<Call>, k: nat)
    requires k < |calls|
    ensures
      var m := Fold(step, map[], calls[..k]).0;
      Fold(step, map[], calls[..k + 1]).0 == step(m, calls[k]).0 && Fold(step, map[], calls).1[k] == step(m, calls[k]).1
  {
    CutAt(calls, k);
    ServedBetween(step, map[], calls[..k], calls[k], calls[k + 1..]);
  }

  lemma CutAt(calls: seq<Call>, k: nat)
    requires k < |calls|
    ensures calls[..k] + [calls[k]] == calls[..k + 1] && calls[..k] + [calls[k]] + calls[k + 1..] == calls
  {
  }

  lemma ServedBetween(step: Step, m: Clients, past: seq<Call>, call: Call, future: seq<Call>)
    ensures
      var m' := Fold(step, m, past).0;
      && Fold(step, m, past + [call]).0 == step(m', call).0
      && Fold(step, m, past + [call] + future).1[|past|] == step(m', call).1
  {
    ServedLast(step, m, past, call);
    FoldSplit(step, m, past + [call], future);
  }

  lemma ServedLast(step: Step, m: Clients, calls: seq<Call>, call: Call)
    ensures
      var (m', answers) := Fold(step, m, calls);
      Fold(step, m, calls + [call]) == (step(m', call).0, answers + [step(m', call).1])
  {
    FoldSplit(step, m, calls, [call]);
    var m' := Fold(step, m, calls).0;
    assert [call][1..] == [] && [step(m', call).1] + [] == [step(m', call).1];
  }

  lemma AdmittedOneMore(p: Policy, sweeps: bool, calls: seq<Call>, i: nat, k: nat, c: string)
    requires i <= k < |calls|
    ensures AdmittedIn(p, sweeps, calls, i, k + 1, c)
         == AdmittedIn(p, sweeps, calls, i, k, c) + Spent(calls[k], Fold(Limiter(p, sweeps), map[], calls).1[k], c)
  {
    AdmissionsOneMore(calls, Fold(Limiter(p, sweeps), map[], calls).1, i, k, c);
  }

  lemma AdmissionsOneMore(calls: seq<Call>, answers: seq<Answer>, i: nat, k: nat, c: string)
    requires i <= k < |calls| == |answers|
    ensures Admissions(calls[i..k + 1], answers[i..k + 1], c) == Admissions(calls[i..k], answers[i..k], c) + Spent(calls[k], answers[k], c)
  {
    AdmissionsSplit(calls[i..k], [calls[k]], answers[i..k], [answers[k]], c);
    assert calls[i..k] + [calls[k]] == calls[i..k + 1] && answers[i..k] + [answers[k]] == answers[i..k + 1];
    assert [calls[k]][1..] == [] && [answers[k]][1..] == [];
  }

  /** A bucket holds a full burst at some call of its client, plus the refill and less the admissions since. */
  ghost predicate OriginAt(p: Policy, calls: seq<Call>, n: nat, c: string, b: Bucket, i: nat) {
    && i < n <= |calls| && calls[i].client == c && calls[i].at <= b.lastRefill <= calls[n - 1].at
    && b.tokens == p.burst + p.regain(b.lastRefill - calls[i].at) - AdmittedIn(p, false, calls, i, n, c) as real
  }

  lemma {:induction false} BucketOrigin(p: Policy, calls: seq<Call>, n: nat, c: string) returns (i: nat)
    requires Lawful(p) && Ordered(calls) && n <= |calls| && c in Before(p, calls, n)
    ensures OriginAt(p, calls, n, c, Before(p, calls, n)[c], i)
    decreases n, 0
  {
    var k := n - 1;
    ServedAt(Limiter(p, false), calls, k);
    CheckBucket(p, Before(p, calls, k), calls[k], c);
    if calls[k].client != c {
      i := BucketOrigin(p, calls, k, c);
      OtherCall(p, calls, k, c, Before(p, calls, k)[c], i);
    } else {
      i := LevelOrigin(p, calls, k);
      AdmittedOneMore(p, false, calls, i, k, c);
    }
  }

  /** What a call leaves in a client's bucket. */
  lemma CheckBucket(p: Policy, m: Clients, call: Call, c: string)
    ensures
      var (m', a) := Check(p, false, m, call);
      && (call.client != c ==> (c in m' <==> c in m) && (c in m ==> m'[c] == m[c]))
      && (call.client == c ==> c in m' && m'[c] == Bucket(Level(p, m, c, call.at) - Spent(call, a, c) as real, call.at))
  {
  }

  lemma OtherCall(p: Policy, calls: seq<Call>, k: nat, c: string, b: Bucket, i: nat)
    requires Ordered(calls) && k < |calls| && calls[k].client != c && OriginAt(p, calls, k, c, b, i)
    ensures OriginAt(p, calls, k + 1, c, b, i)
  {
    AdmittedOneMore(p, false, calls, i, k, c);
  }

  /** At a client's call k, the tokens are a full burst at one of its calls, plus refill and less admissions since. */
  lemma {:induction false} LevelOrigin(p: Policy, calls: seq<Call>, k: nat) returns (i: nat)
    requires Lawful(p) && Ordered(calls) && k < |calls|
    ensures i <= k && calls[i].client == calls[k].client
    ensures Level(p, Before(p, calls, k), calls[k].client, calls[k].at)
         == p.burst + p.regain(calls[k].at - calls[i].at) - AdmittedIn(p, false, calls, i, k, calls[k].client) as real
    decreases k, 1
  {
    var c, m, at := calls[k].client, Before(p, calls, k), calls[k].at;
    if Level(p, m, c, at) == p.burst {
      i := k;
      NoneAdmitted(p, calls, k, c);
    } else {
      i := BucketOrigin(p, calls, k, c);
      RefillSince(p, m[c], at, calls[i].at, AdmittedIn(p, false, calls, i, k, c));
    }
  }

  lemma NoneAdmitted(p: Policy, calls: seq<Call>, k: nat, c: string)
    requires Lawful(p) && k < |calls|
    ensures AdmittedIn(p, false, calls, k, k, c) == 0 && p.regain(calls[k].at - calls[k].at) == 0.0
  {
    assert calls[k..k] == [] && calls[k].at - calls[k].at == 0.0;
  }

  lemma RefillSince(p: Policy, b: Bucket, now: real, since: real, n: nat)
    requires Lawful(p) && since <= b.lastRefill <= now && b.tokens == p.burst + p.regain(b.lastRefill - since) - n as real
    requires Refill(p, b, now) != p.burst
    ensures Refill(p, b, now) == p.burst + p.regain(now - since) - n as real
  {
    assert AdditiveAt(p, b.lastRefill - since, now - b.lastRefill);
    assert (b.lastRefill - since) + (now - b.lastRefill) == now - since;
  }

  /** Admitting call k would take the client past the bound in the window that began with its call i. */
  ghost predicate WouldBreak(p: Policy, sweeps: bool, calls: seq<Call>, i: nat, k: nat) {
    && i <= k < |calls| && calls[i].client == calls[k].client
    && AdmittedIn(p, sweeps, calls, i, k, calls[k].client) as real + 1.0 > p.burst + p.regain(calls[k].at - calls[i].at)
  }

  /** Admissions since call i and the tokens left are within the bound. */
  lemma LevelWithin(p: Policy, calls: seq<Call>, i: nat, k: nat, c: string)
    requires Lawful(p) && Ordered(calls) && i <= k < |calls|
    ensures AdmittedIn(p, false, calls, i, k, c) as real + Level(p, Before(p, calls, k), c, calls[k].at)
         <= p.burst + p.regain(calls[k].at - calls[i].at)
  {
    var m, window := Before(p, calls, i), calls[i..k];
    FoldSound(p, false, map[], calls[..i], calls[0].at, calls[i].at);
    assert forall n :: 0 <= n < |window| ==> window[n] == calls[i + n];
    AmortizedBound(p, m, window, c, calls[i].at, calls[k].at);
    LevelBounds(p, m, c, calls[i].at);
    SliceState(Limiter(p, false), calls, i, k);
  }

  lemma SliceState(step: Step, calls: seq<Call>, i: nat, k: nat)
    requires i <= k <= |calls|
    ensures
      var m := Fold(step, map[], calls[..i]).0;
      Fold(step, m, calls[i..k]) == (Fold(step, map[], calls[..k]).0, Fold(step, map[], calls).1[i..k])
  {
    FoldSlice(step, map[], calls, i, k);
    FoldSplit(step, map[], calls[..i], calls[i..k]);
    assert calls[..i] + calls[i..k] == calls[..k];
  }

  /** Without sweeping, a call is refused exactly when admitting it would break the bound in some window. */
  lemma PlainRefusedIff(p: Policy, calls: seq<Call>, k: nat)
    requires Lawful(p) && Ordered(calls) && k < |calls|
    ensures Fold(Limiter(p, false), map[], calls).1[k].Refused? <==> exists i: nat :: WouldBreak(p, false, calls, i, k)
  {
    ServedAt(Limiter(p, false), calls, k);
    RefusedMeansDry(p, Before(p, calls, k), calls[k]);
    if Level(p, Before(p, calls, k), calls[k].client, calls[k].at) < 1.0 {
      DryWouldBreak(p, calls, k);
    }
    if i: nat :| WouldBreak(p, false, calls, i, k) {
      LevelWithin(p, calls, i, k, calls[k].client);
    }
  }

  lemma DryWouldBreak(p: Policy, calls: seq<Call>, k: nat)
    requires Lawful(p) && Ordered(calls) && k < |calls|
    requires Level(p, Before(p, calls, k), calls[k].client, calls[k].at) < 1.0
    ensures exists i: nat :: WouldBreak(p, false, calls, i, k)
  {
    var i := LevelOrigin(p, calls, k);
    assert WouldBreak(p, false, calls, i, k);
  }

  lemma RefusedMeansDry(p: Policy, m: Clients, call: Call)
    ensures Check(p, false, m, call).1.Refused? <==> Level(p, m, call.client, call.at) < 1.0
  {
  }

  /**
   * The limiter as it runs, with a burst of at most 300 seconds of refill: in
   * every time-ordered run a call is refused exactly when admitting it would
   * take its client past burst plus refill in a window that began with one of
   * the client's own calls.
   */
  lemma RefusedIff(burst: nat, perSecond: nat, calls: seq<Call>, k: nat)
    requires AtLeastOne(burst) <= 300 * AtLeastOne(perSecond) && Ordered(calls) && k < |calls|
    ensures
      var p := Configured(burst, perSecond);
      Fold(Limiter(p, true), map[], calls).1[k].Refused? <==> exists i: nat :: WouldBreak(p, true, calls, i, k)
  {
    var p := Configured(burst, perSecond);
    ConfiguredIsLawful(burst, perSecond);
    WindowBound(burst, perSecond);
    LawfulRefusedIff(p, calls, k);
  }

  lemma LawfulRefusedIff(p: Policy, calls: seq<Call>, k: nat)
    requires Lawful(p) && Transparent(p) && Ordered(calls) && k < |calls|
    ensures Fold(Limiter(p, true), map[], calls).1[k].Refused? <==> exists i: nat :: WouldBreak(p, true, calls, i, k)
  {
    assert SameAnswers(p, calls);
    PlainRefusedIff(p, calls, k);
    assert forall i: nat :: WouldBreak(p, true, calls, i, k) <==> WouldBreak(p, false, calls, i, k);
  }

  // --------------------------------------------------------------- retry --

  /** In every time-ordered run a refused client is told to wait exactly one second. */
  lemma WaitIsOneSecond(burst: nat, perSecond: nat, calls: seq<Call>, i: nat)
    requires Ordered(calls) && i < |calls|
    ensures Fold(Limiter(Configured(burst, perSecond), true), map[], calls).1[i] in {Admitted, Refused(1)}
  {
    ConfiguredIsLawful(burst, perSecond);
    LawfulRunWait(Configured(burst, perSecond), map[], calls, calls[0].at, i);
  }

  lemma {:induction false} LawfulRunWait(p: Policy, m: Clients, calls: seq<Call>, now: real, i: nat)
    requires Lawful(p) && Sound(p, m, now) && Ordered(calls) && i < |calls|
    requires forall k :: 0 <= k < |calls| ==> now <= calls[k].at
    ensures Fold(Limiter(p, true), m, calls).1[i] in {Admitted, Refused(1)}
    decreases |calls|
  {
    assert Sound(p, m, calls[0].at);
    LawfulWait(p, true, m, calls[0]);
    if i > 0 {
      CheckSound(p, true, m, calls[0]);
      LawfulRunWait(p, Check(p, true, m, calls[0]).0, calls[1..], calls[0].at, i - 1);
    }
  }

  lemma {:induction false} OthersLeaveAlone(p: Policy, m: Clients, calls: seq<Call>, c: string)
    requires forall i :: 0 <= i < |calls| ==> calls[i].client != c
    ensures
      var m' := Fold(Limiter(p, true), m, calls).0;
      c in m' ==> c in m && m'[c] == m[c]
    decreases |calls|
  {
    if calls != [] {
      OthersLeaveAlone(p, Check(p, true, m, calls[0]).0, calls[1..], c);
    }
  }

  /** A client that waits the second it was told to, whatever others do meanwhile, is admitted. */
  lemma RetrySucceeds(burst: nat, perSecond: nat, m: Clients, c: string, t: real, others: seq<Call>, later: real)
    requires Sound(Configured(burst, perSecond), m, t) && later >= t + 1.0
    requires Check(Configured(burst, perSecond), true, m, Call(c, t)).1.Refused?
    requires forall i :: 0 <= i < |others| ==> others[i].client != c
    ensures
      var p := Configured(burst, perSecond);
      var m1 := Check(p, true, m, Call(c, t)).0;
      Check(p, true, Fold(Limiter(p, true), m1, others).0, Call(c, later)).1.Admitted?
  {
    ConfiguredIsLawful(burst, perSecond);
    LawfulRetry(Configured(burst, perSecond), m, c, t, others, later);
  }

  lemma LawfulRetry(p: Policy, m: Clients, c: string, t: real, others: seq<Call>, later: real)
    requires Lawful(p) && Sound(p, m, t) && later >= t + 1.0
    requires forall i :: 0 <= i < |others| ==> others[i].client != c
    ensures
      var m1 := Check(p, true, m, Call(c, t)).0;
      Check(p, true, Fold(Limiter(p, true), m1, others).0, Call(c, later)).1.Admitted?
  {
    var m1 := Check(p, true, m, Call(c, t)).0;
    CheckSound(p, true, m, Call(c, t));
    OthersLeaveAlone(p, m1, others, c);
    FullAfterASecond(p, Fold(Limiter(p, true), m1, others).0, c, t, later);
  }

  lemma FullAfterASecond(p: Policy, m: Clients, c: string, t: real, later: real)
    requires Lawful(p) && later >= t + 1.0
    requires c in m ==> m[c].tokens >= 0.0 && m[c].lastRefill == t
    ensures Check(p, true, m, Call(c, later)).1.Admitted?
  {
    assert AdditiveAt(p, 1.0, later - t - 1.0) && 1.0 + (later - t - 1.0) == later - t;
    var kept := Retained(true, m, later);
    assert c in kept ==> c in m && kept[c] == m[c];
  }
}
