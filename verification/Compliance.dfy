/** The crawler's politeness: a circuit breaker and a rate limiter for each host, under a clock the
    caller supplies, and the order of the gates a request passes. */
module Compliance {
  import opened Wrappers

  const OPEN_SECONDS := 600.0
  const PENALTY_SECONDS := 1800.0
  const LIMIT_429 := 3
  const LIMIT_5XX := 5

  // ---- The circuit breaker of one host, on values -------------------------------------------

  datatype Circuit = Closed | Open | HalfOpen

  datatype Breaker = Breaker(circuit: Circuit, failures: nat, failures429: nat, openUntil: real)

  const FRESH := Breaker(Closed, 0, 0, 0.0)

  predicate Success(status: int) { status < 400 || status in {404, 410} }

  function Opened(b: Breaker, now: real): Breaker { b.(circuit := Open, openUntil := now + OPEN_SECONDS) }

  function Recorded(b: Breaker, status: int, now: real): Breaker {
    if Success(status) then b.(circuit := Closed, failures := 0, failures429 := 0)
    else if status == 429 then
      var c := b.(failures429 := b.failures429 + 1);
      if c.failures429 >= LIMIT_429 then Opened(c, now) else c
    else if status >= 500 then
      var c := b.(failures := b.failures + 1);
      if c.failures >= LIMIT_5XX then Opened(c, now) else c
    else b
  }

  function Checked(b: Breaker, now: real): (Breaker, bool) {
    if b.circuit != Open then (b, true)
    else if now >= b.openUntil then (b.(circuit := HalfOpen), true)
    else (b, false)
  }

  // ---- Its runs -----------------------------------------------------------------------------

  datatype Event = Check(now: real) | Response(status: int, now: real)

  function After(es: seq<Event>): Breaker {
    if es == [] then FRESH
    else
      match es[|es| - 1]
      case Check(now) => Checked(After(es[..|es| - 1]), now).0
      case Response(status, now) => Recorded(After(es[..|es| - 1]), status, now)
  }

  predicate Monotone(es: seq<Event>) { forall i, j :: 0 <= i < j < |es| ==> es[i].now <= es[j].now }

  // How many responses satisfy a test since the last success.
  datatype Test = Is429 | Is5xx

  predicate Passes(t: Test, status: int) { if t.Is429? then status == 429 else status >= 500 }

  function Since(es: seq<Event>, t: Test): nat {
    if es == [] then 0
    else
      var n := Since(es[..|es| - 1], t);
      match es[|es| - 1]
      case Check(_) => n
      case Response(status, _) => if Success(status) then 0 else if Passes(t, status) then n + 1 else n
  }

  /** The time of the last opening, since the last success: the last failure that reached its
      limit. */
  function OpenedAt(es: seq<Event>): Option<real> {
    if es == [] then None
    else
      match es[|es| - 1]
      case Check(_) => OpenedAt(es[..|es| - 1])
      case Response(status, now) =>
        if Success(status) then None
        else if (status == 429 && Since(es, Is429) >= LIMIT_429) || (status >= 500 && Since(es, Is5xx) >= LIMIT_5XX)
        then Some(now)
        else OpenedAt(es[..|es| - 1])
  }

  /** The breaker against its history: its counters are the failures of each kind since the last
      success, it is closed exactly when it has not opened since then, and it opens for 600 s. */
  ghost predicate Faithful(b: Breaker, es: seq<Event>) {
    && b.failures429 == Since(es, Is429) && b.failures == Since(es, Is5xx)
    && (OpenedAt(es).None? <==> b.circuit == Closed)
    && (OpenedAt(es).Some? ==> b.openUntil == OpenedAt(es).value + OPEN_SECONDS)
    && (OpenedAt(es).Some? ==> b.failures429 >= LIMIT_429 || b.failures >= LIMIT_5XX)
  }

  lemma {:induction false} BreakerIsFaithful(es: seq<Event>)
    ensures Faithful(After(es), es)
  {
    if es != [] { BreakerIsFaithful(es[..|es| - 1]); }
  }

  /** The circuit has opened only if, since the last success, there were three 429s or five server
      errors; and while less than 600 s have passed since it last opened, every check is refused,
      unless a success came in between. */
  lemma OpenCircuitRefuses(es: seq<Event>, now: real)
    requires Monotone(es) && (es != [] ==> es[|es| - 1].now <= now)
    ensures OpenedAt(es).Some? ==> Since(es, Is429) >= 3 || Since(es, Is5xx) >= 5
    ensures !Checked(After(es), now).1 <==> OpenedAt(es).Some? && now < OpenedAt(es).value + 600.0
  {
    BreakerIsFaithful(es);
    if OpenedAt(es).Some? { HalfOpenIsLate(es); }
    hide After;
  }

  // It is half-open only when its 600 s are over.
  lemma {:induction false} HalfOpenIsLate(es: seq<Event>)
    requires Monotone(es) && es != []
    ensures After(es).circuit == HalfOpen ==> After(es).openUntil <= es[|es| - 1].now
  {
    var front := es[..|es| - 1];
    if front != [] { HalfOpenIsLate(front); }
  }

  /** From half-open, one more failure of the kind that tripped the circuit opens it at once, for
      another 600 s. */
  lemma ReopensAtOnce(es: seq<Event>, status: int, now: real)
    requires OpenedAt(es).Some?
    requires (status == 429 && Since(es, Is429) >= LIMIT_429) || (status >= 500 && Since(es, Is5xx) >= LIMIT_5XX)
    ensures var b := After(es + [Response(status, now)]); b.circuit == Open && b.openUntil == now + 600.0
  {
    assert (es + [Response(status, now)])[..|es|] == es;
    BreakerIsFaithful(es);
  }

  /** Half-open does not mean one request: until a response comes in, any number of checks pass. */
  lemma {:induction false} HalfOpenLetsAllPass(es: seq<Event>, checks: seq<Event>)
    requires After(es).circuit == HalfOpen && forall e :: e in checks ==> e.Check?
    ensures After(es + checks) == After(es) && forall now :: Checked(After(es + checks), now).1
  {
    if checks == [] {
      assert es + checks == es;
    } else {
      assert (es + checks)[..|es + checks| - 1] == es + checks[..|checks| - 1];
      HalfOpenLetsAllPass(es, checks[..|checks| - 1]);
      assert checks[|checks| - 1] in checks;
    }
  }

  // ---- The rate limiter of one host, on values ----------------------------------------------

  datatype Limiter = Limiter(last: real, penalizedUntil: real)

  const UNUSED := Limiter(0.0, 0.0)

  // `int(x)`, which drops the fraction.
  function Truncated(x: real): int { if x >= 0.0 then x.Floor else -(-x).Floor }

  // Seconds between requests: doubled while the host is penalized.
  function Interval(penalizedUntil: real, now: real, intervalMs: nat): real {
    var delay := intervalMs as real / 1000.0;
    if now < penalizedUntil then delay * 2.0 else delay
  }

  /** How long to wait, in milliseconds; `jitter` is the random number of the call, from 0 to 1. */
  function DelayMs(l: Limiter, now: real, intervalMs: nat, jitter: real): int {
    var delay := Interval(l.penalizedUntil, now, intervalMs);
    var elapsed := now - l.last;
    if elapsed < delay then Truncated(Jittered(delay, elapsed, jitter) * 1000.0) else 0
  }

  // What is left of the interval, and up to a tenth of it more.
  function Jittered(delay: real, elapsed: real, jitter: real): real { delay - elapsed + delay * 0.1 * jitter }

  function Penalized(l: Limiter, retryAfter: int, now: real): Limiter {
    l.(penalizedUntil := now + if retryAfter != 0 then retryAfter as real else PENALTY_SECONDS)
  }

  /** A request goes through exactly when the interval has passed but for less than a millisecond,
      the jitter counted against it. */
  lemma ZeroDelayExactlyWhen(l: Limiter, now: real, intervalMs: nat, jitter: real)
    requires 0.0 <= jitter <= 1.0
    ensures var delay := Interval(l.penalizedUntil, now, intervalMs); var elapsed := now - l.last;
      && (DelayMs(l, now, intervalMs, jitter) == 0 <==>
            elapsed >= delay || Jittered(delay, elapsed, jitter) < 0.001)
      && (DelayMs(l, now, intervalMs, jitter) == 0 ==> elapsed > delay - 0.001)
  {
    var delay := Interval(l.penalizedUntil, now, intervalMs);
    NotNegative(delay * 0.1, jitter);
    hide Interval;
  }

  lemma NotNegative(a: real, b: real)
    requires a >= 0.0 && b >= 0.0
    ensures a * b >= 0.0
  {
  }

  // ---- Its runs -----------------------------------------------------------------------------

  /** A request for a slot, with the clock when it is judged and when, if allowed, it is recorded;
      or a 429. */
  datatype Call = Ask(now: real, recorded: real, intervalMs: nat, jitter: real) | Got429(retryAfter: int, now: real)

  predicate Allowed(l: Limiter, c: Call) { c.Ask? && DelayMs(l, c.now, c.intervalMs, c.jitter) <= 0 }

  function LimiterAfter(cs: seq<Call>): Limiter {
    if cs == [] then UNUSED
    else
      var l, c := LimiterAfter(cs[..|cs| - 1]), cs[|cs| - 1];
      match c
      case Ask(_, recorded, _, _) => if Allowed(l, c) then l.(last := recorded) else l
      case Got429(retryAfter, now) => Penalized(l, retryAfter, now)
  }

  // Until when the last 429 so far penalizes the host.
  function PenaltyEnd(cs: seq<Call>): real {
    if cs == [] then 0.0
    else if cs[|cs| - 1].Got429? then Penalized(UNUSED, cs[|cs| - 1].retryAfter, cs[|cs| - 1].now).penalizedUntil
    else PenaltyEnd(cs[..|cs| - 1])
  }

  predicate MonotoneCalls(cs: seq<Call>) {
    && (forall i :: 0 <= i < |cs| && cs[i].Ask? ==> cs[i].now <= cs[i].recorded && 0.0 <= cs[i].jitter <= 1.0)
    && (forall i, j :: 0 <= i < j < |cs| && cs[i].Ask? && cs[j].Ask? ==> cs[i].recorded <= cs[j].now)
  }

  predicate AllowedAt(cs: seq<Call>, i: nat)
    requires i < |cs|
  {
    Allowed(LimiterAfter(cs[..i]), cs[i])
  }

  lemma {:induction false} LimiterRemembers(cs: seq<Call>, i: nat, n: nat)
    requires MonotoneCalls(cs) && i < n <= |cs| && AllowedAt(cs, i)
    ensures LimiterAfter(cs[..n]).last >= cs[i].recorded
  {
    assert cs[..n][..n - 1] == cs[..n - 1];
    if i < n - 1 {
      LimiterRemembers(cs, i, n - 1);
      assert cs[n - 1].Ask? ==> cs[i].recorded <= cs[n - 1].now <= cs[n - 1].recorded;
    }
    hide Allowed;
  }

  lemma {:induction false} PenaltyIsRemembered(cs: seq<Call>)
    ensures LimiterAfter(cs).penalizedUntil == PenaltyEnd(cs)
  {
    if cs != [] { PenaltyIsRemembered(cs[..|cs| - 1]); }
    hide Allowed;
  }

  /** Over every run, two requests let through are further apart than the interval less one
      millisecond, the interval that is asked for at the second, doubled inside the penalty of the
      last 429. */
  lemma AllowsAreSpaced(cs: seq<Call>, i: nat, j: nat)
    requires MonotoneCalls(cs) && i < j < |cs| && AllowedAt(cs, i) && AllowedAt(cs, j)
    ensures cs[j].now - cs[i].recorded > Interval(PenaltyEnd(cs[..j]), cs[j].now, cs[j].intervalMs) - 0.001
  {
    LimiterRemembers(cs, i, j);
    PenaltyIsRemembered(cs[..j]);
    var l := LimiterAfter(cs[..j]);
    hide LimiterAfter;
    DelayNotNegative(l, cs[j].now, cs[j].intervalMs, cs[j].jitter);
    ZeroDelayExactlyWhen(l, cs[j].now, cs[j].intervalMs, cs[j].jitter);
    hide DelayMs;
    hide Interval;
  }

  lemma DelayNotNegative(l: Limiter, now: real, intervalMs: nat, jitter: real)
    requires 0.0 <= jitter <= 1.0
    ensures DelayMs(l, now, intervalMs, jitter) >= 0
  {
    NotNegative(Interval(l.penalizedUntil, now, intervalMs) * 0.1, jitter);
    hide Interval;
  }

  // ---- The objects --------------------------------------------------------------------------

  class CircuitBreaker {
    var states: map<string, Circuit>
    var failures: map<string, nat>
    var failures429: map<string, nat>
    var openUntil: map<string, real>

    constructor ()
      ensures forall host :: View(host) == FRESH
    {
      states, failures, failures429, openUntil := map[], map[], map[], map[];
    }

    function View(host: string): Breaker
      reads this
    {
      Breaker(if host in states then states[host] else Closed, if host in failures then failures[host] else 0,
              if host in failures429 then failures429[host] else 0, if host in openUntil then openUntil[host] else 0.0)
    }

    method Check(host: string, now: real) returns (pass: bool)
      modifies this
      ensures (View(host), pass) == Checked(old(View(host)), now)
      ensures forall h :: h != host ==> View(h) == old(View(h))
    {
      var state := if host in states then states[host] else Closed;
      if state == Closed { return true; }
      if state == Open {
        if now >= (if host in openUntil then openUntil[host] else 0.0) {
          states := states[host := HalfOpen];
          return true;
        }
        return false;
      }
      return true;
    }

    method OpenCircuit(host: string, now: real)
      modifies this
      ensures View(host) == Opened(old(View(host)), now)
      ensures forall h :: h != host ==> View(h) == old(View(h))
    {
      states := states[host := Open];
      openUntil := openUntil[host := now + OPEN_SECONDS];
    }

    method RecordResponse(host: string, status: int, now: real)
      modifies this
      ensures View(host) == Recorded(old(View(host)), status, now)
      ensures forall h :: h != host ==> View(h) == old(View(h))
    {
      if status < 400 || status in {404, 410} {
        failures := failures[host := 0];
        failures429 := failures429[host := 0];
        states := states[host := Closed];
      } else if status == 429 {
        failures429 := failures429[host := (if host in failures429 then failures429[host] else 0) + 1];
        if failures429[host] >= LIMIT_429 { OpenCircuit(host, now); }
      } else if status >= 500 {
        failures := failures[host := (if host in failures then failures[host] else 0) + 1];
        if failures[host] >= LIMIT_5XX { OpenCircuit(host, now); }
      }
    }
  }

  class RateLimiter {
    var lastRequestTime: map<string, real>
    var penalizedUntil: map<string, real>

    constructor ()
      ensures forall host :: View(host) == UNUSED
    {
      lastRequestTime, penalizedUntil := map[], map[];
    }

    function View(host: string): Limiter
      reads this
    {
      Limiter(if host in lastRequestTime then lastRequestTime[host] else 0.0,
              if host in penalizedUntil then penalizedUntil[host] else 0.0)
    }

    method GetDelayMs(host: string, intervalMs: nat, now: real, jitter: real) returns (ms: int)
      ensures ms == DelayMs(View(host), now, intervalMs, jitter)
    {
      hide Truncated;
      hide Jittered;
      var delay := intervalMs as real / 1000.0;
      if now < (if host in penalizedUntil then penalizedUntil[host] else 0.0) { delay := delay * 2.0; }
      assert delay == Interval(View(host).penalizedUntil, now, intervalMs);
      hide Interval;
      var elapsed := now - (if host in lastRequestTime then lastRequestTime[host] else 0.0);
      assert elapsed == now - View(host).last;
      if elapsed < delay {
        return Truncated(Jittered(delay, elapsed, jitter) * 1000.0);
      }
      return 0;
    }

    method RecordRequest(host: string, now: real)
      modifies this
      ensures View(host) == old(View(host)).(last := now)
      ensures forall h :: h != host ==> View(h) == old(View(h))
    {
      lastRequestTime := lastRequestTime[host := now];
    }

    method Record429(host: string, retryAfter: int, now: real)
      modifies this
      ensures View(host) == Penalized(old(View(host)), retryAfter, now)
      ensures forall h :: h != host ==> View(h) == old(View(h))
    {
      penalizedUntil := penalizedUntil[host := now + if retryAfter != 0 then retryAfter as real else PENALTY_SECONDS];
    }
  }

  datatype Decision = Allow | Deny(reason: string) | Delay(ms: int)

  class ComplianceEngine {
    const limiter: RateLimiter
    const breaker: CircuitBreaker

    constructor ()
      ensures fresh(limiter) && fresh(breaker)
      ensures forall host :: limiter.View(host) == UNUSED && breaker.View(host) == FRESH
    {
      limiter := new RateLimiter();
      breaker := new CircuitBreaker();
    }

    /** The gates in their order: access, circuit, robots, rate. `robots` is what the robots gate
        says, `now` the clock of the circuit gate and `later` that of the rate gate. A request is
        recorded exactly when it is allowed, and a refusal by an earlier gate leaves the later ones
        untouched. */
    method Authorize(host: string, isPublic: bool, hasAuthorization: bool, robots: bool, intervalMs: nat,
                     now: real, later: real, recorded: real, jitter: real)
      returns (d: Decision)
      modifies limiter, breaker
      ensures !isPublic && !hasAuthorization ==>
        d.Deny? && breaker.View(host) == old(breaker.View(host)) && limiter.View(host) == old(limiter.View(host))
      ensures isPublic || hasAuthorization ==> breaker.View(host) == Checked(old(breaker.View(host)), now).0
      ensures (isPublic || hasAuthorization) && !Checked(old(breaker.View(host)), now).1 ==>
        d == Deny("Circuit breaker open")
      ensures (isPublic || hasAuthorization) && Checked(old(breaker.View(host)), now).1 && !robots ==>
        d == Deny("Denied by robots.txt")
      ensures d == Allow <==>
        (isPublic || hasAuthorization) && Checked(old(breaker.View(host)), now).1 && robots
        && Allowed(old(limiter.View(host)), Ask(later, recorded, intervalMs, jitter))
      ensures d.Delay? ==> d.ms == DelayMs(old(limiter.View(host)), later, intervalMs, jitter) > 0
      ensures limiter.View(host) ==
        if d == Allow then old(limiter.View(host)).(last := recorded) else old(limiter.View(host))
      ensures forall h :: h != host ==> limiter.View(h) == old(limiter.View(h)) && breaker.View(h) == old(breaker.View(h))
    {
      if !isPublic && !hasAuthorization { return Deny("Restricted access class without authorization_ref"); }
      var pass := breaker.Check(host, now);
      if !pass { return Deny("Circuit breaker open"); }
      if !robots { return Deny("Denied by robots.txt"); }
      var ms := limiter.GetDelayMs(host, intervalMs, later, jitter);
      if ms > 0 { return Delay(ms); }
      limiter.RecordRequest(host, recorded);
      return Allow;
    }

    method RecordResponse(host: string, status: int, retryAfter: int, now: real)
      modifies limiter, breaker
      ensures breaker.View(host) == Recorded(old(breaker.View(host)), status, now)
      ensures limiter.View(host) ==
        if status == 429 then Penalized(old(limiter.View(host)), retryAfter, now) else old(limiter.View(host))
      ensures forall h :: h != host ==> limiter.View(h) == old(limiter.View(h)) && breaker.View(h) == old(breaker.View(h))
    {
      breaker.RecordResponse(host, status, now);
      if status == 429 { limiter.Record429(host, retryAfter, now); }
    }
  }
}
