/** The crawler's durable task queue with its retry matrix. */
module Frontier {
  import opened Wrappers

  // ---- Retry decisions ----------------------------------------------------------------------

  datatype Decision = Decision(retry: bool, backoff: real, maxAttempts: nat)

  const GIVE_UP := Decision(false, 0.0, 0)

  function Power2(n: nat): real { if n == 0 then 1.0 else 2.0 * Power2(n - 1) }

  // `jitter` is the random number of the call, from 0 to 1.
  function ComputeBackoff(attempt: nat, base: real, maxDelay: real, jitter: real): real {
    var delay := if base * Power2(attempt) < maxDelay then base * Power2(attempt) else maxDelay;
    delay + delay * 0.1 * jitter
  }

  predicate Contains(text: string, part: string) {
    |part| <= |text| && (text[..|part|] == part || Contains(text[1..], part))
  }

  function Upper(c: char): char { if 'a' <= c <= 'z' then (c as int - 32) as char else c }

  function UpperCase(s: string): string { seq(|s|, i requires 0 <= i < |s| => Upper(s[i])) }

  function DecideRetry(attempt: nat, status: Option<int>, kind: Option<string>, jitter: real): Decision {
    var k := if kind.Some? then kind.value else "";
    if k != "" && (Contains(k, "TIMEOUT") || Contains(k, "TARGET_CRASHED") || Contains(k, "TRANSPORT_CLOSED"))
    then Decision(true, ComputeBackoff(attempt, 2.0, 60.0, jitter), 3)
    else if k != "" && (Contains(k, "NETWORK_ERROR") || Contains(k, "Connection reset") || Contains(k, "DNS"))
    then Decision(true, ComputeBackoff(attempt, 1.0, 60.0, jitter), 5)
    else if k != "" && (Contains(k, "ELEMENT_NOT_FOUND") || Contains(UpperCase(k), "VALIDATION")) then GIVE_UP
    else if status.None? || status.value in {0, 404, 410, 401, 403} then GIVE_UP
    else if status.value in {429, 503} then Decision(true, ComputeBackoff(attempt, 5.0, 120.0, jitter), 3)
    else if status.value >= 500 then Decision(true, ComputeBackoff(attempt, 2.0, 120.0, jitter), 4)
    else GIVE_UP
  }

  const MOST_ATTEMPTS := 5
  const LONGEST_DELAY := 120.0

  lemma {:induction false} Power2Positive(n: nat)
    ensures Power2(n) >= 1.0
  {
    if n > 0 { Power2Positive(n - 1); }
  }

  /** A delay is never negative, never more than the maximum and a tenth, and grows with the
      attempts until it gets there. */
  lemma BackoffBounded(attempt: nat, base: real, maxDelay: real, jitter: real)
    requires base > 0.0 && maxDelay > 0.0 && 0.0 <= jitter <= 1.0
    ensures 0.0 < ComputeBackoff(attempt, base, maxDelay, jitter) <= 1.1 * maxDelay
    ensures ComputeBackoff(attempt, base, maxDelay, 0.0) <= ComputeBackoff(attempt, base, maxDelay, jitter)
    ensures ComputeBackoff(attempt, base, maxDelay, 0.0) <= ComputeBackoff(attempt + 1, base, maxDelay, 0.0) <= maxDelay
  {
    Power2Positive(attempt);
    Scale(base, Power2(attempt));
    assert base * Power2(attempt + 1) == 2.0 * (base * Power2(attempt));
    var delay := if base * Power2(attempt) < maxDelay then base * Power2(attempt) else maxDelay;
    Scale(0.1 * delay, 1.0 - jitter);
    Scale(0.1 * delay, jitter);
  }

  lemma Scale(a: real, b: real)
    requires a >= 0.0 && b >= 0.0
    ensures a * b >= 0.0
    ensures a > 0.0 && b >= 1.0 ==> a * b > 0.0
  {
  }

  /** Whatever the failure, the matrix allows at most five attempts and a wait of at most 132 s. */
  lemma DecisionBounded(attempt: nat, status: Option<int>, kind: Option<string>, jitter: real)
    requires 0.0 <= jitter <= 1.0
    ensures var d := DecideRetry(attempt, status, kind, jitter);
      d.maxAttempts <= MOST_ATTEMPTS && 0.0 <= d.backoff <= 1.1 * LONGEST_DELAY && (d.retry <==> d.maxAttempts > 0)
  {
    hide Contains;
    hide UpperCase;
    BackoffBounded(attempt, 2.0, 60.0, jitter);
    BackoffBounded(attempt, 1.0, 60.0, jitter);
    BackoffBounded(attempt, 5.0, 120.0, jitter);
    BackoffBounded(attempt, 2.0, 120.0, jitter);
    hide ComputeBackoff;
  }

  // ---- The task table, on values ------------------------------------------------------------

  datatype Phase = Pending | InFlight | Done | DeadLetter | Gone

  /** A row of the table; the table is a sequence in rowid order. */
  datatype Task = Task(id: string, source: string, key: string, phase: Phase, attempt: nat, priority: int)

  function Without(ts: seq<Task>, id: string): seq<Task> {
    if ts == [] then []
    else Without(ts[..|ts| - 1], id) + if ts[|ts| - 1].id == id then [] else [ts[|ts| - 1]]
  }

  // `INSERT OR REPLACE`: a row of the same id goes, and the new one comes last.
  function Saved(ts: seq<Task>, t: Task): seq<Task> { Without(ts, t.id) + [t] }

  function FirstOf(ts: seq<Task>, source: string, key: string): Option<Task> {
    if ts == [] then None
    else if ts[0].source == source && ts[0].key == key then Some(ts[0])
    else FirstOf(ts[1..], source, key)
  }

  predicate Blocks(p: Phase) { p.Pending? || p.InFlight? || p.Done? }

  function Enqueued(ts: seq<Task>, t: Task): (seq<Task>, bool) {
    var first := FirstOf(ts, t.source, t.key);
    if first.Some? && Blocks(first.value.phase) then (ts, false) else (Saved(ts, t), true)
  }

  function Moved(t: Task, id: string, p: Phase): Task { if t.id == id then t.(phase := p) else t }

  function WithPhase(ts: seq<Task>, id: string, p: Phase): (r: seq<Task>)
    ensures |r| == |ts| && forall i :: 0 <= i < |r| ==> r[i] == Moved(ts[i], id, p)
  {
    seq(|ts|, i requires 0 <= i < |ts| => Moved(ts[i], id, p))
  }

  function Retried(t: Task, id: string, attempt: nat): Task {
    if t.id == id then t.(phase := Pending, attempt := attempt) else t
  }

  function WithRetry(ts: seq<Task>, id: string, attempt: nat): (r: seq<Task>)
    ensures |r| == |ts| && forall i :: 0 <= i < |r| ==> r[i] == Retried(ts[i], id, attempt)
  {
    seq(|ts|, i requires 0 <= i < |ts| => Retried(ts[i], id, attempt))
  }

  function Find(ts: seq<Task>, id: string): Option<Task> {
    if ts == [] then None else if ts[0].id == id then Some(ts[0]) else Find(ts[1..], id)
  }

  function Failed(ts: seq<Task>, id: string, d: Decision): seq<Task> {
    var t := Find(ts, id);
    if t.None? then ts
    else if d.retry && t.value.attempt + 1 <= d.maxAttempts then WithRetry(ts, id, t.value.attempt + 1)
    else WithPhase(ts, id, DeadLetter)
  }

  function Redriven(t: Task, source: string): Task {
    if t.source == source && t.phase == DeadLetter then t.(phase := Pending, attempt := 0) else t
  }

  function WithRedriven(ts: seq<Task>, source: string): (r: seq<Task>)
    ensures |r| == |ts| && forall i :: 0 <= i < |r| ==> r[i] == Redriven(ts[i], source)
  {
    seq(|ts|, i requires 0 <= i < |ts| => Redriven(ts[i], source))
  }

  // ---- Taking tasks -------------------------------------------------------------------------

  // Pending, and of the source, where no name stands for every source.
  predicate Ready(t: Task, source: string) { t.phase == Pending && (source == "" || t.source == source) }

  // The first of the ready rows with the highest priority, or the length when none is ready.
  function Best(ts: seq<Task>, source: string): (b: nat)
    ensures b <= |ts|
  {
    if ts == [] then 0
    else
      var n, b := |ts| - 1, Best(ts[..|ts| - 1], source);
      if Ready(ts[n], source) && (b == n || ts[n].priority > ts[b].priority) then n
      else if b == n then n + 1 else b
  }

  predicate NoneBetter(ts: seq<Task>, source: string, b: nat) {
    && (b < |ts| ==> Ready(ts[b], source))
    && forall t :: t in ts && Ready(t, source) ==> b < |ts| && t.priority <= ts[b].priority
  }

  lemma {:induction false} BestIs(ts: seq<Task>, source: string)
    ensures NoneBetter(ts, source, Best(ts, source))
  {
    if ts != [] {
      BestIs(ts[..|ts| - 1], source);
      assert ts == ts[..|ts| - 1] + [ts[|ts| - 1]];
    }
  }

  /** `SELECT … ORDER BY priority DESC LIMIT n`. */
  function Query(ts: seq<Task>, source: string, n: nat): seq<Task> {
    var b := Best(ts, source);
    if n == 0 || b == |ts| then [] else [ts[b]] + Query(ts[..b] + ts[b + 1..], source, n - 1)
  }

  predicate DistinctIds(ts: seq<Task>) { forall i, j :: 0 <= i < j < |ts| ==> ts[i].id != ts[j].id }

  predicate HasId(ts: seq<Task>, id: string) { exists t :: t in ts && t.id == id }

  lemma DropOne(ts: seq<Task>, b: nat)
    requires DistinctIds(ts) && b < |ts|
    ensures DistinctIds(ts[..b] + ts[b + 1..])
    ensures forall t :: t in ts[..b] + ts[b + 1..] <==> t in ts && t.id != ts[b].id
  {
    var r := ts[..b] + ts[b + 1..];
    assert forall i :: 0 <= i < |r| ==> r[i] == ts[if i < b then i else i + 1];
    forall t | t in ts && t.id != ts[b].id ensures t in r {
      var i :| 0 <= i < |ts| && ts[i] == t;
      assert r[if i < b then i else i - 1] == t;
    }
  }

  // What is taken is ready, and each task is taken once.
  predicate TakesReady(ts: seq<Task>, source: string, q: seq<Task>) {
    DistinctIds(q) && forall t :: t in q ==> t in ts && Ready(t, source)
  }

  predicate InPriorityOrder(q: seq<Task>) { forall i, j :: 0 <= i < j < |q| ==> q[i].priority >= q[j].priority }

  // If anything ready is left behind the limit is used up, and nothing taken has a lower priority.
  predicate LeavesNoBetter(ts: seq<Task>, source: string, n: nat, q: seq<Task>) {
    forall u :: u in ts && Ready(u, source) && u !in q ==> |q| == n && forall t :: t in q ==> u.priority <= t.priority
  }

  /** What is taken is ready, each task once, in order of priority; and what is left behind, if the
      limit left anything behind, has no higher priority than anything taken. */
  predicate TakesTheBest(ts: seq<Task>, source: string, n: nat, q: seq<Task>) {
    |q| <= n && TakesReady(ts, source, q) && InPriorityOrder(q) && LeavesNoBetter(ts, source, n, q)
  }

  lemma {:induction false} QueryTakesTheBest(ts: seq<Task>, source: string, n: nat)
    requires DistinctIds(ts)
    ensures TakesTheBest(ts, source, n, Query(ts, source, n))
    decreases n
  {
    hide *;
    var b := Best(ts, source);
    QueryStep(ts, source, n);
    if n == 0 || b == |ts| {
      NothingTaken(ts, source, n);
    } else {
      QueryTakesTheBest(Rest(ts, b), source, n - 1);
      BestFirst(ts, source, n, Query(Rest(ts, b), source, n - 1));
    }
  }

  function Rest(ts: seq<Task>, b: nat): seq<Task> { if b < |ts| then ts[..b] + ts[b + 1..] else ts }

  lemma QueryStep(ts: seq<Task>, source: string, n: nat)
    requires DistinctIds(ts)
    ensures var b := Best(ts, source);
      if n == 0 || b == |ts| then Query(ts, source, n) == []
      else Query(ts, source, n) == [ts[b]] + Query(Rest(ts, b), source, n - 1) && DistinctIds(Rest(ts, b))
  {
    var b := Best(ts, source);
    if b < |ts| { DropOne(ts, b); }
  }

  lemma NothingTaken(ts: seq<Task>, source: string, n: nat)
    requires n == 0 || Best(ts, source) == |ts|
    ensures TakesTheBest(ts, source, n, [])
  {
    BestIs(ts, source);
    hide Best;
  }

  lemma BestFirst(ts: seq<Task>, source: string, n: nat, p: seq<Task>)
    requires DistinctIds(ts) && n > 0 && Best(ts, source) < |ts|
    requires TakesTheBest(Rest(ts, Best(ts, source)), source, n - 1, p)
    ensures TakesTheBest(ts, source, n, [ts[Best(ts, source)]] + p)
  {
    var b, rest := Best(ts, source), Rest(ts, Best(ts, source));
    BestIs(ts, source);
    hide Best;
    DropOne(ts, b);
    var first, q := ts[b], [ts[b]] + p;
    assert forall t :: t in ts && Ready(t, source) ==> t.priority <= first.priority;
    assert forall t :: t in q <==> t == first || t in p;
    assert forall t :: t in ts && t.id == first.id ==> t == first;
    assert forall t :: t in rest <==> t in ts && t.id != first.id;
    hide Ready;
    hide Rest;
    hide NoneBetter;
    forall i | 0 <= i < |p| ensures p[i].id != first.id && p[i].priority <= first.priority {
      assert p[i] in p && p[i] in rest;
    }
    forall u | u in ts && Ready(u, source) && u !in q ensures |q| == n && forall t :: t in q ==> u.priority <= t.priority {
      assert u in rest && u !in p;
    }
  }

  // The rows of the taken tasks, marked one after another.
  function MarkAll(ts: seq<Task>, taken: seq<Task>): seq<Task> {
    if taken == [] then ts else WithPhase(MarkAll(ts, taken[..|taken| - 1]), taken[|taken| - 1].id, InFlight)
  }

  lemma {:induction false} MarkedRow(ts: seq<Task>, taken: seq<Task>, i: nat)
    requires i < |ts|
    ensures |MarkAll(ts, taken)| == |ts|
    ensures MarkAll(ts, taken)[i] == if HasId(taken, ts[i].id) then ts[i].(phase := InFlight) else ts[i]
  {
    if taken != [] {
      var front, last := taken[..|taken| - 1], taken[|taken| - 1];
      MarkedRow(ts, front, i);
      assert taken == front + [last];
      assert HasId(taken, ts[i].id) <==> HasId(front, ts[i].id) || last.id == ts[i].id by {
        if last.id == ts[i].id { assert last in taken; }
        if HasId(front, ts[i].id) {
          var t :| t in front && t.id == ts[i].id;
          assert t in taken;
        }
      }
      hide HasId;
    }
  }

  // ---- Runs of the queue --------------------------------------------------------------------

  /** A task's life from its enqueuing or its last manual re-drive: the attempts it started with,
      and how often it has been taken since. */
  datatype Life = Life(start: nat, taken: nat)

  datatype Run = Run(tasks: seq<Task>, lives: map<string, Life>, ended: set<(string, string)>)

  datatype Event =
    | Enqueue(task: Task)
    | Dequeue(source: string, count: nat, taken: seq<Task>)
    | Complete(id: string)
    | Fail(id: string, attempt: nat, status: Option<int>, kind: Option<string>, jitter: real)
    | MarkGone(id: string)
    | Redrive(source: string)

  // Which of two tasks of one priority comes first is left open.
  predicate Enabled(ts: seq<Task>, e: Event) {
    match e
    case Dequeue(source, count, taken) => TakesTheBest(ts, source, count, taken)
    case Fail(_, _, _, _, jitter) => 0.0 <= jitter <= 1.0
    case _ => true
  }

  // The keys of the rows that are dead or gone.
  function EndedIn(ts: seq<Task>): set<(string, string)> { set t | t in ts && !Blocks(t.phase) :: (t.source, t.key) }

  function Table(ts: seq<Task>, e: Event): seq<Task> {
    match e
    case Enqueue(t) => Enqueued(ts, t).0
    case Dequeue(_, _, taken) => MarkAll(ts, taken)
    case Complete(id) => WithPhase(ts, id, Done)
    case Fail(id, attempt, status, kind, jitter) => Failed(ts, id, DecideRetry(attempt, status, kind, jitter))
    case MarkGone(id) => WithPhase(ts, id, Gone)
    case Redrive(source) => WithRedriven(ts, source)
  }

  function TakenLives(lives: map<string, Life>, q: seq<Task>): map<string, Life> {
    map id | id in lives :: if HasId(q, id) then lives[id].(taken := lives[id].taken + 1) else lives[id]
  }

  function Lives(r: Run, e: Event): map<string, Life> {
    match e
    case Enqueue(t) => if Enqueued(r.tasks, t).1 then r.lives[t.id := Life(t.attempt, 0)] else r.lives
    case Dequeue(_, _, taken) => TakenLives(r.lives, taken)
    case Redrive(source) =>
      map id | id in r.lives :: if HasDead(r.tasks, id, source) then Life(0, 0) else r.lives[id]
    case _ => r.lives
  }

  predicate HasDead(ts: seq<Task>, id: string, source: string) {
    exists t :: t in ts && t.id == id && t.source == source && t.phase == DeadLetter
  }

  function Next(r: Run, e: Event): Run {
    var ts := Table(r.tasks, e);
    Run(ts, Lives(r, e), r.ended + EndedIn(ts))
  }

  function Most(a: nat, b: nat): nat { if a > b then a else b }

  /** A task is taken once more than it has been put back, and is put back only within the limit. */
  predicate Budgeted(t: Task, lives: map<string, Life>) {
    && t.id in lives
    && lives[t.id].start + lives[t.id].taken + (if t.phase == Pending then 1 else 0) <= t.attempt + 1
    && t.attempt <= Most(lives[t.id].start, MOST_ATTEMPTS)
  }

  predicate AllBudgeted(ts: seq<Task>, lives: map<string, Life>) { forall i :: 0 <= i < |ts| ==> Budgeted(ts[i], lives) }

  predicate SameKey(a: Task, b: Task) { a.source == b.source && a.key == b.key }

  /** One row for each source and key, until a row of theirs is dead or gone. */
  predicate OnePerKey(ts: seq<Task>, ended: set<(string, string)>) {
    && (forall i, j :: 0 <= i < j < |ts| && SameKey(ts[i], ts[j]) ==> (ts[i].source, ts[i].key) in ended)
    && (forall i :: 0 <= i < |ts| && !Blocks(ts[i].phase) ==> (ts[i].source, ts[i].key) in ended)
  }

  predicate Healthy(r: Run) { DistinctIds(r.tasks) && AllBudgeted(r.tasks, r.lives) && OnePerKey(r.tasks, r.ended) }

  /** A change row by row that keeps the ids and keys. */
  predicate RowByRow(ts: seq<Task>, us: seq<Task>) {
    && |us| == |ts|
    && forall i :: 0 <= i < |ts| ==> us[i].id == ts[i].id && us[i].source == ts[i].source && us[i].key == ts[i].key
  }

  lemma RowByRowKeeps(ts: seq<Task>, us: seq<Task>, ended: set<(string, string)>)
    requires DistinctIds(ts) && OnePerKey(ts, ended) && RowByRow(ts, us)
    ensures DistinctIds(us) && OnePerKey(us, ended + EndedIn(us))
  {
    forall i, j | 0 <= i < j < |us| && SameKey(us[i], us[j]) ensures (us[i].source, us[i].key) in ended {
      assert SameKey(ts[i], ts[j]);
    }
    forall i | 0 <= i < |us| && !Blocks(us[i].phase) ensures (us[i].source, us[i].key) in EndedIn(us) {
      assert us[i] in us;
    }
  }

  lemma {:induction false} FindIs(ts: seq<Task>, id: string)
    requires DistinctIds(ts)
    ensures Find(ts, id).Some? ==> Find(ts, id).value in ts && Find(ts, id).value.id == id
    ensures forall i :: 0 <= i < |ts| && ts[i].id == id ==> Find(ts, id) == Some(ts[i])
  {
    if ts != [] && ts[0].id != id {
      assert ts == [ts[0]] + ts[1..];
      FindIs(ts[1..], id);
    }
  }

  lemma FailKeepsHealthy(r: Run, e: Event)
    requires Healthy(r) && Enabled(r.tasks, e) && e.Fail?
    ensures Healthy(Next(r, e))
  {
    var d, us := DecideRetry(e.attempt, e.status, e.kind, e.jitter), Table(r.tasks, e);
    DecisionBounded(e.attempt, e.status, e.kind, e.jitter);
    FindIs(r.tasks, e.id);
    RowByRowKeeps(r.tasks, us, r.ended);
    hide DecideRetry;
    hide OnePerKey;
    hide DistinctIds;
    forall i | 0 <= i < |us| ensures Budgeted(us[i], r.lives) { assert Budgeted(r.tasks[i], r.lives); }
  }

  lemma PhaseKeepsHealthy(r: Run, e: Event)
    requires Healthy(r) && (e.Complete? || e.MarkGone?)
    ensures Healthy(Next(r, e))
  {
    var us := Table(r.tasks, e);
    RowByRowKeeps(r.tasks, us, r.ended);
    hide OnePerKey;
    hide DistinctIds;
    forall i | 0 <= i < |us| ensures Budgeted(us[i], r.lives) { assert Budgeted(r.tasks[i], r.lives); }
  }

  lemma DequeueKeepsHealthy(r: Run, e: Event)
    requires Healthy(r) && Enabled(r.tasks, e) && e.Dequeue?
    ensures Healthy(Next(r, e))
  {
    hide MarkAll;
    hide AllBudgeted;
    hide OnePerKey;
    hide DistinctIds;
    hide TakenLives;
    hide EndedIn;
    hide RowByRow;
    hide TakesReady;
    hide InPriorityOrder;
    hide LeavesNoBetter;
    MarkedByRow(r.tasks, e.taken);
    RowByRowKeeps(r.tasks, MarkAll(r.tasks, e.taken), r.ended);
    TakenBudgeted(r.tasks, e.source, e.taken, r.lives);
  }

  lemma MarkedByRow(ts: seq<Task>, q: seq<Task>)
    ensures RowByRow(ts, MarkAll(ts, q))
  {
    MarkedRows(ts, q);
    hide MarkAll;
  }

  lemma TakenBudgeted(ts: seq<Task>, source: string, q: seq<Task>, lives: map<string, Life>)
    requires DistinctIds(ts) && TakesReady(ts, source, q) && AllBudgeted(ts, lives)
    ensures AllBudgeted(MarkAll(ts, q), TakenLives(lives, q))
  {
    MarkedRows(ts, q);
    var us, after := MarkAll(ts, q), TakenLives(lives, q);
    hide MarkAll;
    forall i | 0 <= i < |us| ensures Budgeted(us[i], after) {
      assert Budgeted(ts[i], lives);
      if HasId(q, ts[i].id) { TakenWasPending(ts, source, q, i); }
      hide HasId;
      hide DistinctIds;
      hide TakesReady;
    }
  }

  lemma MarkedRows(ts: seq<Task>, q: seq<Task>)
    ensures |MarkAll(ts, q)| == |ts|
    ensures forall i :: 0 <= i < |ts| ==>
      MarkAll(ts, q)[i] == if HasId(q, ts[i].id) then ts[i].(phase := InFlight) else ts[i]
  {
    MarkedLength(ts, q);
    forall i | 0 <= i < |ts|
      ensures MarkAll(ts, q)[i] == if HasId(q, ts[i].id) then ts[i].(phase := InFlight) else ts[i]
    {
      MarkedRow(ts, q, i);
    }
  }

  lemma {:induction false} MarkedLength(ts: seq<Task>, q: seq<Task>)
    ensures |MarkAll(ts, q)| == |ts|
  {
    if q != [] { MarkedLength(ts, q[..|q| - 1]); }
  }

  lemma TakenWasPending(ts: seq<Task>, source: string, q: seq<Task>, i: nat)
    requires DistinctIds(ts) && TakesReady(ts, source, q) && i < |ts| && HasId(q, ts[i].id)
    ensures ts[i].phase == Pending
  {
    var t :| t in q && t.id == ts[i].id;
    assert t in ts && Ready(t, source);
  }

  lemma RedriveKeepsHealthy(r: Run, e: Event)
    requires Healthy(r) && e.Redrive?
    ensures Healthy(Next(r, e))
  {
    var us, lives := Table(r.tasks, e), Lives(r, e);
    RowByRowKeeps(r.tasks, us, r.ended);
    hide OnePerKey;
    forall i | 0 <= i < |us| ensures Budgeted(us[i], lives) {
      assert Budgeted(r.tasks[i], r.lives);
      DeadIs(r.tasks, i, e.source);
      hide HasDead;
      hide DistinctIds;
    }
    hide DistinctIds;
  }

  lemma DeadIs(ts: seq<Task>, i: nat, source: string)
    requires DistinctIds(ts) && i < |ts|
    ensures HasDead(ts, ts[i].id, source) <==> ts[i].source == source && ts[i].phase == DeadLetter
  {
    assert ts[i] in ts;
  }

  lemma {:induction false} WithoutKeeps(ts: seq<Task>, id: string, ended: set<(string, string)>)
    requires DistinctIds(ts) && OnePerKey(ts, ended)
    ensures DistinctIds(Without(ts, id)) && OnePerKey(Without(ts, id), ended)
    ensures forall t :: t in Without(ts, id) <==> t in ts && t.id != id
  {
    if ts != [] {
      var front, last := ts[..|ts| - 1], ts[|ts| - 1];
      assert ts == front + [last];
      WithoutKeeps(front, id, ended);
      LastStays(Without(front, id), front, last, ended);
      hide OnePerKey;
      hide DistinctIds;
    }
  }

  // Rows that stay keep their relation to the last row.
  lemma LastStays(w: seq<Task>, front: seq<Task>, last: Task, ended: set<(string, string)>)
    requires DistinctIds(front + [last]) && OnePerKey(front + [last], ended)
    requires DistinctIds(w) && OnePerKey(w, ended) && forall x :: x in w ==> x in front
    ensures DistinctIds(w + [last]) && OnePerKey(w + [last], ended)
  {
    var ts := front + [last];
    forall i | 0 <= i < |w| ensures w[i].id != last.id && (SameKey(w[i], last) ==> (w[i].source, w[i].key) in ended) {
      assert w[i] in w;
      var k :| 0 <= k < |front| && front[k] == w[i];
      assert ts[k] == w[i] && ts[|front|] == last;
    }
    assert ts[|front|] == last;
  }

  lemma {:induction false} FirstIs(ts: seq<Task>, source: string, key: string)
    ensures FirstOf(ts, source, key).Some? ==>
      var t := FirstOf(ts, source, key).value; t in ts && t.source == source && t.key == key
    ensures FirstOf(ts, source, key).None? ==> forall t :: t in ts ==> t.source != source || t.key != key
  {
    if ts != [] { FirstIs(ts[1..], source, key); }
  }

  lemma EnqueueKeepsHealthy(r: Run, t: Task)
    requires Healthy(r)
    ensures Healthy(Next(r, Enqueue(t)))
  {
    FirstIs(r.tasks, t.source, t.key);
    if Enqueued(r.tasks, t).1 {
      WithoutKeeps(r.tasks, t.id, r.ended);
      AppendKeeps(Without(r.tasks, t.id), r.tasks, t, r.ended);
      BudgetAfterSave(r, t);
    } else {
      RowByRowKeeps(r.tasks, r.tasks, r.ended);
    }
    hide *;
  }

  lemma AppendKeeps(w: seq<Task>, ts: seq<Task>, t: Task, ended: set<(string, string)>)
    requires DistinctIds(w) && OnePerKey(w, ended) && OnePerKey(ts, ended)
    requires forall x :: x in w ==> x in ts && x.id != t.id
    requires FirstOf(ts, t.source, t.key).None? || !Blocks(FirstOf(ts, t.source, t.key).value.phase)
    ensures DistinctIds(w + [t]) && OnePerKey(w + [t], ended + EndedIn(w + [t]))
  {
    FirstIs(ts, t.source, t.key);
    var us := w + [t];
    forall i | 0 <= i < |w| ensures w[i].id != t.id && (SameKey(w[i], t) ==> (t.source, t.key) in ended) {
      assert w[i] in w;
    }
    hide FirstOf;
    forall i | 0 <= i < |us| && !Blocks(us[i].phase) ensures (us[i].source, us[i].key) in EndedIn(us) {
      assert us[i] in us;
    }
  }

  lemma BudgetAfterSave(r: Run, t: Task)
    requires Healthy(r) && forall x :: x in Without(r.tasks, t.id) ==> x in r.tasks && x.id != t.id
    ensures AllBudgeted(Saved(r.tasks, t), r.lives[t.id := Life(t.attempt, 0)])
  {
    var w := Without(r.tasks, t.id);
    forall i | 0 <= i < |w| ensures Budgeted(w[i], r.lives[t.id := Life(t.attempt, 0)]) {
      assert w[i] in w;
      var k :| 0 <= k < |r.tasks| && r.tasks[k] == w[i];
      assert Budgeted(r.tasks[k], r.lives);
    }
  }

  function After(es: seq<Event>): Run {
    if es == [] then Run([], map[], {}) else Next(After(es[..|es| - 1]), es[|es| - 1])
  }

  predicate Legal(es: seq<Event>) {
    es == [] || (Legal(es[..|es| - 1]) && Enabled(After(es[..|es| - 1]).tasks, es[|es| - 1]))
  }

  lemma {:induction false} RunsAreHealthy(es: seq<Event>)
    requires Legal(es)
    ensures Healthy(After(es))
  {
    if es != [] {
      var r, e := After(es[..|es| - 1]), es[|es| - 1];
      RunsAreHealthy(es[..|es| - 1]);
      assert Enabled(r.tasks, e) && After(es) == Next(r, e);
      hide *;
      match e
      case Enqueue(t) => EnqueueKeepsHealthy(r, t);
      case Dequeue(_, _, _) => DequeueKeepsHealthy(r, e);
      case Complete(_) => PhaseKeepsHealthy(r, e);
      case Fail(_, _, _, _, _) => FailKeepsHealthy(r, e);
      case MarkGone(_) => PhaseKeepsHealthy(r, e);
      case Redrive(_) => RedriveKeepsHealthy(r, e);
    }
  }

  /** Over every run: from its enqueuing (or a manual re-drive) on, a task that starts with no
      attempts is taken at most six times, its attempts stay within five, and there is one row for
      each source and key until one of theirs is dead or gone. */
  lemma RetriesTerminate(es: seq<Event>, t: Task)
    requires Legal(es) && t in After(es).tasks
    ensures var r := After(es);
      && t.id in r.lives && r.lives[t.id].taken <= Most(r.lives[t.id].start, MOST_ATTEMPTS) + 1 - r.lives[t.id].start
      && (r.lives[t.id].start == 0 ==> r.lives[t.id].taken <= 6 && t.attempt <= 5)
      && forall u :: u in r.tasks && SameKey(t, u) && (t.source, t.key) !in r.ended ==> u == t
  {
    RunsAreHealthy(es);
    var r := After(es);
    hide After;
    var i :| 0 <= i < |r.tasks| && r.tasks[i] == t;
    assert Budgeted(r.tasks[i], r.lives);
    forall u | u in r.tasks && SameKey(t, u) && (t.source, t.key) !in r.ended ensures u == t {
      var j :| 0 <= j < |r.tasks| && r.tasks[j] == u;
      OneRow(r.tasks, r.ended, i, j);
    }
  }

  lemma OneRow(ts: seq<Task>, ended: set<(string, string)>, i: nat, j: nat)
    requires OnePerKey(ts, ended) && i < |ts| && j < |ts|
    requires SameKey(ts[i], ts[j]) && (ts[i].source, ts[i].key) !in ended
    ensures i == j
  {
    assert SameKey(ts[j], ts[i]);
  }

  /** After that the check at enqueuing, which looks at the first row of the key only, lets in one
      task after another. */
  lemma DeadRowLetsInMore(a: Task, b: Task, c: Task)
    requires SameKey(a, b) && SameKey(b, c) && !Blocks(a.phase)
    requires a.id != b.id && b.id != c.id && a.id != c.id
    ensures Enqueued([a], b) == ([a, b], true) && Enqueued([a, b], c) == ([a, b, c], true)
  {
    assert [a][..0] == [] && [a, b][..1] == [a];
    assert Without([a], b.id) == [a] && Without([a], c.id) == [a] && Without([a, b], c.id) == [a, b];
    assert FirstOf([a], b.source, b.key) == Some(a) && FirstOf([a, b], c.source, c.key) == Some(a);
    assert [a, b] + [c] == [a, b, c] && [a] + [b] == [a, b];
  }

  // ---- The objects --------------------------------------------------------------------------

  class CrawlerStorage {
    var tasks: seq<Task>

    constructor ()
      ensures tasks == []
    {
      tasks := [];
    }

    method SaveTask(t: Task)
      modifies this
      ensures tasks == Saved(old(tasks), t)
    {
      var kept := [];
      for i := 0 to |tasks|
        invariant tasks == old(tasks) && kept == Without(tasks[..i], t.id)
      {
        assert tasks[..i + 1][..i] == tasks[..i];
        if tasks[i].id != t.id { kept := kept + [tasks[i]]; }
      }
      assert tasks[..|tasks|] == tasks;
      tasks := kept + [t];
    }

    method GetTaskByDedupKey(source: string, key: string) returns (t: Option<Task>)
      ensures t == FirstOf(tasks, source, key)
    {
      var i := 0;
      while i < |tasks|
        invariant i <= |tasks| && FirstOf(tasks, source, key) == FirstOf(tasks[i..], source, key)
      {
        if tasks[i].source == source && tasks[i].key == key { return Some(tasks[i]); }
        assert tasks[i..][1..] == tasks[i + 1..];
        i := i + 1;
      }
      return None;
    }

    method GetTask(id: string) returns (t: Option<Task>)
      ensures t == Find(tasks, id)
    {
      var i := 0;
      while i < |tasks|
        invariant i <= |tasks| && Find(tasks, id) == Find(tasks[i..], id)
      {
        if tasks[i].id == id { return Some(tasks[i]); }
        assert tasks[i..][1..] == tasks[i + 1..];
        i := i + 1;
      }
      return None;
    }

    /** The ready tasks by priority. The query leaves open which of two of one priority comes first,
        and no more than that is promised. */
    method GetPendingTasks(source: string, limit: nat) returns (q: seq<Task>)
      requires DistinctIds(tasks)
      ensures TakesTheBest(tasks, source, limit, q)
    {
      hide *;
      q := FirstRows(source, limit);
      QueryTakesTheBest(tasks, source, limit);
    }

    // In row order, say.
    method FirstRows(source: string, limit: nat) returns (q: seq<Task>)
      ensures q == Query(tasks, source, limit)
    {
      var left := tasks;
      q := [];
      for i := 0 to limit
        invariant Query(tasks, source, limit) == q + Query(left, source, limit - i)
      {
        var b := Best(left, source);
        if b == |left| { return; }
        var rest := left[..b] + left[b + 1..];
        assert q + ([left[b]] + Query(rest, source, limit - i - 1)) == (q + [left[b]]) + Query(rest, source, limit - i - 1);
        q, left := q + [left[b]], rest;
      }
    }

    method UpdateTaskState(id: string, p: Phase)
      modifies this
      ensures tasks == WithPhase(old(tasks), id, p)
    {
      var out := [];
      for i := 0 to |tasks|
        invariant tasks == old(tasks) && |out| == i && forall k :: 0 <= k < i ==> out[k] == Moved(tasks[k], id, p)
      {
        out := out + [if tasks[i].id == id then tasks[i].(phase := p) else tasks[i]];
      }
      tasks := out;
    }

    method UpdateTaskRetry(id: string, attempt: nat)
      modifies this
      ensures tasks == WithRetry(old(tasks), id, attempt)
    {
      var out := [];
      for i := 0 to |tasks|
        invariant tasks == old(tasks) && |out| == i && forall k :: 0 <= k < i ==> out[k] == Retried(tasks[k], id, attempt)
      {
        out := out + [if tasks[i].id == id then tasks[i].(phase := Pending, attempt := attempt) else tasks[i]];
      }
      tasks := out;
    }

    method RequeueDeadLetters(source: string) returns (count: nat)
      modifies this
      ensures tasks == WithRedriven(old(tasks), source)
    {
      count := 0;
      var out := [];
      for i := 0 to |tasks|
        invariant tasks == old(tasks) && |out| == i && forall k :: 0 <= k < i ==> out[k] == Redriven(tasks[k], source)
      {
        if tasks[i].source == source && tasks[i].phase == DeadLetter {
          out, count := out + [tasks[i].(phase := Pending, attempt := 0)], count + 1;
        } else {
          out := out + [tasks[i]];
        }
      }
      tasks := out;
    }
  }

  class TaskQueue {
    const storage: CrawlerStorage

    constructor (storage: CrawlerStorage)
      ensures this.storage == storage
    {
      this.storage := storage;
    }

    method Enqueue(t: Task) returns (added: bool)
      modifies storage
      ensures (storage.tasks, added) == Enqueued(old(storage.tasks), t)
    {
      var existing := storage.GetTaskByDedupKey(t.source, t.key);
      if existing.Some? && Blocks(existing.value.phase) { return false; }
      storage.SaveTask(t);
      return true;
    }

    /** The highest-priority pending tasks, each marked as in flight. */
    method Dequeue(source: string, count: nat) returns (taken: seq<Task>)
      requires DistinctIds(storage.tasks)
      modifies storage
      ensures Enabled(old(storage.tasks), Event.Dequeue(source, count, taken))
      ensures storage.tasks == Table(old(storage.tasks), Event.Dequeue(source, count, taken))
    {
      taken := storage.GetPendingTasks(source, count);
      assert Enabled(storage.tasks, Event.Dequeue(source, count, taken));
      assert Table(storage.tasks, Event.Dequeue(source, count, taken)) == MarkAll(storage.tasks, taken);
      hide *;
      ghost var before := storage.tasks;
      assert MarkAll(before, []) == before by { NoneMarked(before); }
      for i := 0 to |taken|
        invariant storage.tasks == MarkAll(before, taken[..i])
      {
        storage.UpdateTaskState(taken[i].id, InFlight);
        MarkedNext(before, taken, i);
      }
      assert taken[..|taken|] == taken;
    }

    method Complete(id: string)
      modifies storage
      ensures storage.tasks == WithPhase(old(storage.tasks), id, Done)
    {
      storage.UpdateTaskState(id, Done);
    }

    method Fail(id: string, d: Decision)
      requires DistinctIds(storage.tasks)
      modifies storage
      ensures storage.tasks == Failed(old(storage.tasks), id, d)
      ensures forall t :: t in storage.tasks && t.id == id && t.phase == Pending && d.retry && HasId(old(storage.tasks), id)
                          ==> t.attempt <= d.maxAttempts
    {
      var t := storage.GetTask(id);
      FindIs(storage.tasks, id);
      if t.None? { return; }
      var current := t.value.attempt + 1;
      if d.retry && current <= d.maxAttempts {
        storage.UpdateTaskRetry(id, current);
      } else {
        storage.UpdateTaskState(id, DeadLetter);
      }
    }

    method MarkGone(id: string)
      modifies storage
      ensures storage.tasks == WithPhase(old(storage.tasks), id, Gone)
    {
      storage.UpdateTaskState(id, Gone);
    }
  }

  lemma NoneMarked(ts: seq<Task>)
    ensures MarkAll(ts, []) == ts
  {
  }

  lemma MarkedNext(ts: seq<Task>, taken: seq<Task>, i: nat)
    requires i < |taken|
    ensures MarkAll(ts, taken[..i + 1]) == WithPhase(MarkAll(ts, taken[..i]), taken[i].id, InFlight)
  {
    assert taken[..i + 1][..i] == taken[..i];
  }
}
