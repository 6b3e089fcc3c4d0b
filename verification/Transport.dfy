/** The command transport and the gateway's exclusive owner, as the atomic steps that the helper's
    threads interleave: command calls, the handling of inbound envelopes, and connections that come
    and go. */
module Transport {
  import opened Wrappers
  import opened IdempotencyCache

  const CACHE_CAPACITY := 500
  const CACHE_TTL := 300.0

  const UNCONNECTED := Fault("INTERNAL_ERROR", true)
  const PAUSED := Fault("VERIFICATION_REQUIRED", true)
  const INVALID := Fault("INVALID_MESSAGE", false)
  const CROWDED := Fault("INTERNAL_ERROR", true)
  const UNSENT := Fault("INTERNAL_ERROR", true)
  const RAISED := Fault("INTERNAL_ERROR", true)
  const TIMED_OUT := Fault("TIMEOUT", true)
  const ABORTED := Fault("INTERNAL_ERROR", true)
  const BLOCKED := Fault("API_BLOCKED", false)

  datatype Mode = Connected | Disconnected | Busy | AwaitingVerification | ApiBlocked

  /** Where a call of `execute_command` is between two atomic steps. */
  datatype Phase =
    | Checking | Admitted | Holding | Registered | Sent
    | Woken(finished: bool) | Settled(finished: bool)
    | Decided(reply: Reply) | Cleaned(reply: Reply) | Returned(reply: Reply)

  /** A call: its command id, whether its action may run during verification, and its pending
      record (the result, the error and the event that wakes it, and the marks of its progress). */
  datatype Call = Call(id: string, exempt: bool, phase: Phase, result: Option<string>, error: Option<Fault>, event: bool,
                       accepted: bool, progress: Option<string>)

  datatype Kind =
    | ResultKind(payload: string) | ErrorKind(fault: Fault)
    | AcceptedKind | ProgressKind(progress: Option<string>)
    | VerificationRequired | VerificationResolved | ApiBlockedKind | OtherKind

  datatype Envelope = Envelope(id: string, kind: Kind)

  /** The handling of one envelope: what it found pending, and whether it has acted on it. */
  datatype Handler = Handler(envelope: Envelope, target: Option<nat>, applied: bool)

  datatype State = State(
    max: nat, permits: nat, pending: map<string, nat>, calls: map<nat, Call>, mode: Mode, cache: seq<Slot>,
    handlers: map<nat, Handler>, aborting: set<nat>,
    heard: set<(string, string)>,          // every (id, payload) of a RESULT envelope received
    owner: Option<nat>, closed: set<nat>)  // the gateway's connections

  datatype Why = NotConnected | InVerification | BadParameters | NoPermit

  datatype Move =
    // one call
    | Begin(c: nat, id: string, exempt: bool, now: real) | Refuse(c: nat, why: Why) | Admit(c: nat)
    | Acquire(c: nat) | Register(c: nat) | Transmit(c: nat) | FailToSend(c: nat) | Raise(c: nat)
    | Wake(c: nat) | TimeOut(c: nat) | Settle(c: nat) | Decide(c: nat) | Clean(c: nat) | Release(c: nat)
    // one envelope
    | Hear(h: nat, envelope: Envelope) | Apply(h: nat) | Store(h: nat, now: real)
    // the rest of a reset
    | Abort(c: nat)
    // the gateway, and others that set the mode
    | Join(conn: nat, takeover: bool) | Leave(conn: nat) | Rotate | Drop | Close(conn: nat) | SetMode(mode: Mode)

  predicate Live(s: State) { s.owner.Some? && s.owner.value !in s.closed }

  predicate At(s: State, c: nat, p: Phase) { c in s.calls && s.calls[c].phase == p }

  predicate Enabled(s: State, m: Move) {
    match m
    case Begin(c, _, _, _) => c !in s.calls
    case Refuse(c, why) =>
      (match why
       case NotConnected => At(s, c, Checking) && !Live(s)
       case InVerification => At(s, c, Checking) && Live(s) && s.mode == AwaitingVerification && !s.calls[c].exempt
       case BadParameters => At(s, c, Checking)
       case NoPermit => At(s, c, Admitted) && s.permits == 0)
    case Admit(c) => At(s, c, Checking)
    case Acquire(c) => At(s, c, Admitted) && s.permits > 0
    case Register(c) => At(s, c, Holding)
    case Transmit(c) => At(s, c, Registered)
    case FailToSend(c) => At(s, c, Registered)
    case Raise(c) => At(s, c, Holding) || At(s, c, Registered) || At(s, c, Sent)
    case Wake(c) => At(s, c, Sent) && s.calls[c].event
    case TimeOut(c) => At(s, c, Sent) && !s.calls[c].event
    case Settle(c) => c in s.calls && s.calls[c].phase.Woken?
    case Decide(c) => c in s.calls && s.calls[c].phase.Settled?
    case Clean(c) => c in s.calls && s.calls[c].phase.Decided?
    case Release(c) => c in s.calls && s.calls[c].phase.Cleaned?
    case Hear(h, _) => h !in s.handlers
    case Apply(h) => h in s.handlers && !s.handlers[h].applied
    case Store(h, _) => h in s.handlers && s.handlers[h].applied
    case Abort(c) => c in s.aborting && c in s.calls
    case SetMode(mode) => mode != Busy
    case _ => true
  }

  function Why2Fault(why: Why): Fault {
    match why
    case NotConnected => UNCONNECTED case InVerification => PAUSED case BadParameters => INVALID case NoPermit => CROWDED
  }

  function Goes(s: State, c: nat, p: Phase): State
    requires c in s.calls
  {
    s.(calls := s.calls[c := s.calls[c].(phase := p)])
  }

  // The lines under the lock at the end of a call, run twice: after the wait and in `finally`.
  function Forget(s: State, id: string): State {
    var pending := s.pending - {id};
    s.(pending := pending, mode := if s.mode == Busy && pending == map[] then Connected else s.mode)
  }

  // What the caller is told once the wait is over.
  function Told(k: Call, finished: bool): Reply {
    if !finished then Failure(TIMED_OUT)
    else if k.error.Some? then Failure(k.error.value)
    else Success(if k.result.Some? then k.result.value else "null")
  }

  // `reset_pending`, under the lock; each command it took out is then aborted.
  function Reset(s: State): State { s.(pending := map[], aborting := s.aborting + s.pending.Values) }

  function Blame(s: State, target: Option<nat>, fault: Fault): State {
    if target.Some? && target.value in s.calls
    then s.(calls := s.calls[target.value := s.calls[target.value].(error := Some(fault), event := true)]) else s
  }

  // What an envelope does to the pending record of its command.
  function Affected(k: Call, kind: Kind): Call {
    match kind
    case ResultKind(v) => k.(result := Some(v), event := true)
    case ErrorKind(f) => k.(error := Some(f), event := true)
    case AcceptedKind => k.(accepted := true)
    case ProgressKind(p) => k.(progress := p)
    case VerificationRequired => k.(error := Some(PAUSED), event := true)
    case ApiBlockedKind => k.(error := Some(BLOCKED), event := true)
    case _ => k
  }

  function ModeAfter(mode: Mode, kind: Kind): Mode {
    match kind
    case VerificationRequired => AwaitingVerification
    case VerificationResolved => if mode in {AwaitingVerification, ApiBlocked} then Connected else mode
    case ApiBlockedKind => ApiBlocked
    case _ => mode
  }

  function CallsAfter(calls: map<nat, Call>, target: Option<nat>, kind: Kind): map<nat, Call> {
    if target.Some? && target.value in calls then calls[target.value := Affected(calls[target.value], kind)] else calls
  }

  // A terminal envelope of a pending command is stored in the cache next.
  predicate ToStore(calls: map<nat, Call>, target: Option<nat>, kind: Kind) {
    (kind.ResultKind? || kind.ErrorKind?) && target.Some? && target.value in calls
  }

  function Acts(s: State, h: nat): State
    requires h in s.handlers
  {
    var kind, target := s.handlers[h].envelope.kind, s.handlers[h].target;
    s.(calls := CallsAfter(s.calls, target, kind), mode := ModeAfter(s.mode, kind),
       handlers := if ToStore(s.calls, target, kind) then s.handlers[h := s.handlers[h].(applied := true)] else s.handlers - {h})
  }

  function Hears(s: State, h: nat, e: Envelope): State {
    s.(handlers := s.handlers[h := Handler(e, if e.id in s.pending then Some(s.pending[e.id]) else None, false)],
       heard := if e.kind.ResultKind? then s.heard + {(e.id, e.kind.payload)} else s.heard)
  }

  function Stores(s: State, h: nat, now: real): State
    requires h in s.handlers
  {
    var e := s.handlers[h].envelope;
    var reply := if e.kind.ResultKind? then Success(e.kind.payload)
                 else if e.kind.ErrorKind? then Failure(e.kind.fault) else Failure(RAISED);
    s.(handlers := s.handlers - {h}, cache := Set(s.cache, e.id, reply, now, CACHE_TTL, CACHE_CAPACITY))
  }

  function Step(s: State, m: Move): State
    requires Enabled(s, m)
  {
    match m
    case Begin(c, id, exempt, now) =>
      var (cache, hit) := Get(s.cache, id, now, CACHE_TTL);
      var phase := if hit.Some? then Returned(hit.value) else Checking;
      s.(cache := cache, calls := s.calls[c := Call(id, exempt, phase, None, None, false, false, None)])
    case Refuse(c, why) => Goes(s, c, Returned(Failure(Why2Fault(why))))
    case Admit(c) => Goes(s, c, Admitted)
    case Acquire(c) => Goes(s, c, Holding).(permits := s.permits - 1)
    case Register(c) =>
      Goes(s, c, Registered).(pending := s.pending[s.calls[c].id := c], mode := if s.mode == Connected then Busy else s.mode)
    case Transmit(c) => Goes(s, c, Sent)
    case FailToSend(c) => Goes(s, c, Decided(Failure(UNSENT))).(pending := s.pending - {s.calls[c].id})
    case Raise(c) => Goes(s, c, Decided(Failure(RAISED)))
    case Wake(c) => Goes(s, c, Woken(true))
    case TimeOut(c) => Goes(s, c, Woken(false))
    case Settle(c) => Goes(Forget(s, s.calls[c].id), c, Settled(s.calls[c].phase.finished))
    case Decide(c) => Goes(s, c, Decided(Told(s.calls[c], s.calls[c].phase.finished)))
    case Clean(c) => Goes(Forget(s, s.calls[c].id), c, Cleaned(s.calls[c].phase.reply))
    case Release(c) => Goes(s, c, Returned(s.calls[c].phase.reply)).(permits := s.permits + 1)
    case Hear(h, e) => Hears(s, h, e)
    case Apply(h) => Acts(s, h)
    case Store(h, now) => Stores(s, h, now)
    case Abort(c) => Blame(s, Some(c), ABORTED).(aborting := s.aborting - {c})
    case Join(conn, takeover) =>
      if Live(s) && !takeover then s
      else
        var t := if s.owner.Some? && s.owner != Some(conn) then Reset(s) else s;
        t.(owner := Some(conn), mode := Connected)
    case Leave(conn) =>
      if s.owner == Some(conn) then Reset(s).(owner := None, mode := Disconnected, closed := s.closed + {conn})
      else s.(closed := s.closed + {conn})
    case Rotate => Reset(s).(owner := None)
    case Drop => s.(owner := None)
    case Close(conn) => s.(closed := s.closed + {conn})
    case SetMode(mode) => s.(mode := mode)
  }

  // ---- What every step keeps ----------------------------------------------------------------

  predicate Holds(p: Phase) {
    p.Holding? || p.Registered? || p.Sent? || p.Woken? || p.Settled? || p.Decided? || p.Cleaned?
  }

  // From its entry in the pending table until the last look at it.
  predicate MayPend(p: Phase) { p.Registered? || p.Sent? || p.Woken? || p.Settled? || p.Decided? }

  function Holders(s: State): set<nat> { set c | c in s.calls && Holds(s.calls[c].phase) }

  /** Permits are conserved: what is free and what is held add up. */
  predicate Counted(s: State) { s.permits + |Holders(s)| == s.max }

  /** The pending table leads to unfinished calls of that very id. */
  predicate Tied(s: State) {
    forall id :: id in s.pending ==>
      s.pending[id] in s.calls && s.calls[s.pending[id]].id == id && MayPend(s.calls[s.pending[id]].phase)
  }

  /** The mode is busy only while some call has work to clean up. */
  predicate BusyMeansWork(s: State) { s.mode == Busy ==> exists c :: c in s.calls && MayPend(s.calls[c].phase) }

  function ReplyOf(p: Phase): Option<Reply> {
    if p.Decided? || p.Cleaned? || p.Returned? then Some(p.reply) else None
  }

  predicate Retryable(r: Reply) { r.Failure? && r.fault.retryable }

  predicate CallSourced(k: Call, heard: set<(string, string)>) {
    && (k.result.Some? ==> (k.id, k.result.value) in heard)
    && (k.event ==> k.result.Some? || k.error.Some?)
    && (k.phase == Woken(true) || k.phase == Settled(true) ==> k.event)
    && (k.phase.Decided? && !k.event ==> Retryable(k.phase.reply))
    && (ReplyOf(k.phase).Some? && ReplyOf(k.phase).value.Success? ==> (k.id, ReplyOf(k.phase).value.payload) in heard)
  }

  predicate HandlerSourced(s: State, h: Handler) {
    && (h.envelope.kind.ResultKind? ==> (h.envelope.id, h.envelope.kind.payload) in s.heard)
    && (h.target.Some? ==> h.target.value in s.calls && s.calls[h.target.value].id == h.envelope.id)
  }

  predicate SlotSourced(x: Slot, heard: set<(string, string)>) { x.value.Success? ==> (x.id, x.value.payload) in heard }

  /** Every success, told or cached, is the payload of a RESULT envelope of its own id. */
  predicate Sourced(s: State) {
    && (forall c :: c in s.calls ==> CallSourced(s.calls[c], s.heard))
    && (forall h :: h in s.handlers ==> HandlerSourced(s, s.handlers[h]))
    && (forall x :: x in s.cache ==> SlotSourced(x, s.heard))
  }

  lemma HoldersAfter(s: State, t: State, c: nat)
    requires c in t.calls
    requires forall d :: d != c ==> (d in s.calls <==> d in t.calls) && (d in s.calls ==> t.calls[d].phase == s.calls[d].phase)
    ensures Holders(t) == if Holds(t.calls[c].phase) then Holders(s) + {c} else Holders(s) - {c}
  {
  }

  lemma HoldersSame(s: State, t: State)
    requires t.calls.Keys == s.calls.Keys && forall d :: d in s.calls ==> t.calls[d].phase == s.calls[d].phase
    ensures Holders(t) == Holders(s)
  {
  }

  predicate OfCall(m: Move) {
    m.Begin? || m.Refuse? || m.Admit? || m.Acquire? || m.Register? || m.Transmit? || m.FailToSend? || m.Raise?
    || m.Wake? || m.TimeOut? || m.Settle? || m.Decide? || m.Clean? || m.Release?
  }

  // A step of a call changes that call alone, and its permit as its phase says.
  lemma CallStep(s: State, m: Move)
    requires Enabled(s, m) && OfCall(m)
    ensures var t := Step(s, m);
      && m.c in t.calls && t.calls == s.calls[m.c := t.calls[m.c]] && t.max == s.max
      && (m.c in s.calls ==> t.calls[m.c].id == s.calls[m.c].id)
      && t.permits == s.permits + (if m.c in s.calls && Holds(s.calls[m.c].phase) then 1 else 0)
                                - (if Holds(t.calls[m.c].phase) then 1 else 0)
      && t.handlers == s.handlers && t.heard == s.heard
  {
    hide Get;
  }

  /** No call moves to another phase, no permit is taken, nothing is added to the pending table, and
      the mode does not become busy. */
  predicate Calm(s: State, t: State) {
    && t.calls.Keys == s.calls.Keys && t.permits == s.permits && t.max == s.max
    && (forall c :: c in s.calls ==> t.calls[c].phase == s.calls[c].phase && t.calls[c].id == s.calls[c].id)
    && (t.pending == s.pending || t.pending == map[])
    && (t.mode == Busy ==> s.mode == Busy)
    && s.heard <= t.heard
  }

  lemma AffectedIs(k: Call, kind: Kind)
    ensures var l := Affected(k, kind); l.phase == k.phase && l.id == k.id
  {
  }

  lemma ActsCalm(s: State, h: nat)
    requires h in s.handlers
    ensures Calm(s, Acts(s, h)) && Acts(s, h).heard == s.heard && Acts(s, h).cache == s.cache
  {
    var e, target := s.handlers[h].envelope, s.handlers[h].target;
    if target.Some? && target.value in s.calls { AffectedIs(s.calls[target.value], e.kind); }
    hide Affected;
  }

  lemma OtherStep(s: State, m: Move)
    requires Enabled(s, m) && !OfCall(m)
    ensures Calm(s, Step(s, m))
  {
    hide Set;
    if m.Apply? {
      ActsCalm(s, m.h);
      hide Calm;
    } else if m.Abort? {
    } else {
      assert Step(s, m).calls == s.calls;
    }
    hide Acts;
  }

  lemma StepKeepsCounted(s: State, m: Move)
    requires Enabled(s, m) && Counted(s)
    ensures Counted(Step(s, m))
  {
    var t := Step(s, m);
    if OfCall(m) {
      CallStep(s, m);
      HoldersAfter(s, t, m.c);
    } else {
      OtherStep(s, m);
      HoldersSame(s, t);
    }
    hide Step;
    hide Enabled;
  }

  lemma StepKeepsTied(s: State, m: Move)
    requires Enabled(s, m) && Tied(s)
    ensures Tied(Step(s, m))
  {
    if OfCall(m) {
      CallStep(s, m);
      hide Get;
    } else {
      OtherStep(s, m);
      hide Step;
    }
  }

  lemma StepKeepsBusy(s: State, m: Move)
    requires Enabled(s, m) && Tied(s) && BusyMeansWork(s)
    ensures BusyMeansWork(Step(s, m))
  {
    var t := Step(s, m);
    if t.mode != Busy {
    } else if OfCall(m) {
      CallStep(s, m);
      hide Get;
      if m.Settle? || m.Clean? {
        var id :| id in t.pending;
        assert t.pending[id] != m.c;
        assert t.pending[id] in t.calls && MayPend(t.calls[t.pending[id]].phase);
      } else if m.Register? {
        assert MayPend(t.calls[m.c].phase);
      } else {
        var c :| c in s.calls && MayPend(s.calls[c].phase);
        assert c in t.calls && MayPend(t.calls[c].phase);
      }
    } else {
      OtherStep(s, m);
      hide Step;
      var c :| c in s.calls && MayPend(s.calls[c].phase);
      assert MayPend(t.calls[c].phase);
    }
  }

  lemma StepKeepsSourced(s: State, m: Move)
    requires Enabled(s, m) && Sourced(s) && Tied(s)
    ensures Sourced(Step(s, m))
  {
    if OfCall(m) {
      CallKeepsSourced(s, m);
    } else if m.Apply? {
      ActsKeepsSourced(s, m.h);
    } else if m.Store? {
      StoreKeepsSourced(s, m.h, m.now);
    } else if m.Hear? {
      HearKeepsSourced(s, m.h, m.envelope);
    } else if m.Abort? {
      BlameKeepsSourced(s, Some(m.c), ABORTED);
      SameSources(Blame(s, Some(m.c), ABORTED), Step(s, m));
    } else {
      assert Step(s, m).calls == s.calls && Step(s, m).handlers == s.handlers;
      SameSources(s, Step(s, m));
    }
    hide *;
  }

  lemma SameSources(s: State, t: State)
    requires Sourced(s) && t.calls == s.calls && t.heard == s.heard && t.cache == s.cache
    requires forall h :: h in t.handlers ==>
      h in s.handlers && t.handlers[h].envelope == s.handlers[h].envelope && t.handlers[h].target == s.handlers[h].target
    ensures Sourced(t)
  {
    hide CallSourced;
    hide SlotSourced;
    forall h | h in t.handlers ensures HandlerSourced(t, t.handlers[h]) {
      assert HandlerSourced(s, s.handlers[h]);
    }
  }

  lemma BlameKeepsSourced(s: State, target: Option<nat>, fault: Fault)
    requires Sourced(s)
    ensures Sourced(Blame(s, target, fault))
  {
    hide SlotSourced;
    var t := Blame(s, target, fault);
    forall h | h in t.handlers ensures HandlerSourced(t, t.handlers[h]) {
      assert HandlerSourced(s, s.handlers[h]);
    }
  }

  lemma AffectedSourced(k: Call, kind: Kind, heard: set<(string, string)>)
    requires CallSourced(k, heard) && (kind.ResultKind? ==> (k.id, kind.payload) in heard)
    ensures CallSourced(Affected(k, kind), heard) && Affected(k, kind).id == k.id
  {
  }

  lemma ActsKeepsSourced(s: State, h: nat)
    requires h in s.handlers && Sourced(s)
    ensures Sourced(Acts(s, h))
  {
    var t, target, kind := Acts(s, h), s.handlers[h].target, s.handlers[h].envelope.kind;
    assert HandlerSourced(s, s.handlers[h]);
    if target.Some? {
      assert CallSourced(s.calls[target.value], s.heard);
      AffectedSourced(s.calls[target.value], kind, s.heard);
    }
    hide CallSourced;
    hide SlotSourced;
    hide Affected;
    forall k | k in t.handlers ensures HandlerSourced(t, t.handlers[k]) {
      assert HandlerSourced(s, s.handlers[k]);
    }
  }

  lemma SetFrom(c: seq<Slot>, id: string, v: Reply, now: real, ttl: real, capacity: nat)
    requires capacity > 0
    ensures forall x :: x in Set(c, id, v, now, ttl, capacity) ==> x in c || x == Slot(id, now, v)
  {
    UnexpiredFrom(c, now, ttl);
    assert forall x :: x in Room(c, now, ttl, capacity) ==> x in c;
  }

  lemma {:induction false} UnexpiredFrom(c: seq<Slot>, now: real, ttl: real)
    ensures forall x :: x in Unexpired(c, now, ttl) ==> x in c
  {
    if c != [] { UnexpiredFrom(c[..|c| - 1], now, ttl); }
  }

  lemma StoreKeepsSourced(s: State, h: nat, now: real)
    requires Enabled(s, Store(h, now)) && Sourced(s)
    ensures Sourced(Step(s, Store(h, now)))
  {
    var t, e := Step(s, Store(h, now)), s.handlers[h].envelope;
    assert HandlerSourced(s, s.handlers[h]);
    var reply := if e.kind.ResultKind? then Success(e.kind.payload)
                 else if e.kind.ErrorKind? then Failure(e.kind.fault) else Failure(RAISED);
    SetFrom(s.cache, e.id, reply, now, CACHE_TTL, CACHE_CAPACITY);
    hide Set;
    assert SlotSourced(Slot(e.id, now, reply), s.heard);
    SameSources(s, t.(cache := s.cache));
    hide SlotSourced;
    hide CallSourced;
    forall k | k in t.handlers ensures HandlerSourced(t, t.handlers[k]) {
      assert HandlerSourced(s, s.handlers[k]);
    }
  }

  lemma HearKeepsSourced(s: State, h: nat, e: Envelope)
    requires Enabled(s, Hear(h, e)) && Sourced(s) && Tied(s)
    ensures Sourced(Step(s, Hear(h, e)))
  {
    var t := Step(s, Hear(h, e));
    forall k | k in t.handlers ensures HandlerSourced(t, t.handlers[k]) {
      if k != h { assert HandlerSourced(s, s.handlers[k]); }
    }
  }

  lemma GetFrom(c: seq<Slot>, id: string, now: real, ttl: real)
    ensures forall x :: x in Get(c, id, now, ttl).0 ==> x in c
    ensures Get(c, id, now, ttl).1.Some? ==> exists x :: x in c && x.id == id && x.value == Get(c, id, now, ttl).1.value
  {
    var i := Place(c, id);
    if i < |c| { assert c[i] in c; }
  }

  lemma CallKeepsSourced(s: State, m: Move)
    requires Enabled(s, m) && OfCall(m) && Sourced(s)
    ensures Sourced(Step(s, m))
  {
    CallStep(s, m);
    var t := Step(s, m);
    if m.Begin? { GetFrom(s.cache, m.id, m.now, CACHE_TTL); }
    hide Get;
    assert CallSourced(t.calls[m.c], t.heard);
    assert forall x :: x in t.cache ==> x in s.cache;
    hide Step;
    hide CallSourced;
    hide SlotSourced;
    forall h | h in t.handlers ensures HandlerSourced(t, t.handlers[h]) {
      assert HandlerSourced(s, s.handlers[h]);
    }
  }

  // ---- Whole runs ---------------------------------------------------------------------------

  function Start(max: nat): State { State(max, max, map[], map[], Disconnected, [], map[], {}, {}, None, {}) }

  predicate Legal(s: State, ms: seq<Move>)
    decreases |ms|
  {
    ms == [] || (Enabled(s, ms[0]) && Legal(Step(s, ms[0]), ms[1..]))
  }

  function After(s: State, ms: seq<Move>): State
    requires Legal(s, ms)
    decreases |ms|
  {
    if ms == [] then s else After(Step(s, ms[0]), ms[1..])
  }

  predicate Orderly(s: State) { Counted(s) && Tied(s) && BusyMeansWork(s) && Sourced(s) }

  lemma {:induction false} RunsAreOrderly(s: State, ms: seq<Move>)
    requires Orderly(s) && Legal(s, ms)
    ensures Orderly(After(s, ms)) && After(s, ms).max == s.max
    decreases |ms|
  {
    if ms != [] {
      var t := Step(s, ms[0]);
      StepKeepsCounted(s, ms[0]);
      StepKeepsTied(s, ms[0]);
      StepKeepsBusy(s, ms[0]);
      StepKeepsSourced(s, ms[0]);
      if OfCall(ms[0]) { CallStep(s, ms[0]); } else { OtherStep(s, ms[0]); }
      assert Orderly(t) && t.max == s.max;
      assert Legal(t, ms[1..]) && After(s, ms) == After(t, ms[1..]);
      hide *;
      RunsAreOrderly(t, ms[1..]);
    }
  }

  lemma {:induction false} DistinctCalls(ids: set<string>, pending: map<string, nat>, holders: set<nat>)
    requires ids <= pending.Keys && forall id :: id in ids ==> pending[id] in holders
    requires forall a, b :: a in ids && b in ids && a != b ==> pending[a] != pending[b]
    ensures |ids| <= |holders|
    decreases |ids|
  {
    if ids != {} {
      var id :| id in ids;
      DistinctCalls(ids - {id}, pending, holders - {pending[id]});
    }
  }

  /** Over every interleaving: permits are conserved, no more commands are pending than permits are
      held and never more than the limit, a busy mode means that some call still holds its permit,
      and every success told is the payload of a RESULT envelope of that very command. */
  lemma EveryInterleaving(max: nat, ms: seq<Move>)
    requires Legal(Start(max), ms)
    ensures var s := After(Start(max), ms);
      && s.permits + |Holders(s)| == max
      && |s.pending| <= |Holders(s)| <= max
      && (s.mode == Busy ==> Holders(s) != {})
      && (forall c, v :: c in s.calls && s.calls[c].phase == Returned(Success(v)) ==> (s.calls[c].id, v) in s.heard)
  {
    assert Orderly(Start(max)) by { assert Holders(Start(max)) == {}; }
    RunsAreOrderly(Start(max), ms);
    var s := After(Start(max), ms);
    hide After;
    hide Legal;
    forall id | id in s.pending ensures s.pending[id] in Holders(s) {}
    DistinctCalls(s.pending.Keys, s.pending, Holders(s));
    assert |s.pending| == |s.pending.Keys|;
    if s.mode == Busy {
      var c :| c in s.calls && MayPend(s.calls[c].phase);
      assert c in Holders(s);
    }
    forall c, v | c in s.calls && s.calls[c].phase == Returned(Success(v)) ensures (s.calls[c].id, v) in s.heard {
      assert CallSourced(s.calls[c], s.heard);
    }
  }

  /** When no command is sent two different results, as by an extension that answers each command
      once, whatever one caller is told of success any other is told too, and a cached success is
      that same success. */
  lemma SuccessesAgree(max: nat, ms: seq<Move>, c: nat, d: nat, v: string, w: string)
    requires Legal(Start(max), ms)
    requires forall id, x, y :: (id, x) in After(Start(max), ms).heard && (id, y) in After(Start(max), ms).heard ==> x == y
    requires var s := After(Start(max), ms);
      && c in s.calls && s.calls[c].phase == Returned(Success(v))
      && ((d in s.calls && s.calls[d].id == s.calls[c].id && s.calls[d].phase == Returned(Success(w)))
          || exists x :: x in s.cache && x.id == s.calls[c].id && x.value == Success(w))
    ensures v == w
  {
    assert Orderly(Start(max)) by { assert Holders(Start(max)) == {}; }
    RunsAreOrderly(Start(max), ms);
    var s := After(Start(max), ms);
    hide After;
    hide Legal;
    hide Counted;
    assert CallSourced(s.calls[c], s.heard);
    if d in s.calls { assert CallSourced(s.calls[d], s.heard); }
  }

  // ---- The reset ----------------------------------------------------------------------------

  // The caller has not yet read its pending record.
  predicate Undecided(p: Phase) { ReplyOf(p).None? }

  predicate Doomed(s: State, c: nat) {
    c in s.calls && s.calls[c].phase != Checking && s.calls[c].phase != Admitted
    && (if Undecided(s.calls[c].phase) then s.calls[c].error.Some? else ReplyOf(s.calls[c].phase).value.Failure?)
  }

  lemma StepKeepsDoomed(s: State, m: Move, c: nat)
    requires Enabled(s, m) && Doomed(s, c)
    ensures Doomed(Step(s, m), c)
  {
    if OfCall(m) {
      CallStep(s, m);
      hide Get;
    } else {
      hide Set;
    }
  }

  /** Once a pending command has been aborted, its caller is never told of success, whatever
      envelopes still arrive. */
  lemma {:induction false} AbortedNeverSucceeds(s: State, ms: seq<Move>, c: nat)
    requires Legal(s, ms) && Doomed(s, c)
    ensures Doomed(After(s, ms), c)
    decreases |ms|
  {
    if ms != [] {
      StepKeepsDoomed(s, ms[0], c);
      AbortedNeverSucceeds(Step(s, ms[0]), ms[1..], c);
    }
  }

  /** The steps that take the lease away with a reset: takeover, the owner's own unregistering, and
      rotation. */
  predicate Resets(s: State, m: Move) {
    match m
    case Join(conn, takeover) => s.owner.Some? && s.owner != Some(conn) && (takeover || !Live(s))
    case Leave(conn) => s.owner == Some(conn)
    case Rotate => true
    case _ => false
  }

  /** A reset empties the pending table and leaves every command that was in it to be aborted;
      aborting wakes its caller with a retryable error, and a caller not yet past reading it will
      be told of failure. */
  lemma ResetAborts(s: State, m: Move, c: nat)
    requires Tied(s) && Enabled(s, m) && Resets(s, m)
    ensures Step(s, m).pending == map[] && s.pending.Values <= Step(s, m).aborting
    ensures Enabled(Step(s, m), Abort(c)) ==>
      var t := Step(Step(s, m), Abort(c));
      t.calls[c].event && t.calls[c].error == Some(ABORTED) && ABORTED.retryable
      && (Undecided(t.calls[c].phase) && t.calls[c].phase != Checking && t.calls[c].phase != Admitted ==> Doomed(t, c))
  {
  }

  // On its way to being aborted, or aborted.
  predicate BeingAborted(s: State, c: nat) {
    c in s.calls && (c in s.aborting || (s.calls[c].event && s.calls[c].error.Some?))
  }

  lemma StepKeepsBeingAborted(s: State, m: Move, c: nat)
    requires Enabled(s, m) && BeingAborted(s, c)
    ensures BeingAborted(Step(s, m), c)
  {
    if OfCall(m) {
      CallStep(s, m);
      hide Get;
    } else {
      hide Set;
    }
  }

  lemma {:induction false} StaysBeingAborted(s: State, ms: seq<Move>, c: nat)
    requires Legal(s, ms) && BeingAborted(s, c)
    ensures BeingAborted(After(s, ms), c)
    decreases |ms|
  {
    if ms != [] {
      StepKeepsBeingAborted(s, ms[0], c);
      StaysBeingAborted(Step(s, ms[0]), ms[1..], c);
    }
  }

  /** Over every run from a takeover, the owner's leaving or a rotation on: once the reset has got to
      it, every command that was pending has its caller woken with an error. */
  lemma EveryPendingIsAborted(s: State, m: Move, ms: seq<Move>, id: string)
    requires Orderly(s) && Enabled(s, m) && Resets(s, m) && Legal(Step(s, m), ms) && id in s.pending
    ensures var t, c := After(Step(s, m), ms), s.pending[id];
      c in t.calls && (c !in t.aborting ==> t.calls[c].event && t.calls[c].error.Some?)
  {
    assert s.pending[id] in s.pending.Values;
    assert BeingAborted(Step(s, m), s.pending[id]);
    StaysBeingAborted(Step(s, m), ms, s.pending[id]);
    hide After;
    hide Legal;
  }

  // The caller of a call in these phases has still to read its pending record.
  predicate Waits(p: Phase) { p.Registered? || p.Sent? || p == Woken(true) || p == Settled(true) }

  // The envelope was looked up while the call was pending, and would wake its caller with something
  // other than a retryable error.
  predicate MaySpoil(h: Handler, c: nat) {
    !h.applied && h.target == Some(c)
    && match h.envelope.kind
       case ResultKind(_) => true
       case ErrorKind(f) => !f.retryable
       case ApiBlockedKind => true
       case _ => false
  }

  predicate RetryableSoFar(k: Call) {
    && (k.error.Some? ==> k.error.value.retryable)
    && (k.event || k.phase == Woken(true) || k.phase == Settled(true) ==> k.error.Some?)
  }

  predicate Unspoilt(s: State, c: nat) { forall h :: h in s.handlers ==> !MaySpoil(s.handlers[h], c) }

  /** All that the caller can still be told is a retryable failure. */
  predicate WillBeRetryable(s: State, c: nat) {
    && c in s.calls && !s.calls[c].phase.Checking? && !s.calls[c].phase.Admitted? && !s.calls[c].phase.Holding?
    && (forall id :: id in s.pending ==> s.pending[id] != c)
    && (Waits(s.calls[c].phase) ==> RetryableSoFar(s.calls[c]) && Unspoilt(s, c))
    && (ReplyOf(s.calls[c].phase).Some? ==> Retryable(ReplyOf(s.calls[c].phase).value))
  }

  lemma CallKeepsRetryable(s: State, m: Move, c: nat)
    requires Enabled(s, m) && OfCall(m) && WillBeRetryable(s, c)
    ensures WillBeRetryable(Step(s, m), c)
  {
    CallStep(s, m);
    hide Get;
    hide MaySpoil;
  }

  lemma AffectedRetryable(h: Handler, k: Call, c: nat)
    requires RetryableSoFar(k) && !h.applied && h.target == Some(c) && !MaySpoil(h, c)
    ensures RetryableSoFar(Affected(k, h.envelope.kind))
  {
  }

  lemma ActsOnRecord(s: State, h: nat, c: nat)
    requires h in s.handlers && !s.handlers[h].applied && c in s.calls
    ensures c in Acts(s, h).calls
    ensures RetryableSoFar(s.calls[c]) && !MaySpoil(s.handlers[h], c) ==> RetryableSoFar(Acts(s, h).calls[c])
  {
    if RetryableSoFar(s.calls[c]) && !MaySpoil(s.handlers[h], c) && s.handlers[h].target == Some(c) {
      AffectedRetryable(s.handlers[h], s.calls[c], c);
    }
    hide RetryableSoFar;
    hide MaySpoil;
    hide Affected;
  }

  lemma ActsOnHandlers(s: State, h: nat, c: nat)
    requires h in s.handlers && Unspoilt(s, c)
    ensures Unspoilt(Acts(s, h), c)
  {
    var t := Acts(s, h);
    assert forall k :: k in t.handlers ==> k in s.handlers && (t.handlers[k] == s.handlers[k] || t.handlers[k].applied);
  }

  lemma ActsKeepsRetryable(s: State, h: nat, c: nat)
    requires h in s.handlers && !s.handlers[h].applied && WillBeRetryable(s, c)
    ensures WillBeRetryable(Acts(s, h), c)
  {
    ActsCalm(s, h);
    ActsOnRecord(s, h, c);
    if Waits(s.calls[c].phase) { ActsOnHandlers(s, h, c); }
    assert Waits(s.calls[c].phase) ==> !MaySpoil(s.handlers[h], c);
    hide Unspoilt;
    hide Acts;
    hide MaySpoil;
    hide RetryableSoFar;
  }

  lemma StepKeepsRetryable(s: State, m: Move, c: nat)
    requires Enabled(s, m) && WillBeRetryable(s, c)
    ensures WillBeRetryable(Step(s, m), c)
  {
    if OfCall(m) {
      CallKeepsRetryable(s, m, c);
    } else if m.Apply? {
      ActsKeepsRetryable(s, m.h, c);
    } else {
      hide Set;
      hide Acts;
    }
    hide *;
  }

  lemma {:induction false} StaysRetryable(s: State, ms: seq<Move>, c: nat)
    requires Legal(s, ms) && WillBeRetryable(s, c)
    ensures WillBeRetryable(After(s, ms), c)
    decreases |ms|
  {
    if ms != [] {
      StepKeepsRetryable(s, ms[0], c);
      hide WillBeRetryable;
      hide Step;
      hide Enabled;
      StaysRetryable(Step(s, ms[0]), ms[1..], c);
    }
  }

  /** Whatever happens from here on, a caller that returns is told of a retryable failure. */
  ghost predicate EndsRetryable(s: State, c: nat) {
    forall ms :: Legal(s, ms) ==> c in After(s, ms).calls && ToldRetryable(After(s, ms).calls[c])
  }

  predicate ToldRetryable(k: Call) { k.phase.Returned? ==> Retryable(k.phase.reply) }

  lemma LastSteps(s: State, c: nat)
    requires c in s.calls
    ensures At(s, c, Sent) && s.calls[c].event ==> Enabled(s, Wake(c)) && At(Step(s, Wake(c)), c, Woken(true))
    ensures At(s, c, Woken(true)) ==> Enabled(s, Settle(c)) && At(Step(s, Settle(c)), c, Settled(true))
    ensures At(s, c, Settled(true)) ==> Enabled(s, Decide(c)) && At(Step(s, Decide(c)), c, Decided(Told(s.calls[c], true)))
  {
  }

  lemma LastStepsKeepRecord(s: State, m: Move, c: nat)
    requires Enabled(s, m) && m in {Wake(c), Settle(c)}
    ensures c in Step(s, m).calls && Told(Step(s, m).calls[c], true) == Told(s.calls[c], true)
  {
  }

  lemma Returning(s: State, c: nat, r: Reply) returns (ms: seq<Move>)
    requires At(s, c, Decided(r))
    ensures Legal(s, ms) && At(After(s, ms), c, Returned(r))
  {
    var t := Step(s, Clean(c));
    var u := Step(t, Release(c));
    assert Enabled(s, Clean(c)) && Enabled(t, Release(c)) && At(u, c, Returned(r));
    ms := [];
    assert Legal(u, ms) && After(u, ms) == u;
    hide *;
    ms := Before(t, Release(c), ms);
    ms := Before(s, Clean(c), ms);
  }

  // The rest of a call whose caller has been woken.
  lemma Finishing(s: State, c: nat) returns (ms: seq<Move>)
    requires At(s, c, Sent) && s.calls[c].event
    ensures Legal(s, ms) && At(After(s, ms), c, Returned(Told(s.calls[c], true)))
  {
    assert c in s.calls;
    LastSteps(s, c);
    LastStepsKeepRecord(s, Wake(c), c);
    var t := Step(s, Wake(c));
    LastSteps(t, c);
    LastStepsKeepRecord(t, Settle(c), c);
    var u := Step(t, Settle(c));
    LastSteps(u, c);
    hide *;
    ms := Returning(Step(u, Decide(c)), c, Told(s.calls[c], true));
    ms := Before(u, Decide(c), ms);
    ms := Before(t, Settle(c), ms);
    ms := Before(s, Wake(c), ms);
  }

  // An envelope looked up before the reset acts, and the caller reads what it left.
  lemma Spoiling(s: State, c: nat, h: nat) returns (ms: seq<Move>)
    requires c in s.calls && s.calls[c].phase in {Registered, Sent} && !s.calls[c].event && s.calls[c].error.None?
    requires h in s.handlers && MaySpoil(s.handlers[h], c)
    ensures Legal(s, ms) && c in After(s, ms).calls && !ToldRetryable(After(s, ms).calls[c])
  {
    var t := Step(s, Apply(h));
    assert t.calls[c].phase == s.calls[c].phase && t.calls[c].event && !Retryable(Told(t.calls[c], true));
    if s.calls[c].phase == Sent {
      hide *;
      ms := ToldOtherwise(t, c);
    } else {
      var u := Step(t, Transmit(c));
      assert At(u, c, Sent) && u.calls[c].event && Told(u.calls[c], true) == Told(t.calls[c], true);
      hide *;
      ms := ToldOtherwise(u, c);
      ms := Before(t, Transmit(c), ms);
    }
    ms := Before(s, Apply(h), ms);
  }

  lemma ToldOtherwise(s: State, c: nat) returns (ms: seq<Move>)
    requires At(s, c, Sent) && s.calls[c].event && !Retryable(Told(s.calls[c], true))
    ensures Legal(s, ms) && c in After(s, ms).calls && !ToldRetryable(After(s, ms).calls[c])
  {
    ms := Finishing(s, c);
    hide Legal;
    hide After;
  }

  /** Takeover, the owner's leaving and rotation complete a pending command with a retryable failure:
      of a call that nothing has woken yet that is certain, whatever still arrives and however the
      steps interleave, exactly if its caller is no longer waiting, or no handler has looked its
      command up for a result or for an error that is not retryable, and not yet acted on it. */
  lemma ResetIsRetryableExactlyWhen(s: State, m: Move, id: string)
    requires Orderly(s) && Enabled(s, m) && Resets(s, m) && id in s.pending
    requires !s.calls[s.pending[id]].event && s.calls[s.pending[id]].error.None?
    ensures var c := s.pending[id];
      EndsRetryable(Step(s, m), c) <==> (s.calls[c].phase in {Registered, Sent} ==> Unspoilt(s, c))
  {
    var c, t := s.pending[id], Step(s, m);
    assert c in s.calls && MayPend(s.calls[c].phase) && CallSourced(s.calls[c], s.heard);
    assert t.calls == s.calls && t.handlers == s.handlers && t.pending == map[];
    if s.calls[c].phase in {Registered, Sent} && !Unspoilt(s, c) {
      var h :| h in s.handlers && MaySpoil(s.handlers[h], c);
      hide MaySpoil;
      var ms := Spoiling(t, c, h);
      hide *;
      NotRetryable(t, c, ms);
    } else {
      assert WillBeRetryable(t, c);
      hide *;
      RetryableInTheEnd(t, c);
    }
  }

  lemma NotRetryable(s: State, c: nat, ms: seq<Move>)
    requires Legal(s, ms) && c in After(s, ms).calls && !ToldRetryable(After(s, ms).calls[c])
    ensures !EndsRetryable(s, c)
  {
    hide Legal;
    hide After;
  }

  lemma RetryableInTheEnd(s: State, c: nat)
    requires WillBeRetryable(s, c)
    ensures EndsRetryable(s, c)
  {
    forall ms | Legal(s, ms) ensures c in After(s, ms).calls && ToldRetryable(After(s, ms).calls[c]) {
      StaysRetryable(s, ms, c);
    }
  }

  /** Of the steps that take the lease from its owner, these and no others leave nothing pending:
      revoking the token and stopping the gateway leave every pending command where it is. */
  lemma LeaseLossResetsExactlyWhen(s: State, m: Move)
    requires Enabled(s, m) && s.owner.Some? && Step(s, m).owner != s.owner
    ensures Step(s, m).pending == (if Resets(s, m) then map[] else s.pending)
    ensures Step(s, m).aborting == (if Resets(s, m) then s.aborting + s.pending.Values else s.aborting)
    ensures !Resets(s, m) <==> m.Drop?
  {
    OwnerChangesOnly(s, m);
    hide Get;
    hide Set;
  }

  /** Revoking the token and stopping the gateway take the lease away without a reset: no owner does
      not mean nothing pending. */
  lemma RevokedOwnerLeavesPending() returns (ms: seq<Move>)
    ensures Legal(Start(10), ms)
    ensures After(Start(10), ms).owner == None && "x" in After(Start(10), ms).pending
  {
    var s0 := Start(10);
    var s1 := Owned(Connected, map[], 10, map[]);
    var s2, s3, s4 := CallAt(Checking, 10), CallAt(Admitted, 10), CallAt(Holding, 9);
    var s5 := CallAt(Registered, 9).(pending := map["x" := 7], mode := Busy);
    EarlySteps();
    LateSteps();
    ms := [];
    assert Legal(s5.(owner := None), ms) && After(s5.(owner := None), ms) == s5.(owner := None);
    hide *;
    ms := Before(s5, Drop, ms);
    ms := Before(s4, Register(7), ms);
    ms := Before(s3, Acquire(7), ms);
    ms := Before(s2, Admit(7), ms);
    ms := Before(s1, Begin(7, "x", false, 0.0), ms);
    ms := Before(s0, Join(1, false), ms);
  }

  function Owned(mode: Mode, calls: map<nat, Call>, permits: nat, pending: map<string, nat>): State {
    Start(10).(owner := Some(1), mode := mode, calls := calls, permits := permits, pending := pending)
  }

  // The first call, for command "x", while the owner is there.
  function CallAt(p: Phase, permits: nat): State {
    Owned(Connected, map[7 := Call("x", false, p, None, None, false, false, None)], permits, map[])
  }

  lemma EarlySteps()
    ensures Step(Start(10), Join(1, false)) == Owned(Connected, map[], 10, map[])
    ensures Step(Owned(Connected, map[], 10, map[]), Begin(7, "x", false, 0.0)) == CallAt(Checking, 10)
    ensures Enabled(CallAt(Checking, 10), Admit(7)) && Step(CallAt(Checking, 10), Admit(7)) == CallAt(Admitted, 10)
  {
  }

  lemma LateSteps()
    ensures Enabled(CallAt(Admitted, 10), Acquire(7)) && Step(CallAt(Admitted, 10), Acquire(7)) == CallAt(Holding, 9)
    ensures Enabled(CallAt(Holding, 9), Register(7))
    ensures Step(CallAt(Holding, 9), Register(7)) == CallAt(Registered, 9).(pending := map["x" := 7], mode := Busy)
    ensures var s := CallAt(Registered, 9).(pending := map["x" := 7], mode := Busy); Step(s, Drop) == s.(owner := None)
  {
  }

  lemma Before(s: State, m: Move, rest: seq<Move>) returns (ms: seq<Move>)
    requires Enabled(s, m) && Legal(Step(s, m), rest)
    ensures ms == [m] + rest && Legal(s, ms) && After(s, ms) == After(Step(s, m), rest)
  {
    ms := [m] + rest;
    assert ms[1..] == rest;
  }

  // ---- The lease ----------------------------------------------------------------------------

  /** The owner changes only when a connection registers where there is no live owner, when one
      takes over explicitly, when the owner itself unregisters, or by rotation, revocation or
      stopping. */
  lemma OwnerChangesOnly(s: State, m: Move)
    requires Enabled(s, m)
    ensures Step(s, m).owner != s.owner ==>
      match m
      case Join(conn, takeover) => Step(s, m).owner == Some(conn) && (takeover || !Live(s))
      case Leave(conn) => Step(s, m).owner == None && s.owner == Some(conn)
      case Rotate => Step(s, m).owner == None
      case Drop => Step(s, m).owner == None
      case _ => false
  {
    hide Get;
    hide Set;
  }

  // What can end a connection's lease while the connection itself stays open.
  predicate Ousts(m: Move, conn: nat) { (m.Join? && m.takeover && m.conn != conn) || m.Rotate? || m.Drop? }

  /** Over every run the owner keeps the lease, and no command is reset, for as long as it is open
      and nobody takes over explicitly, rotates, revokes or stops; however many others connect,
      leave late or close. */
  lemma {:induction false} LeaseIsKept(s: State, ms: seq<Move>, conn: nat)
    requires Legal(s, ms) && s.owner == Some(conn) && conn !in After(s, ms).closed
    requires forall m :: m in ms ==> !Ousts(m, conn)
    ensures After(s, ms).owner == Some(conn) && After(s, ms).aborting <= s.aborting
    decreases |ms|
  {
    if ms != [] {
      var t := Step(s, ms[0]);
      ClosedForGood(t, ms[1..]);
      assert conn !in t.closed && ms[0] in ms;
      OneStepKeepsLease(s, ms[0], conn);
      hide Step;
      LeaseIsKept(t, ms[1..], conn);
    }
  }

  lemma OneStepKeepsLease(s: State, m: Move, conn: nat)
    requires Enabled(s, m) && s.owner == Some(conn) && conn !in Step(s, m).closed && !Ousts(m, conn)
    ensures Step(s, m).owner == Some(conn) && Step(s, m).aborting <= s.aborting
  {
    StepKeepsClosed(s, m);
    hide Get;
    hide Set;
  }

  lemma StepKeepsClosed(s: State, m: Move)
    requires Enabled(s, m)
    ensures s.closed <= Step(s, m).closed
  {
    hide Get;
    hide Set;
  }

  lemma {:induction false} ClosedForGood(s: State, ms: seq<Move>)
    requires Legal(s, ms)
    ensures s.closed <= After(s, ms).closed
    decreases |ms|
  {
    if ms != [] {
      StepKeepsClosed(s, ms[0]);
      hide Step;
      ClosedForGood(Step(s, ms[0]), ms[1..]);
    }
  }

  /** A stale connection's late unregistering closes that connection and does nothing else: the new
      owner, the mode and the pending commands stay. A second client that does not ask to take over
      from a live owner changes nothing. */
  lemma StaleConnectionIsHarmless(s: State, conn: nat, other: nat)
    requires s.owner != Some(conn)
    ensures Step(s, Leave(conn)) == s.(closed := s.closed + {conn})
    ensures conn != other && s.owner == Some(other) && Live(s) ==> Live(Step(s, Leave(conn)))
    ensures Live(s) ==> Step(s, Join(conn, false)) == s
  {
  }

  // ---- The objects --------------------------------------------------------------------------

  /** The pending records that a finished reset has aborted. */
  function Aborted(calls: map<nat, Call>, cs: set<nat>): map<nat, Call> {
    map c | c in calls :: if c in cs then calls[c].(error := Some(ABORTED), event := true) else calls[c]
  }

  // A reset run to its end.
  function ResetDone(s: State): State { s.(calls := Aborted(s.calls, s.aborting), aborting := {}) }

  lemma ResetDoneKeepsTied(s: State)
    requires Tied(s)
    ensures Tied(ResetDone(s)) && (s.aborting == {} ==> ResetDone(s) == s)
  {
    if s.aborting == {} { assert Aborted(s.calls, {}) == s.calls; }
  }

  // The handling of an envelope with nothing in between.
  function Handled(s: State, e: Envelope, now: real): State {
    var target := if e.id in s.pending then Some(s.pending[e.id]) else None;
    s.(calls := CallsAfter(s.calls, target, e.kind), mode := ModeAfter(s.mode, e.kind),
       heard := if e.kind.ResultKind? then s.heard + {(e.id, e.kind.payload)} else s.heard,
       cache := if ToStore(s.calls, target, e.kind)
                then Set(s.cache, e.id, if e.kind.ResultKind? then Success(e.kind.payload) else Failure(e.kind.fault),
                         now, CACHE_TTL, CACHE_CAPACITY)
                else s.cache)
  }

  /** Undisturbed, the steps of handling an envelope come to that. */
  lemma HandledInSteps(s: State, h: nat, e: Envelope, now: real)
    requires h !in s.handlers && Tied(s)
    ensures var t := Acts(Hears(s, h, e), h);
      Handled(s, e, now) == if h in t.handlers then Stores(t, h, now) else t
  {
    hide Set;
    hide Tied;
    var t := Hears(s, h, e);
    assert t.handlers - {h} == s.handlers;
    assert t.handlers[h := t.handlers[h].(applied := true)] - {h} == s.handlers;
    if e.id in s.pending { assert s.pending[e.id] in s.calls by { TiedTo(s, e.id); } }
  }

  lemma TiedTo(s: State, id: string)
    requires Tied(s) && id in s.pending
    ensures s.pending[id] in s.calls
  {
  }

  lemma TiedElsewhere(s: State, t: State)
    requires Tied(s) && t.pending == s.pending && t.calls == s.calls
    ensures Tied(t)
  {
  }

  // Which connections are closed makes no difference to it.
  lemma TiedWithout(s: State, closed: set<nat>)
    ensures Tied(s.(closed := closed)) <==> Tied(s)
  {
  }

  /** The transport and the gateway that owns it. Each method is one atomic step, but for those that
      the source runs to their end under the gateway's lock. */
  class BrowserGateway {
    const max: nat
    var permits: nat
    var pending: map<string, nat>
    var calls: map<nat, Call>
    var mode: Mode
    var owner: Option<nat>
    var closed: set<nat>
    var idempotencyCache: seq<Slot>
    ghost var heard: set<(string, string)>

    constructor (max: nat)
      ensures View() == Start(max)
    {
      this.max, permits, pending, calls, mode, owner, closed := max, max, map[], map[], Disconnected, None, {};
      idempotencyCache, heard := [], {};
    }

    // Between two methods no reset is under way and no envelope is being handled.
    ghost function View(): State
      reads this
    {
      State(max, permits, pending, calls, mode, idempotencyCache, map[], {}, heard, owner, closed)
    }

    method SetState(mode: Mode)
      requires mode != Busy
      modifies this`mode
      ensures View() == Step(old(View()), SetMode(mode))
    {
      this.mode := mode;
    }

    /** A call that has its permit enters the pending table. */
    method EnterPending(c: nat)
      requires Enabled(View(), Register(c))
      modifies this`pending, this`calls, this`mode
      ensures View() == Step(old(View()), Register(c))
    {
      pending := pending[calls[c].id := c];
      calls := calls[c := calls[c].(phase := Registered)];
      if mode == Connected { mode := Busy; }
    }

    method LeavePending(c: nat)
      requires Enabled(View(), Settle(c)) || Enabled(View(), Clean(c))
      modifies this`pending, this`calls, this`mode
      ensures View() == Step(old(View()), if old(calls)[c].phase.Woken? then Settle(c) else Clean(c))
    {
      pending := pending - {calls[c].id};
      if mode == Busy && pending == map[] { mode := Connected; }
      var p := calls[c].phase;
      calls := calls[c := calls[c].(phase := if p.Woken? then Settled(p.finished) else Cleaned(p.reply))];
    }

    method Fail(c: nat, fault: Fault)
      requires c in calls
      modifies this`calls
      ensures View() == Blame(old(View()), Some(c), fault)
    {
      calls := calls[c := calls[c].(error := Some(fault), event := true)];
    }

    /** The whole handling of one envelope, undisturbed. */
    method HandleInboundEnvelope(e: Envelope, now: real)
      requires Tied(View())
      modifies this`calls, this`mode, this`idempotencyCache, this`heard
      ensures View() == Handled(old(View()), e, now)
    {
      hide Set;
      var target := if e.id in pending then Some(pending[e.id]) else None;
      match e.kind
      case ResultKind(v) =>
        heard := heard + {(e.id, v)};
        if target.Some? {
          calls := calls[target.value := calls[target.value].(result := Some(v), event := true)];
          idempotencyCache := Set(idempotencyCache, e.id, Success(v), now, CACHE_TTL, CACHE_CAPACITY);
        }
      case ErrorKind(f) =>
        if target.Some? {
          Fail(target.value, f);
          idempotencyCache := Set(idempotencyCache, e.id, Failure(f), now, CACHE_TTL, CACHE_CAPACITY);
        }
      case AcceptedKind =>
        if target.Some? { calls := calls[target.value := calls[target.value].(accepted := true)]; }
      case ProgressKind(p) =>
        if target.Some? { calls := calls[target.value := calls[target.value].(progress := p)]; }
      case VerificationRequired =>
        SetState(AwaitingVerification);
        if target.Some? { Fail(target.value, PAUSED); }
      case VerificationResolved =>
        if mode in {AwaitingVerification, ApiBlocked} { mode := Connected; }
      case ApiBlockedKind =>
        SetState(ApiBlocked);
        if target.Some? { Fail(target.value, BLOCKED); }
      case OtherKind =>
    }

    /** Empties the pending table and then aborts, one by one, what was in it. */
    method ResetPending()
      requires Tied(View())
      modifies this`pending, this`calls
      ensures View() == old(View()).(pending := map[], calls := Aborted(old(calls), old(pending).Values))
    {
      var todo := pending.Values;
      pending := map[];
      assert Aborted(calls, old(pending).Values - todo) == calls;
      while todo != {}
        invariant pending == map[] && todo <= old(pending).Values <= calls.Keys
        invariant calls == Aborted(old(calls), old(pending).Values - todo)
      {
        var c :| c in todo;
        calls := calls[c := calls[c].(error := Some(ABORTED), event := true)];
        todo := todo - {c};
      }
      assert old(pending).Values - {} == old(pending).Values;
      assert calls == Aborted(old(calls), old(pending).Values);
    }

    /** Registers a connection: turned away by a live owner unless it asks to take over. The step of
        the lease, the reset to its end, and the closing of the old owner. */
    method RegisterConnection(conn: nat, takeover: bool) returns (accepted: bool)
      requires Tied(View())
      modifies this`pending, this`calls, this`mode, this`owner, this`closed
      ensures accepted == (takeover || !old(Live(View())))
      ensures Tied(View()) && View() == ResetDone(Step(old(View()), Join(conn, takeover))).(closed := closed)
      ensures closed == old(closed) + if accepted && old(owner) !in {None, Some(conn)} then {old(owner).value} else {}
    {
      StepKeepsTied(View(), Join(conn, takeover));
      ResetDoneKeepsTied(Step(View(), Join(conn, takeover)));
      hide Tied;
      hide Aborted;
      if owner.Some? && owner.value !in closed && !takeover { return false; }
      var prev := owner;
      if prev.Some? && prev != Some(conn) { ResetPending(); }
      owner, mode := Some(conn), Connected;
      if prev.Some? && prev != Some(conn) { closed := closed + {prev.value}; }
      TiedWithout(View(), old(closed));
      return true;
    }

    method UnregisterConnection(conn: nat)
      requires Tied(View())
      modifies this`pending, this`calls, this`mode, this`owner, this`closed
      ensures Tied(View()) && View() == ResetDone(Step(old(View()), Leave(conn)))
    {
      StepKeepsTied(View(), Leave(conn));
      ResetDoneKeepsTied(Step(View(), Leave(conn)));
      ghost var was := View();
      if owner == Some(conn) {
        owner, mode := None, Disconnected;
        TiedElsewhere(was, View());
        hide Tied;
        hide Aborted;
        ResetPending();
      }
      hide Tied;
      hide Aborted;
      closed := closed + {conn};
    }

    method RotateToken()
      requires Tied(View())
      modifies this`pending, this`calls, this`owner, this`closed
      ensures Tied(View()) && View() == ResetDone(Step(old(View()), Rotate)).(closed := closed)
      ensures closed == old(closed) + if old(owner).Some? then {old(owner).value} else {}
    {
      StepKeepsTied(View(), Rotate);
      ResetDoneKeepsTied(Step(View(), Rotate));
      ghost var was := View();
      var conn := owner;
      owner := None;
      TiedElsewhere(was, View());
      hide Tied;
      hide Aborted;
      ResetPending();
      if conn.Some? { closed := closed + {conn.value}; }
      TiedWithout(View(), old(closed));
    }

    method RevokeToken()
      requires Tied(View())
      modifies this`owner, this`closed
      ensures Tied(View()) && View() == Step(old(View()), Drop).(closed := closed)
      ensures closed == old(closed) + if old(owner).Some? then {old(owner).value} else {}
    {
      if owner.Some? { closed := closed + {owner.value}; }
      owner := None;
    }
  }

  function Aborts(cs: seq<nat>): seq<Move> { if cs == [] then [] else [Abort(cs[0])] + Aborts(cs[1..]) }

  /** Aborting is the same in any order: once nothing is left to abort, the steps of a reset have
      come to what the finished reset is. */
  lemma {:induction false} AbortAll(s: State, cs: seq<nat>)
    requires Legal(s, Aborts(cs)) && After(s, Aborts(cs)).aborting == {}
    ensures After(s, Aborts(cs)) == ResetDone(s)
    decreases |cs|
  {
    if cs == [] {
      assert Aborted(s.calls, {}) == s.calls;
    } else {
      var t, rest := Step(s, Abort(cs[0])), cs[1..];
      assert Aborts(cs)[1..] == Aborts(rest);
      AbortFirst(s, cs[0]);
      hide Step;
      hide ResetDone;
      AbortAll(t, rest);
    }
  }

  lemma AbortFirst(s: State, c: nat)
    requires c in s.calls && c in s.aborting
    ensures ResetDone(Step(s, Abort(c))) == ResetDone(s)
  {
    var t := Step(s, Abort(c));
    assert Aborted(t.calls, t.aborting) == Aborted(s.calls, s.aborting);
  }
}
