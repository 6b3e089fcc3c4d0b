/** The extension's command dispatcher: a command ends once, whether by its result, its error, its
    deadline or a cancellation, and answers once. */
module Commands {
  import opened IdempotencyCache
  import Transport

  datatype Sent = Accepted(id: string) | ResultOf(id: string, payload: string) | ErrorOf(id: string, fault: Fault)

  /** The commands in flight, those whose action has not come to its end, the jobs that run, those
      that wait for the user's verification and the one on display, and the envelopes sent. */
  datatype State = State(
    inFlight: set<string>, acting: set<string>, active: set<string>, waiting: set<string>, shown: string,
    seen: set<string>, sent: seq<Sent>)

  datatype Event =
    | Command(id: string)                         // a command envelope; ids are never reused
    | ActionEnds(id: string, outcome: Reply)      // `handleAction` returns or throws
    | Deadline(id: string)                        // the command's own timer
    | Cancel(id: string, target: string)          // a cancel envelope, with an id of its own
    | JobStarts(id: string) | JobEnds(id: string) // the executor's jobs, which can be cancelled too
    | JobWaits(id: string)                        // a job is put aside until the user has verified

  const INITIAL := State({}, {}, {}, {}, "", {}, [])
  const DEADLINE_PASSED := Fault("TIMEOUT", true)
  const CANCELLED := Fault("CANCELLED", false)

  predicate Enabled(s: State, e: Event) {
    match e
    case Command(id) => id !in s.seen
    case ActionEnds(id, _) => id in s.acting
    case JobWaits(id) => id != ""
    case Deadline(_) => true
    case Cancel(id, _) => id !in s.seen
    case _ => true
  }

  function Answer(id: string, outcome: Reply): Sent {
    if outcome.Success? then ResultOf(id, outcome.payload) else ErrorOf(id, outcome.fault)
  }

  function Cancelled(hit: bool): string { if hit then "cancelled" else "nothing to cancel" }

  function Step(s: State, e: Event): State {
    match e
    case Command(id) =>
      s.(inFlight := s.inFlight + {id}, acting := s.acting + {id}, seen := s.seen + {id}, sent := s.sent + [Accepted(id)])
    case ActionEnds(id, outcome) =>
      var t := s.(acting := s.acting - {id});
      if id in s.inFlight then t.(inFlight := s.inFlight - {id}, sent := s.sent + [Answer(id, outcome)]) else t
    case Deadline(id) =>
      if id in s.inFlight then s.(inFlight := s.inFlight - {id}, sent := s.sent + [ErrorOf(id, DEADLINE_PASSED)]) else s
    case Cancel(id, target) =>
      s.(inFlight := s.inFlight - {target}, active := s.active - {target}, waiting := s.waiting - {target},
         shown := if target == s.shown then "" else s.shown, seen := s.seen + {id},
         sent := s.sent + (if target in s.inFlight then [ErrorOf(target, CANCELLED)] else [])
                        + [ResultOf(id, Cancelled(target in s.inFlight || target in s.active))])
    case JobStarts(id) => s.(active := s.active + {id})
    case JobEnds(id) => s.(active := s.active - {id})
    case JobWaits(id) => s.(waiting := s.waiting + {id}, shown := id)
  }

  predicate Terminal(m: Sent) { !m.Accepted? }

  /** How many terminal envelopes an id has been given. */
  function Endings(sent: seq<Sent>, id: string): nat {
    if sent == [] then 0
    else Endings(sent[..|sent| - 1], id) + if Terminal(sent[|sent| - 1]) && sent[|sent| - 1].id == id then 1 else 0
  }

  lemma {:induction false} EndingsAdd(a: seq<Sent>, b: seq<Sent>, id: string)
    ensures Endings(a + b, id) == Endings(a, id) + Endings(b, id)
  {
    if b == [] {
      assert a + b == a;
    } else {
      assert (a + b)[..|a + b| - 1] == a + b[..|b| - 1];
      EndingsAdd(a, b[..|b| - 1], id);
    }
  }

  lemma EndingsOne(m: Sent, id: string)
    ensures Endings([m], id) == if Terminal(m) && m.id == id then 1 else 0
  {
    assert [m][..0] == [];
  }

  /** A command in flight has no ending yet; an id never seen has none; no id has two. */
  ghost predicate EndsOnce(s: State) {
    && s.inFlight <= s.seen
    && (forall id :: id in s.inFlight || id !in s.seen ==> Endings(s.sent, id) == 0)
    && (forall id :: Endings(s.sent, id) <= 1)
  }

  lemma StepKeepsEndsOnce(s: State, e: Event)
    requires EndsOnce(s) && Enabled(s, e)
    ensures EndsOnce(Step(s, e))
  {
    var t := Step(s, e);
    var more := t.sent[|s.sent|..];
    assert t.sent == s.sent + more;
    forall id ensures Endings(t.sent, id) == Endings(s.sent, id) + Endings(more, id) {
      EndingsAdd(s.sent, more, id);
    }
    forall id ensures Endings(more, id) == match e
      case Command(_) => 0
      case ActionEnds(k, _) => if k == id && k in s.inFlight then 1 else 0
      case Deadline(k) => if k == id && k in s.inFlight then 1 else 0
      case Cancel(k, target) => (if target == id && target in s.inFlight then 1 else 0) + (if k == id then 1 else 0)
      case _ => 0
    {
      EndingsOfStep(s, e, id);
    }
    hide Endings;
  }

  lemma EndingsOfStep(s: State, e: Event, id: string)
    ensures Endings(Step(s, e).sent[|s.sent|..], id) == match e
      case Command(_) => 0
      case ActionEnds(k, _) => if k == id && k in s.inFlight then 1 else 0
      case Deadline(k) => if k == id && k in s.inFlight then 1 else 0
      case Cancel(k, target) => (if target == id && target in s.inFlight then 1 else 0) + (if k == id then 1 else 0)
      case _ => 0
  {
    var more := Step(s, e).sent[|s.sent|..];
    match e
    case Command(k) => assert more == [Accepted(k)]; EndingsOne(Accepted(k), id);
    case ActionEnds(k, o) => if k in s.inFlight { assert more == [Answer(k, o)]; EndingsOne(Answer(k, o), id); }
    case Deadline(k) => if k in s.inFlight { assert more == [ErrorOf(k, DEADLINE_PASSED)]; EndingsOne(more[0], id); }
    case Cancel(k, target) =>
      var last := ResultOf(k, Cancelled(target in s.inFlight || target in s.active));
      EndingsOne(last, id);
      if target in s.inFlight {
        assert more == [ErrorOf(target, CANCELLED)] + [last];
        EndingsAdd([ErrorOf(target, CANCELLED)], [last], id);
        EndingsOne(ErrorOf(target, CANCELLED), id);
      } else {
        assert more == [last];
      }
    case _ => assert more == [];
  }

  predicate Legal(es: seq<Event>) {
    es == [] || (Legal(es[..|es| - 1]) && Enabled(After(es[..|es| - 1]), es[|es| - 1]))
  }

  function After(es: seq<Event>): State {
    if es == [] then INITIAL else Step(After(es[..|es| - 1]), es[|es| - 1])
  }

  /** Over every run each id is given at most one terminal envelope, however its action, its timer
      and cancellations race. */
  lemma {:induction false} EveryCommandEndsOnce(es: seq<Event>)
    requires Legal(es)
    ensures EndsOnce(After(es))
  {
    if es != [] {
      EveryCommandEndsOnce(es[..|es| - 1]);
      hide EndsOnce;
      StepKeepsEndsOnce(After(es[..|es| - 1]), es[|es| - 1]);
    }
  }

  lemma {:induction false} EndingCounts(sent: seq<Sent>, i: nat, j: nat)
    requires i < j < |sent| && Terminal(sent[i]) && Terminal(sent[j]) && sent[i].id == sent[j].id
    ensures Endings(sent, sent[i].id) >= 2
  {
    var id := sent[i].id;
    assert sent == sent[..j] + sent[j..] && sent[j..] == [sent[j]] + sent[j + 1..];
    assert sent[..j] == sent[..i] + ([sent[i]] + sent[i + 1..j]);
    EndingsAdd(sent[..j], sent[j..], id);
    EndingsAdd([sent[j]], sent[j + 1..], id);
    EndingsAdd(sent[..i], [sent[i]] + sent[i + 1..j], id);
    EndingsAdd([sent[i]], sent[i + 1..j], id);
    EndingsOne(sent[i], id);
    EndingsOne(sent[j], id);
  }

  lemma OneResult(es: seq<Event>, id: string, x: string, y: string)
    requires Legal(es) && ResultOf(id, x) in After(es).sent && ResultOf(id, y) in After(es).sent
    ensures x == y
  {
    EveryCommandEndsOnce(es);
    var sent := After(es).sent;
    hide After;
    var i :| 0 <= i < |sent| && sent[i] == ResultOf(id, x);
    var j :| 0 <= j < |sent| && sent[j] == ResultOf(id, y);
    if i < j { EndingCounts(sent, i, j); }
    if j < i { EndingCounts(sent, j, i); }
  }

  /** From the extension's dispatcher to the helper's caller: when the RESULT envelopes the helper
      heard are ones the extension sent, in whatever order and however often, a success told and a
      success cached for one command are the same. */
  lemma CachedSuccessIsTheSuccess(es: seq<Event>, max: nat, ms: seq<Transport.Move>, c: nat, v: string, w: string)
    requires Legal(es) && Transport.Legal(Transport.Start(max), ms)
    requires var s := Transport.After(Transport.Start(max), ms);
      && (forall r :: r in s.heard ==> ResultOf(r.0, r.1) in After(es).sent)
      && c in s.calls && s.calls[c].phase == Transport.Returned(Success(v))
      && exists x :: x in s.cache && x.id == s.calls[c].id && x.value == Success(w)
    ensures v == w
  {
    hide *;
    var s := Transport.After(Transport.Start(max), ms);
    forall id, x, y | (id, x) in s.heard && (id, y) in s.heard ensures x == y {
      OneResult(es, id, x, y);
    }
    Transport.SuccessesAgree(max, ms, c, c, v, w);
  }

  // ---- The object ---------------------------------------------------------------------------

  class Dispatcher {
    var inFlight: set<string>
    var activeJobs: set<string>
    var pendingVerificationJobs: set<string>
    var verificationInfo: string  // the job on display, or none
    var sent: seq<Sent>
    ghost var acting: set<string>
    ghost var seen: set<string>

    constructor ()
      ensures View() == INITIAL
    {
      inFlight, activeJobs, pendingVerificationJobs, verificationInfo, sent, acting, seen := {}, {}, {}, "", [], {}, {};
    }

    ghost function View(): State
      reads this
    {
      State(inFlight, acting, activeJobs, pendingVerificationJobs, verificationInfo, seen, sent)
    }

    method OnCommand(id: string)
      requires Enabled(View(), Command(id)) && EndsOnce(View())
      modifies this
      ensures View() == Step(old(View()), Command(id)) && EndsOnce(View())
    {
      StepKeepsEndsOnce(View(), Command(id));
      inFlight, sent := inFlight + {id}, sent + [Accepted(id)];
      acting, seen := acting + {id}, seen + {id};
    }

    method OnActionEnd(id: string, outcome: Reply)
      requires Enabled(View(), ActionEnds(id, outcome)) && EndsOnce(View())
      modifies this
      ensures View() == Step(old(View()), ActionEnds(id, outcome)) && EndsOnce(View())
    {
      StepKeepsEndsOnce(View(), ActionEnds(id, outcome));
      acting := acting - {id};
      if id !in inFlight { return; }
      inFlight := inFlight - {id};
      if outcome.Success? {
        sent := sent + [ResultOf(id, outcome.payload)];
      } else {
        sent := sent + [ErrorOf(id, outcome.fault)];
      }
    }

    method OnDeadline(id: string)
      requires EndsOnce(View())
      modifies this
      ensures View() == Step(old(View()), Deadline(id)) && EndsOnce(View())
    {
      StepKeepsEndsOnce(View(), Deadline(id));
      if id in inFlight {
        inFlight := inFlight - {id};
        sent := sent + [ErrorOf(id, DEADLINE_PASSED)];
      }
    }

    method OnCancel(id: string, target: string)
      requires Enabled(View(), Cancel(id, target)) && EndsOnce(View())
      modifies this
      ensures View() == Step(old(View()), Cancel(id, target)) && EndsOnce(View())
    {
      StepKeepsEndsOnce(View(), Cancel(id, target));
      var cancelled := false;
      if target in inFlight {
        inFlight := inFlight - {target};
        cancelled := true;
        sent := sent + [ErrorOf(target, CANCELLED)];
      }
      if target in activeJobs {
        activeJobs := activeJobs - {target};
        cancelled := true;
      }
      CleanupPendingJobState(target);
      sent := sent + [ResultOf(id, Cancelled(cancelled))];
      seen := seen + {id};
      assert old(inFlight) - {target} == inFlight && old(activeJobs) - {target} == activeJobs;
    }

    // Nothing is kept of a job that waits.
    method CleanupPendingJobState(id: string)
      modifies this`pendingVerificationJobs, this`verificationInfo
      ensures pendingVerificationJobs == old(pendingVerificationJobs) - {id}
      ensures verificationInfo == if old(verificationInfo) == id then "" else old(verificationInfo)
    {
      pendingVerificationJobs := pendingVerificationJobs - {id};
      if verificationInfo == id { verificationInfo := ""; }
    }
  }
}
