/** The delivery of jobs from end to end: the helper's board, the extension's executor, and the
    messages between them, which may be lost, late or repeated. */
module Delivery {
  import Jobs
  import Executor

  /** `offers` are the jobs ever sent, `acks` the accepted marks ever sent back. `taken` are the ids
      the extension has ever taken on, and `life` what has happened to its executor since its worker
      was last started. */
  datatype State = State(
    board: Jobs.Board, exec: Executor.State, offers: set<Executor.Job>, acks: set<string>,
    taken: set<string>, life: seq<Executor.Event>)

  const START := State(Jobs.EMPTY, Executor.IDLE, {}, {}, {}, [])

  datatype Event =
    | Helper(e: Jobs.Event)       // anything the helper does of its own
    | Offer(id: string, retry: bool)
    | Arrive(job: Executor.Job)   // an offer arrives, and is acknowledged in any case
    | Accepted(id: string)        // an accepted mark arrives
    | Extension(x: Executor.Event)
    | Restart                     // the browser stops the extension's worker and starts it anew

  predicate Enabled(s: State, e: Event) {
    match e
    case Helper(h) =>
      !h.Ack? && Jobs.Enabled(s.board, h) && !Jobs.Forgets(s.board, h) && (h.Queue? ==> h.id != "")
    case Offer(id, _) => id in s.board.all
    case Arrive(job) => job in s.offers
    case Accepted(id) => id in s.acks
    case Extension(x) => !x.Deliver? && Executor.Enabled(s.exec, x)
    case Restart => true
  }

  function Ids(jobs: seq<Executor.Job>): set<string> { set j | j in jobs :: j.id }

  function Does(s: State, x: Executor.Event): State
    requires Executor.Enabled(s.exec, x)
  {
    var exec := Executor.Step(s.exec, x);
    s.(exec := exec, taken := s.taken + Ids(exec.accepted), life := s.life + [x])
  }

  function Step(s: State, e: Event): State
    requires Enabled(s, e)
  {
    match e
    case Helper(h) => s.(board := Jobs.Step(s.board, h))
    case Offer(id, retry) => s.(offers := s.offers + {Executor.Job(id, retry)})
    case Arrive(job) => Does(s, Executor.Deliver(job)).(acks := s.acks + {job.id})
    case Accepted(id) => s.(board := Jobs.Step(s.board, Jobs.Ack(id)))
    case Extension(x) => Does(s, x)
    case Restart => s.(exec := Executor.IDLE, life := [])
  }

  // ---- What every step keeps ----------------------------------------------------------------

  predicate InFlightTaken(s: State) { forall id :: id in s.board.inFlight ==> id in s.taken }

  predicate OffersReal(s: State) { forall j :: j in s.offers ==> j.id in s.board.all }

  // What the executor knows it has taken on.
  predicate KnowsItsOwn(x: Executor.State) { forall id :: id in x.known ==> id in Ids(x.accepted) }

  /** The executor's state is what its events since the last start make of an idle one. */
  predicate Lived(s: State) { Executor.Legal(Executor.IDLE, s.life) && s.exec == Executor.After(Executor.IDLE, s.life) }

  /** An accepted mark is sent, and a job is in flight, only for a job that the extension has taken
      on; besides what board and executor keep by themselves. */
  predicate Joined(s: State) {
    && Jobs.Tidy(s.board) && Jobs.NoneLost(s.board) && Executor.Serial(s.exec) && KnowsItsOwn(s.exec) && Lived(s)
    && "" !in s.board.all && OffersReal(s) && InFlightTaken(s)
    && s.acks <= s.taken && Ids(s.exec.accepted) <= s.taken
  }

  // A delivery is taken on now, or it was before.
  lemma DeliveredIsTaken(x: Executor.State, job: Executor.Job)
    requires Executor.Serial(x) && KnowsItsOwn(x) && job.id != ""
    ensures var y := Executor.Delivered(x, job);
      job.id in Ids(y.accepted) && KnowsItsOwn(y) && Ids(x.accepted) <= Ids(y.accepted)
  {
    var y := Executor.Delivered(x, job);
    if Executor.Busy(x, job.id) {
      Executor.BusyWasTakenOn(x, job.id);
    } else if y.accepted != x.accepted {
      assert y.accepted == x.accepted + [job];
      assert job in y.accepted;
      assert forall j :: j in x.accepted ==> j in y.accepted;
    }
    hide Executor.Serial;
  }

  lemma StepKnows(x: Executor.State, e: Executor.Event)
    requires Executor.Enabled(x, e) && Executor.Serial(x) && KnowsItsOwn(x)
    ensures KnowsItsOwn(Executor.Step(x, e)) && Ids(x.accepted) <= Ids(Executor.Step(x, e).accepted)
  {
    match e
    case Deliver(job) =>
      if job.id != "" { DeliveredIsTaken(x, job); } else { assert Executor.Delivered(x, job) == x; }
      hide Executor.Delivered;
    case Resume(id) =>
      var u := x.(known := x.known - {id});
      assert Executor.Serial(u) && KnowsItsOwn(u);
      if id != "" { DeliveredIsTaken(u, Executor.Job(id, true)); } else { assert Executor.Resumed(x, id) == u; }
      hide Executor.Delivered;
      hide Executor.Serial;
    case Finish => assert Executor.Finished(x).accepted == x.accepted;
  }

  lemma {:induction false} AfterOne(x: Executor.State, es: seq<Executor.Event>, e: Executor.Event)
    requires Executor.Legal(x, es) && Executor.Enabled(Executor.After(x, es), e)
    ensures Executor.Legal(x, es + [e]) && Executor.After(x, es + [e]) == Executor.Step(Executor.After(x, es), e)
    decreases |es|
  {
    if es == [] {
      assert [e][1..] == [];
      assert es + [e] == [e];
    } else {
      AfterOne(Executor.Step(x, es[0]), es[1..], e);
      assert (es + [e])[1..] == es[1..] + [e];
    }
  }

  lemma DoesKeepsJoined(s: State, x: Executor.Event)
    requires Joined(s) && Executor.Enabled(s.exec, x)
    ensures Joined(Does(s, x)) && s.taken <= Does(s, x).taken
  {
    Executor.StepKeepsSerial(s.exec, x);
    StepKnows(s.exec, x);
    AfterOne(Executor.IDLE, s.life, x);
    hide Executor.Step;
    hide Executor.After;
    hide Executor.Legal;
    hide Executor.Serial;
    hide KnowsItsOwn;
    hide Jobs.Tidy;
    hide Jobs.NoneLost;
  }

  lemma BoardStep(b: Jobs.Board, e: Jobs.Event)
    requires Jobs.Enabled(b, e) && Jobs.Tidy(b)
    ensures b.all <= Jobs.Step(b, e).all <= b.all + (if e.Queue? then {e.id} else {})
    ensures forall id :: id in Jobs.Step(b, e).inFlight ==> id in b.inFlight || (e.Ack? && id == e.id)
  {
    Jobs.RemoveKeeps(b.inFlight, if e.Progress? || e.LeaveFlight? then e.id else "");
    hide Jobs.Remove;
    hide Jobs.PutBack;
    hide Jobs.Unrepeated;
  }

  lemma BoardKeepsJoined(s: State, h: Jobs.Event)
    requires Joined(s) && Jobs.Enabled(s.board, h) && !Jobs.Forgets(s.board, h)
    requires (h.Queue? ==> h.id != "") && (h.Ack? ==> h.id in s.taken)
    ensures Joined(s.(board := Jobs.Step(s.board, h)))
  {
    Jobs.StepKeepsTidy(s.board, h);
    Jobs.LosesExactlyWhen(s.board, h);
    BoardStep(s.board, h);
    hide Jobs.Step;
    hide Jobs.Tidy;
    hide Jobs.NoneLost;
    hide Executor.Serial;
    hide KnowsItsOwn;
    hide Lived;
  }

  lemma IdleIsFine()
    ensures Executor.Serial(Executor.IDLE) && KnowsItsOwn(Executor.IDLE) && Ids(Executor.IDLE.accepted) == {}
    ensures Executor.Legal(Executor.IDLE, []) && Executor.After(Executor.IDLE, []) == Executor.IDLE
  {
  }

  lemma StepKeepsJoined(s: State, e: Event)
    requires Enabled(s, e) && Joined(s)
    ensures Joined(Step(s, e))
  {
    match e
    case Helper(h) => BoardKeepsJoined(s, h); hide Joined;
    case Accepted(id) => BoardKeepsJoined(s, Jobs.Ack(id)); hide Joined;
    case Extension(x) => DoesKeepsJoined(s, x); hide Joined;
    case Arrive(job) =>
      DoesKeepsJoined(s, Executor.Deliver(job));
      assert job.id != "";
      DeliveredIsTaken(s.exec, job);
      hide *;
      AckedIsTaken(s, job);
    case Offer(_, _) =>
      hide Jobs.Tidy; hide Jobs.NoneLost; hide Executor.Serial; hide KnowsItsOwn; hide Lived;
    case Restart =>
      IdleIsFine();
      hide Jobs.Tidy; hide Jobs.NoneLost; hide Executor.Serial; hide KnowsItsOwn;
  }

  lemma AckedIsTaken(s: State, job: Executor.Job)
    requires Enabled(s, Arrive(job)) && s.acks <= s.taken
    requires var t := Does(s, Executor.Deliver(job));
      Joined(t) && s.taken <= t.taken && job.id in Ids(Executor.Delivered(s.exec, job).accepted)
    ensures Joined(Step(s, Arrive(job)))
  {
    var t := Does(s, Executor.Deliver(job));
    assert job.id in t.taken && t.acks == s.acks;
    hide Jobs.Tidy;
    hide Jobs.NoneLost;
    hide Executor.Serial;
    hide KnowsItsOwn;
    hide Executor.Legal;
    hide Executor.After;
    hide Executor.Delivered;
  }

  // ---- Whole runs ---------------------------------------------------------------------------

  predicate Legal(s: State, es: seq<Event>)
    decreases |es|
  {
    es == [] || (Enabled(s, es[0]) && Legal(Step(s, es[0]), es[1..]))
  }

  function After(s: State, es: seq<Event>): State
    requires Legal(s, es)
    decreases |es|
  {
    if es == [] then s else After(Step(s, es[0]), es[1..])
  }

  lemma {:induction false} RunsAreJoined(s: State, es: seq<Event>)
    requires Joined(s) && Legal(s, es)
    ensures Joined(After(s, es))
    decreases |es|
  {
    if es != [] {
      StepKeepsJoined(s, es[0]);
      hide Joined;
      hide Step;
      hide Enabled;
      RunsAreJoined(Step(s, es[0]), es[1..]);
    }
  }

  // In one life of the worker, whatever was ever taken on was taken on in it.
  lemma {:induction false} OneLife(s: State, es: seq<Event>)
    requires Joined(s) && Legal(s, es) && s.taken <= Ids(s.exec.accepted) && Restart !in es
    ensures After(s, es).taken <= Ids(After(s, es).exec.accepted)
    decreases |es|
  {
    if es != [] {
      assert es[0] in es;
      StepKeepsJoined(s, es[0]);
      StepInOneLife(s, es[0]);
      hide Joined;
      hide Step;
      hide Enabled;
      OneLife(Step(s, es[0]), es[1..]);
    }
  }

  lemma StepInOneLife(s: State, e: Event)
    requires Enabled(s, e) && Joined(s) && s.taken <= Ids(s.exec.accepted) && !e.Restart?
    ensures Step(s, e).taken <= Ids(Step(s, e).exec.accepted)
  {
    if e.Arrive? { StepKnows(s.exec, Executor.Deliver(e.job)); }
    if e.Extension? { StepKnows(s.exec, e.x); }
    hide Joined;
    hide Executor.Step;
  }

  lemma StartIsJoined()
    ensures Joined(START)
  {
    IdleIsFine();
    hide Executor.Legal;
    hide Executor.After;
  }

  // The deliveries that a client which connects is sent.
  function Deliveries(ids: seq<string>): seq<Executor.Job> {
    if ids == [] then [] else Deliveries(ids[..|ids| - 1]) + [Executor.Job(ids[|ids| - 1], false)]
  }

  lemma {:induction false} ReplayIsTakenOn(x: Executor.State, ids: seq<string>)
    requires Executor.Serial(x) && KnowsItsOwn(x) && "" !in ids
    ensures var y := Executor.DeliverAll(x, Deliveries(ids));
      Executor.Serial(y) && KnowsItsOwn(y) && forall id :: id in ids ==> id in Ids(y.accepted)
  {
    if ids != [] {
      var front, id := ids[..|ids| - 1], ids[|ids| - 1];
      assert ids == front + [id];
      assert Deliveries(ids)[..|front|] == Deliveries(front) by { DeliveriesLength(front); }
      ReplayIsTakenOn(x, front);
      DeliveriesLength(front);
      var y := Executor.DeliverAll(x, Deliveries(front));
      hide Executor.Serial;
      hide KnowsItsOwn;
      Executor.DeliverKeepsSerial(y, Executor.Job(id, false));
      DeliveredIsTaken(y, Executor.Job(id, false));
      hide Executor.Delivered;
    }
  }

  lemma {:induction false} DeliveriesLength(ids: seq<string>)
    ensures |Deliveries(ids)| == |ids|
  {
    if ids != [] { DeliveriesLength(ids[..|ids| - 1]); }
  }

  /** Over every run of helper and extension, with messages lost, late and repeated and the worker
      stopped at any time: no job is lost; what is in flight, and so no longer queued, was taken on
      by the extension, and if its worker was never stopped, was started or waits there; and
      whenever a client connects and the replay reaches it, every job still owed has been started in
      this worker or waits in its queue. */
  lemma JobsReachTheExtension(es: seq<Event>, id: string)
    requires Legal(START, es)
    ensures var s := After(START, es); var y := Executor.DeliverAll(s.exec, Deliveries(Jobs.Replay(s.board)));
      && (id in s.board.all ==> Jobs.Somewhere(s.board, id) || Jobs.Ended(s.board, id))
      && (id in s.board.inFlight ==> id in s.taken)
      && (id in s.board.inFlight && Restart !in es ==> id in Ids(s.exec.started) + Ids(s.exec.queue))
      && (Jobs.Owed(s.board, id) ==> id in Ids(y.started) + Ids(y.queue))
  {
    StartIsJoined();
    RunsAreJoined(START, es);
    if Restart !in es { OneLife(START, es); }
    var s := After(START, es);
    var ids := Jobs.Replay(s.board);
    hide Legal;
    hide After;
    assert "" !in ids;
    ReplayIsTakenOn(s.exec, ids);
    var y := Executor.DeliverAll(s.exec, Deliveries(ids));
    assert y.accepted == y.started + y.queue && s.exec.accepted == s.exec.started + s.exec.queue;
    hide Executor.Serial;
    hide Executor.DeliverAll;
    hide Lived;
    hide KnowsItsOwn;
    if Jobs.Owed(s.board, id) {
      assert id in ids;
      assert id in Ids(y.accepted);
    }
  }

  /** In the same runs, jobs run one at a time, and within one life of the worker a second run of a
      job is by a retry as long as nothing was forgotten. */
  lemma RunsOneAtATime(es: seq<Event>, i: nat, j: nat)
    requires Legal(START, es)
    ensures var s := After(START, es);
      && |s.exec.active| <= 1 && s.exec.active == Executor.Executing(s.exec)
      && Executor.Legal(Executor.IDLE, s.life)
      && (Executor.NeverForgets(Executor.IDLE, s.life) ==>
            i < j < |s.exec.started| && s.exec.started[i].id == s.exec.started[j].id ==> s.exec.started[j].retry)
  {
    StartIsJoined();
    RunsAreJoined(START, es);
    hide Legal;
    hide After;
    Executor.OneAtATimeAndOnce(After(START, es).life, i, j);
  }
}
