/** Job delivery, the extension's side: one executor over one queue, fed by deliveries that may be
    repeated any number of times. */
module Executor {
  import opened Wrappers

  const KNOWN_LIMIT := 1000

  datatype Job = Job(id: string, retry: bool)

  /** The executor between two turns of the event loop. `started` and `accepted` are its history:
      every job it began to run, and every delivery it took on. */
  datatype State = State(
    queue: seq<Job>, running: bool, current: Option<Job>, active: set<string>, known: set<string>,
    started: seq<Job>, accepted: seq<Job>)

  const IDLE := State([], false, None, {}, {}, [], [])

  datatype Event =
    | Deliver(job: Job)
    | Resume(id: string)  // a job that waited for verification is retried
    | Finish

  predicate Enabled(s: State, e: Event) { e.Finish? ==> s.current.Some? }

  // From the queue to the first suspension of the job.
  function StartNext(s: State): State {
    if s.queue == [] then s.(running := false, current := None)
    else
      var job := s.queue[0];
      s.(queue := s.queue[1..], running := true, current := Some(job), active := s.active + {job.id},
         started := s.started + [job])
  }

  predicate Busy(s: State, id: string) {
    id in s.active || (s.current.Some? && s.current.value.id == id) || exists j :: j in s.queue && j.id == id
  }

  function Delivered(s: State, job: Job): State {
    if job.id == "" || Busy(s, job.id) then s
    else
      var known := if job.retry then s.known - {job.id} else s.known;
      if job.id in known then s.(known := known)
      else
        var t := s.(known := known + {job.id}, queue := s.queue + [job], accepted := s.accepted + [job]);
        if t.running then t else StartNext(t)
  }

  // The id is forgotten before the retry is enqueued, even if the retry is then skipped.
  function Resumed(s: State, id: string): State {
    Delivered(s.(known := s.known - {id}), Job(id, true))
  }

  function Finished(s: State): State
    requires s.current.Some?
  {
    var id := s.current.value.id;
    StartNext(s.(current := None, active := s.active - {id},
                 known := if |s.known| > KNOWN_LIMIT then s.known - {id} else s.known))
  }

  function Step(s: State, e: Event): State
    requires Enabled(s, e)
  {
    match e
    case Deliver(job) => Delivered(s, job)
    case Resume(id) => Resumed(s, id)
    case Finish => Finished(s)
  }

  // ---- What every step keeps ----------------------------------------------------------------

  /** The jobs that are running now. */
  function Executing(s: State): set<string> { if s.current.Some? then {s.current.value.id} else {} }

  /** At most one job runs, and it is the one the executor holds; what was taken on is started in
      order, each time once, and what is not yet started is in the queue; the queue holds no id
      twice, nor the one that runs. */
  predicate Serial(s: State) {
    && s.running == s.current.Some? && s.active == Executing(s)
    && (!s.running ==> s.queue == [])
    && s.accepted == s.started + s.queue
    && (s.current.Some? ==> s.started != [] && s.started[|s.started| - 1] == s.current.value)
    && (forall i, j :: 0 <= i < j < |s.queue| ==> s.queue[i].id != s.queue[j].id)
    && (forall i :: 0 <= i < |s.queue| ==> s.queue[i].id !in s.active)
  }

  lemma DeliverKeepsSerial(s: State, job: Job)
    requires Serial(s)
    ensures Serial(Delivered(s, job))
  {
    var t := Delivered(s, job);
    if t.accepted != s.accepted {
      assert s.accepted + [job] == s.started + (s.queue + [job]);
      assert forall i :: 0 <= i < |s.queue| ==> s.queue[i] in s.queue;
      if !s.running {
        assert s.queue == [] && t.queue == [] && t.started == s.started + [job];
      }
    }
  }

  lemma FinishKeepsSerial(s: State)
    requires Serial(s) && s.current.Some?
    ensures Serial(Finished(s))
  {
    if s.queue != [] {
      assert s.started + s.queue == s.started + [s.queue[0]] + s.queue[1..];
    }
  }

  /** Every id taken on is known, and none was taken on twice without a retry. */
  predicate Remembered(s: State) {
    && (forall j :: j in s.accepted ==> j.id != "" && j.id in s.known)
    && (forall i, j :: 0 <= i < j < |s.accepted| && s.accepted[i].id == s.accepted[j].id ==> s.accepted[j].retry)
  }

  lemma DeliverKeepsRemembered(s: State, job: Job)
    requires Remembered(s)
    ensures Remembered(Delivered(s, job))
  {
    var t := Delivered(s, job);
    if t.accepted != s.accepted {
      forall i, j | 0 <= i < j < |t.accepted| && t.accepted[i].id == t.accepted[j].id ensures t.accepted[j].retry {
        if j == |s.accepted| { assert s.accepted[i] in s.accepted; }
      }
    }
  }

  /** The steps that forget an id: a job that ends when more than 1000 ids are known, and a resumption
      of a job that is running or queued. */
  predicate Forgets(s: State, e: Event) {
    match e
    case Deliver(_) => false
    case Resume(id) => Busy(s, id)
    case Finish => |s.known| > KNOWN_LIMIT
  }

  lemma BusyWasTakenOn(s: State, id: string)
    requires Serial(s) && Busy(s, id)
    ensures exists j :: j in s.accepted && j.id == id
  {
    if s.current.Some? && s.current.value.id == id {
      assert s.accepted[|s.started| - 1] == s.started[|s.started| - 1];
    } else {
      var j :| j in s.queue && j.id == id;
      assert j in s.accepted;
    }
  }

  lemma ResumeKeepsRemembered(s: State, id: string)
    requires Serial(s) && Remembered(s)
    ensures Remembered(Resumed(s, id)) <==> !Busy(s, id)
  {
    var u := s.(known := s.known - {id});
    if Busy(s, id) {
      BusyWasTakenOn(s, id);
      assert Resumed(s, id) == u;
    } else if id != "" {
      var t := Resumed(s, id);
      assert t.accepted == s.accepted + [Job(id, true)] && t.known == s.known + {id};
    } else {
      assert Resumed(s, id) == u;
    }
  }

  /** A step keeps the memory exactly when it is not one of those. */
  lemma ForgetsExactlyWhen(s: State, e: Event)
    requires Enabled(s, e) && Serial(s) && Remembered(s)
    ensures Remembered(Step(s, e)) <==> !Forgets(s, e)
  {
    match e {
      case Deliver(job) => DeliverKeepsRemembered(s, job);
      case Resume(id) => ResumeKeepsRemembered(s, id);
      case Finish =>
        BusyWasTakenOn(s, s.current.value.id);
        assert Finished(s).accepted == s.accepted;
    }
    hide Serial;
    hide Busy;
  }

  lemma ResumeKeepsSerial(s: State, id: string)
    requires Serial(s)
    ensures Serial(Resumed(s, id))
  {
    var u := s.(known := s.known - {id});
    assert Serial(u);
    hide Serial;
    DeliverKeepsSerial(u, Job(id, true));
  }

  // ---- Whole runs ---------------------------------------------------------------------------

  predicate Legal(s: State, es: seq<Event>)
    decreases |es|
  {
    es == [] || (Enabled(s, es[0]) && Legal(Step(s, es[0]), es[1..]))
  }

  function After(s: State, es: seq<Event>): State
    requires Legal(s, es)
    decreases |es|
  {
    if es == [] then s else After(Step(s, es[0]), es[1..])
  }

  lemma StepKeepsSerial(s: State, e: Event)
    requires Enabled(s, e) && Serial(s)
    ensures Serial(Step(s, e))
  {
    match e {
      case Deliver(job) => DeliverKeepsSerial(s, job);
      case Resume(id) => ResumeKeepsSerial(s, id);
      case Finish => FinishKeepsSerial(s);
    }
    hide Serial;
  }

  lemma {:induction false} RunsAreSerial(s: State, es: seq<Event>)
    requires Serial(s) && Legal(s, es)
    ensures Serial(After(s, es))
    decreases |es|
  {
    if es != [] {
      StepKeepsSerial(s, es[0]);
      hide Serial;
      RunsAreSerial(Step(s, es[0]), es[1..]);
    }
  }

  predicate NeverForgets(s: State, es: seq<Event>)
    requires Legal(s, es)
    decreases |es|
  {
    es == [] || (!Forgets(s, es[0]) && NeverForgets(Step(s, es[0]), es[1..]))
  }

  lemma {:induction false} RunsAreRemembered(s: State, es: seq<Event>)
    requires Serial(s) && Remembered(s) && Legal(s, es) && NeverForgets(s, es)
    ensures Remembered(After(s, es))
    decreases |es|
  {
    if es != [] {
      StepKeepsSerial(s, es[0]);
      ForgetsExactlyWhen(s, es[0]);
      hide Serial;
      hide Remembered;
      RunsAreRemembered(Step(s, es[0]), es[1..]);
    }
  }

  /** Under any number of deliveries, replays and resumptions, in any order: jobs run one at a time,
      and as long as nothing is forgotten any second run of an id is of a delivery that asked for a
      retry. */
  lemma OneAtATimeAndOnce(es: seq<Event>, i: nat, j: nat)
    requires Legal(IDLE, es)
    ensures var s := After(IDLE, es);
      && |s.active| <= 1 && s.active == Executing(s)
      && s.started <= s.accepted
      && (NeverForgets(IDLE, es) && i < j < |s.started| && s.started[i].id == s.started[j].id ==> s.started[j].retry)
  {
    RunsAreSerial(IDLE, es);
    if NeverForgets(IDLE, es) {
      RunsAreRemembered(IDLE, es);
      var s := After(IDLE, es);
      assert forall k :: 0 <= k < |s.started| ==> s.accepted[k] == s.started[k];
    }
  }

  function DeliverAll(s: State, jobs: seq<Job>): State {
    if jobs == [] then s else Delivered(DeliverAll(s, jobs[..|jobs| - 1]), jobs[|jobs| - 1])
  }

  /** A replay of jobs that were taken on before, without a retry, changes nothing. */
  lemma {:induction false} ReplayIsHarmless(s: State, jobs: seq<Job>)
    requires Remembered(s)
    requires forall j :: j in jobs ==> !j.retry && exists k :: k in s.accepted && k.id == j.id
    ensures DeliverAll(s, jobs) == s
  {
    if jobs != [] {
      ReplayIsHarmless(s, jobs[..|jobs| - 1]);
      assert jobs[|jobs| - 1].id in s.known;
    }
  }

  /** Past the limit the memory goes: a job that ends when more than 1000 ids are known is
      forgotten, and the next replay of it is taken on again. */
  lemma ForgottenPastTheLimit(s: State)
    requires Serial(s) && s.current.Some? && |s.known| > KNOWN_LIMIT && s.current.value.id != ""
    requires forall j :: j in s.queue ==> j.id != s.current.value.id
    ensures var job := Job(s.current.value.id, false);
      Delivered(Finished(s), job).accepted == s.accepted + [job]
  {
  }

  /** Nor is a job safe that is resumed while it runs: the retry is skipped, but the id is forgotten,
      and after it has ended a plain replay runs it again. */
  lemma ForgottenByResuming(s: State)
    requires Serial(s) && s.current.Some? && s.current.value.id != ""
    requires forall j :: j in s.queue ==> j.id != s.current.value.id
    ensures var id := s.current.value.id; var t := Resumed(s, id);
      && t.accepted == s.accepted && t.current.Some?
      && Delivered(Finished(t), Job(id, false)).accepted == s.accepted + [Job(id, false)]
  {
  }

  // ---- The object ---------------------------------------------------------------------------

  class JobExecutor {
    var jobQueue: seq<Job>
    var isQueueRunning: bool
    var currentJob: Option<Job>
    var activeJobs: set<string>
    var knownJobs: set<string>
    ghost var started: seq<Job>
    ghost var accepted: seq<Job>

    constructor ()
      ensures View() == IDLE
    {
      jobQueue, isQueueRunning, currentJob, activeJobs, knownJobs, started, accepted := [], false, None, {}, {}, [], [];
    }

    ghost function View(): State
      reads this
    {
      State(jobQueue, isQueueRunning, currentJob, activeJobs, knownJobs, started, accepted)
    }

    // One pass of the executor's loop, up to the job's first suspension.
    method TakeNext()
      modifies this
      ensures View() == StartNext(old(View()))
    {
      if |jobQueue| > 0 {
        var job := jobQueue[0];
        jobQueue := jobQueue[1..];
        isQueueRunning, currentJob, activeJobs := true, Some(job), activeJobs + {job.id};
        started := started + [job];
      } else {
        isQueueRunning, currentJob := false, None;
      }
    }

    static method Queued(queue: seq<Job>, id: string) returns (found: bool)
      ensures found <==> exists j :: j in queue && j.id == id
    {
      for i := 0 to |queue|
        invariant forall k :: 0 <= k < i ==> queue[k].id != id
      {
        if queue[i].id == id { return true; }
      }
      return false;
    }

    method EnqueueLegacyJob(job: Job)
      requires Serial(View())
      modifies this
      ensures View() == Delivered(old(View()), job) && Serial(View())
    {
      DeliverKeepsSerial(View(), job);
      hide Serial;
      if job.id == "" { return; }
      if job.id in activeJobs || (currentJob.Some? && currentJob.value.id == job.id) { return; }
      var queued := Queued(jobQueue, job.id);
      if queued { return; }
      if job.retry { knownJobs := knownJobs - {job.id}; }
      if job.id in knownJobs { return; }
      knownJobs := knownJobs + {job.id};
      jobQueue := jobQueue + [job];
      accepted := accepted + [job];
      if !isQueueRunning { TakeNext(); }
    }

    method ResumeVerification(id: string)
      requires Serial(View())
      modifies this
      ensures View() == Resumed(old(View()), id) && Serial(View())
    {
      ghost var s := View();
      knownJobs := knownJobs - {id};
      assert View() == s.(known := s.known - {id});
      EnqueueLegacyJob(Job(id, true));
    }

    /** The current job settles, and the loop goes on. */
    method JobSettled()
      requires Serial(View()) && currentJob.Some?
      modifies this
      ensures View() == Finished(old(View())) && Serial(View())
    {
      FinishKeepsSerial(View());
      hide Serial;
      var id := currentJob.value.id;
      currentJob, activeJobs := None, activeJobs - {id};
      if |knownJobs| > KNOWN_LIMIT { knownJobs := knownJobs - {id}; }
      TakeNext();
    }
  }
}
