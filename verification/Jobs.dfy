/** Job delivery, the helper's side: a queue, the jobs a client has accepted, their results and
    their progress, with a replay of what is open whenever a client connects. */
module Jobs {
  import opened Wrappers

  const TERMINAL := {"done", "error", "login_required", "api_blocked", "failed"}

  // ---- The helper's tables, on values -------------------------------------------------------

  /** Jobs stand as their ids. `inFlight` is a dictionary in insertion order; `resuming` are the
      jobs that a running resume handler has reopened and is about to queue again, `leaving` those
      whose result a handler has recorded and that it is about to take out of flight. */
  datatype Board = Board(
    all: set<string>, queue: seq<string>, inFlight: seq<string>, results: set<string>,
    status: map<string, string>, resuming: multiset<string>, leaving: multiset<string>)

  const EMPTY := Board({}, [], [], {}, map[], multiset{}, multiset{})

  datatype Event =
    | Queue(id: string)                             // a new job, under a random id
    | Ack(id: string)                               // the client accepts a delivery
    | Release                                       // what is in flight goes back to the queue
    | Progress(id: string, status: Option<string>)  // a progress patch, which may set the status
    | Record(id: string) | LeaveFlight(id: string)  // the two parts of recording a result
    | Suspend(id: string)                           // a result that waits for the user's verification
    | Reopen(id: string) | Requeue(id: string)      // the two parts of resuming or retrying a job

  predicate Enabled(b: Board, e: Event) {
    match e
    case Queue(id) => id !in b.all
    case Requeue(id) => id in b.resuming
    case LeaveFlight(id) => id in b.leaving
    case _ => true
  }

  // All but the first occurrence.
  function Remove(s: seq<string>, id: string): seq<string> {
    if s == [] then [] else if s[0] == id then s[1..] else [s[0]] + Remove(s[1..], id)
  }

  function AddNew(s: seq<string>, id: string): seq<string> { if id in s then s else s + [id] }

  // The queue after the jobs in flight without a result have been put back, in order.
  function PutBack(queue: seq<string>, inFlight: seq<string>, results: set<string>): seq<string> {
    if inFlight == [] then queue
    else
      var q, id := PutBack(queue, inFlight[..|inFlight| - 1], results), inFlight[|inFlight| - 1];
      if id in results then q else AddNew(q, id)
  }

  function Step(b: Board, e: Event): Board {
    match e
    case Queue(id) => b.(all := b.all + {id}, queue := b.queue + [id])
    case Ack(id) =>
      if id in b.queue then b.(queue := Remove(b.queue, id), inFlight := AddNew(b.inFlight, id)) else b
    case Release => b.(queue := PutBack(b.queue, b.inFlight, b.results), inFlight := [])
    case Progress(id, s) =>
      if id == "" || s.None? then b
      else b.(status := b.status[id := s.value],
              inFlight := if s.value in TERMINAL then Remove(b.inFlight, id) else b.inFlight)
    case Record(id) => b.(results := b.results + {id}, leaving := b.leaving + multiset{id})
    case LeaveFlight(id) => b.(inFlight := Remove(b.inFlight, id), leaving := b.leaving - multiset{id})
    case Suspend(id) => b.(results := b.results + {id})
    case Reopen(id) =>
      b.(results := b.results - {id}, status := b.status[id := "queued"],
         resuming := if id in b.all then b.resuming + multiset{id} else b.resuming)
    case Requeue(id) => b.(queue := AddNew(b.queue, id), resuming := b.resuming - multiset{id})
  }

  /** What a client that connects is sent. */
  function Replay(b: Board): seq<string> { b.queue + b.inFlight }

  // ---- Nothing is lost ----------------------------------------------------------------------

  predicate Somewhere(b: Board, id: string) {
    id in b.queue || id in b.inFlight || id in b.resuming || id in b.results
  }

  predicate Ended(b: Board, id: string) { id in b.status && b.status[id] in TERMINAL }

  /** Every job ever queued is queued, in flight, being resumed, or has a result or a terminal
      progress. */
  predicate NoneLost(b: Board) { forall id :: id in b.all ==> Somewhere(b, id) || Ended(b, id) }

  predicate Unrepeated(s: seq<string>) { forall i, j :: 0 <= i < j < |s| ==> s[i] != s[j] }

  /** No id is queued twice or in flight twice, and only real jobs are. */
  predicate Tidy(b: Board) {
    && Unrepeated(b.queue) && Unrepeated(b.inFlight)
    && (forall id :: id in b.queue ==> id in b.all) && (forall id :: id in b.inFlight ==> id in b.all)
    && (forall id :: id in b.resuming ==> id in b.all)
  }

  lemma {:induction false} RemoveKeeps(s: seq<string>, id: string)
    requires Unrepeated(s)
    ensures Unrepeated(Remove(s, id))
    ensures forall x :: x in Remove(s, id) <==> x in s && x != id
  {
    if s != [] {
      RemoveKeeps(s[1..], id);
      assert s == [s[0]] + s[1..];
      assert Unrepeated(s[1..]) && s[0] !in s[1..];
      var r := Remove(s[1..], id);
      assert forall i :: 0 <= i < |r| ==> r[i] in r;
    }
  }

  lemma AddNewKeeps(s: seq<string>, id: string)
    requires Unrepeated(s)
    ensures Unrepeated(AddNew(s, id)) && forall x :: x in AddNew(s, id) <==> x in s || x == id
  {
  }

  lemma {:induction false} PutBackKeeps(queue: seq<string>, inFlight: seq<string>, results: set<string>)
    requires Unrepeated(queue)
    ensures Unrepeated(PutBack(queue, inFlight, results))
    ensures forall x :: x in PutBack(queue, inFlight, results) <==> x in queue || (x in inFlight && x !in results)
  {
    if inFlight != [] {
      var front, last := inFlight[..|inFlight| - 1], inFlight[|inFlight| - 1];
      PutBackKeeps(queue, front, results);
      assert inFlight == front + [last];
      AddNewKeeps(PutBack(queue, front, results), last);
      hide Unrepeated;
    }
  }

  lemma StepKeepsTidy(b: Board, e: Event)
    requires Tidy(b) && Enabled(b, e)
    ensures Tidy(Step(b, e))
  {
    match e
    case Queue(id) => assert id !in b.queue;
    case Ack(id) => RemoveKeeps(b.queue, id); AddNewKeeps(b.inFlight, id); hide Unrepeated;
    case Release => PutBackKeeps(b.queue, b.inFlight, b.results);
    case Progress(id, _) => RemoveKeeps(b.inFlight, id); hide Unrepeated;
    case Record(_) =>
    case LeaveFlight(id) => RemoveKeeps(b.inFlight, id); hide Unrepeated;
    case Suspend(_) =>
    case Reopen(id) => hide Unrepeated;
    case Requeue(id) => AddNewKeeps(b.queue, id); hide Unrepeated;
  }

  /** The steps that lose a job: a progress patch that gives a status which is not terminal to a job
      that only its terminal progress was accounting for, and a handler that takes out of flight a
      job which has been resumed and accepted again since its result was recorded. */
  predicate Forgets(b: Board, e: Event) {
    match e
    case Progress(id, s) => id != "" && s.Some? && s.value !in TERMINAL && id in b.all && !Somewhere(b, id)
    case LeaveFlight(id) => id in b.all && !Somewhere(b.(inFlight := []), id) && !Ended(b, id)
    case _ => false
  }

  /** A step keeps every job exactly when it is not one of those. */
  lemma LosesExactlyWhen(b: Board, e: Event)
    requires Tidy(b) && NoneLost(b) && Enabled(b, e)
    ensures NoneLost(Step(b, e)) <==> !Forgets(b, e)
  {
    var c := Step(b, e);
    RemoveKeeps(b.queue, if e.Ack? then e.id else "");
    RemoveKeeps(b.inFlight, if e.Progress? || e.LeaveFlight? then e.id else "");
    PutBackKeeps(b.queue, b.inFlight, b.results);
    hide Unrepeated;
    hide Remove;
    hide PutBack;
    if Forgets(b, e) {
      assert !Somewhere(c, e.id) && !Ended(c, e.id);
    } else {
      forall id | id in c.all ensures Somewhere(c, id) || Ended(c, id) {
        assert id in b.all ==> Somewhere(b, id) || Ended(b, id);
      }
    }
  }

  predicate Legal(b: Board, es: seq<Event>)
    decreases |es|
  {
    es == [] || (Enabled(b, es[0]) && !Forgets(b, es[0]) && Legal(Step(b, es[0]), es[1..]))
  }

  function After(b: Board, es: seq<Event>): Board
    decreases |es|
  {
    if es == [] then b else After(Step(b, es[0]), es[1..])
  }

  // Neither a result nor a terminal progress, nor about to be queued again.
  predicate Owed(b: Board, id: string) { id in b.all && id !in b.results && !Ended(b, id) && id !in b.resuming }

  /** Over every run without such a step no job is lost, no id is queued twice, and a client that
      connects at the end is sent every job that is still owed. */
  lemma {:induction false} NoJobIsLost(b: Board, es: seq<Event>)
    requires Tidy(b) && NoneLost(b) && Legal(b, es)
    ensures Tidy(After(b, es)) && NoneLost(After(b, es))
    ensures forall id :: Owed(After(b, es), id) ==> id in Replay(After(b, es))
    decreases |es|
  {
    if es != [] {
      StepKeepsTidy(b, es[0]);
      LosesExactlyWhen(b, es[0]);
      hide Tidy;
      hide NoneLost;
      NoJobIsLost(Step(b, es[0]), es[1..]);
    }
  }

  /** Such a step is possible: a job reported as failed and then as running is nowhere. */
  lemma LateProgressLosesJob()
    ensures var b := After(EMPTY, [Queue("j"), Ack("j"), Progress("j", Some("error")), Progress("j", Some("running"))]);
      "j" in b.all && !Somewhere(b, "j") && !Ended(b, "j") && "j" !in Replay(b)
  {
    var es := [Queue("j"), Ack("j"), Progress("j", Some("error")), Progress("j", Some("running"))];
    var b1 := Step(EMPTY, es[0]);
    var b2 := Step(b1, es[1]);
    var b3 := Step(b2, es[2]);
    var b4 := Step(b3, es[3]);
    var none: seq<Event> := [];
    assert es[1..][1..] == es[2..] && es[2..][1..] == es[3..] && es[3..][1..] == none;
    assert After(b4, none) == b4;
    assert After(b3, es[3..]) == b4;
    assert After(b2, es[2..]) == b4;
    assert After(b1, es[1..]) == b4;
  }

  /** And so is the other: a result is recorded, the job is resumed and accepted again, and only then
      does the first handler take it out of flight. */
  lemma SlowHandlerLosesJob()
    ensures var b := After(EMPTY, [Queue("j"), Ack("j"), Record("j"), Reopen("j"), Requeue("j"), Ack("j"), LeaveFlight("j")]);
      "j" in b.all && !Somewhere(b, "j") && !Ended(b, "j") && "j" !in Replay(b)
  {
    var es := [Queue("j"), Ack("j"), Record("j"), Reopen("j"), Requeue("j"), Ack("j"), LeaveFlight("j")];
    var all, no: seq<string>, none: seq<Event> := {"j"}, [], [];
    var b3 := Board(all, [], ["j"], {"j"}, map[], multiset{}, multiset{"j"});
    var b5 := Board(all, ["j"], ["j"], {}, map["j" := "queued"], multiset{}, multiset{"j"});
    assert Step(Step(Step(EMPTY, es[0]), es[1]), es[2]) == b3;
    assert Step(Step(b3, es[3]), es[4]) == b5;
    var b7 := Board(all, [], [], {}, map["j" := "queued"], multiset{}, multiset{});
    assert Step(Step(b5, es[5]), es[6]) == b7;
    assert es[1..][1..] == es[2..] && es[2..][1..] == es[3..] && es[3..][1..] == es[4..];
    assert es[4..][1..] == es[5..] && es[5..][1..] == es[6..] && es[6..][1..] == none;
    hide Step;
    assert After(b7, none) == b7;
    assert After(b5, es[5..]) == b7;
    assert After(b3, es[3..]) == b7;
  }

  // ---- The object ---------------------------------------------------------------------------

  class JobBoard {
    var all: set<string>
    var queue: seq<string>
    var inFlight: seq<string>
    var results: set<string>
    var status: map<string, string>
    var resuming: multiset<string>
    var leaving: multiset<string>

    constructor ()
      ensures View() == EMPTY
    {
      all, queue, inFlight, results, status, resuming, leaving := {}, [], [], {}, map[], multiset{}, multiset{};
    }

    function View(): Board
      reads this
    {
      Board(all, queue, inFlight, results, status, resuming, leaving)
    }

    static method Removed(s: seq<string>, id: string) returns (r: seq<string>)
      ensures r == Remove(s, id)
    {
      var i := 0;
      while i < |s| && s[i] != id
        invariant i <= |s| && id !in s[..i]
        invariant Remove(s, id) == s[..i] + Remove(s[i..], id)
      {
        assert s[i..][0] == s[i] && s[i..][1..] == s[i + 1..];
        i := i + 1;
      }
      if i == |s| { assert s[i..] == [] && s[..i] == s; return s; }
      assert s[i..][0] == id && s[i..][1..] == s[i + 1..];
      return s[..i] + s[i + 1..];
    }

    method QueueJob(id: string)
      requires id !in all
      modifies this
      ensures View() == Step(old(View()), Queue(id))
    {
      all, queue := all + {id}, queue + [id];
    }

    method AckJob(id: string)
      modifies this
      ensures View() == Step(old(View()), Ack(id))
    {
      if id !in queue { return; }
      queue := Removed(queue, id);
      if id !in inFlight { inFlight := inFlight + [id]; }
    }

    method ReleaseInFlight()
      modifies this
      ensures View() == Step(old(View()), Release)
    {
      for i := 0 to |inFlight|
        invariant inFlight == old(inFlight) && queue == PutBack(old(queue), inFlight[..i], results)
        invariant all == old(all) && results == old(results) && status == old(status)
        invariant resuming == old(resuming) && leaving == old(leaving)
      {
        assert inFlight[..i + 1][..i] == inFlight[..i];
        var id := inFlight[i];
        if id !in results && id !in queue { queue := queue + [id]; }
      }
      assert inFlight[..|inFlight|] == inFlight;
      inFlight := [];
    }

    method UpdateProgress(id: string, newStatus: Option<string>)
      modifies this
      ensures View() == Step(old(View()), Progress(id, newStatus))
    {
      if id == "" { return; }
      if newStatus.Some? {
        status := status[id := newStatus.value];
        if newStatus.value in TERMINAL { inFlight := Removed(inFlight, id); }
      }
    }

    /** A result: one that waits for the user leaves the job in flight. */
    method RecordResult(id: string, waitsForUser: bool)
      modifies this
      ensures View() == Step(old(View()), if waitsForUser then Suspend(id) else Record(id))
    {
      results := results + {id};
      if !waitsForUser { leaving := leaving + multiset{id}; }
    }

    // The handler goes on under the other lock.
    method LeaveInFlight(id: string)
      requires id in leaving
      modifies this
      ensures View() == Step(old(View()), LeaveFlight(id))
    {
      hide Remove;
      var rest := Removed(inFlight, id);
      inFlight, leaving := rest, leaving - multiset{id};
    }

    method ReopenJob(id: string)
      modifies this
      ensures View() == Step(old(View()), Reopen(id))
    {
      results := results - {id};
      status := status[id := "queued"];
      if id in all { resuming := resuming + multiset{id}; }
    }

    method RequeueJob(id: string)
      requires id in resuming
      modifies this
      ensures View() == Step(old(View()), Requeue(id))
    {
      if id !in queue { queue := queue + [id]; }
      resuming := resuming - multiset{id};
    }
  }
}
