/** One chunked upload over a channel that loses, repeats, delays and reorders: the extension's
    stop-and-wait sender against the helper's request table and upload map. */
module Upload {
  import opened Wrappers
  import opened Chunking
  import opened IngestRpc

  /** What the sender fixes: the upload's id, its chunks, and one request id per chunk with one more
      for the closing `complete`. Request ids are random UUIDs, so they are distinct. */
  datatype Plan = Plan(upload: string, chunks: seq<Text>, ids: seq<string>)

  predicate WellPlanned(p: Plan) {
    && 0 < |p.upload| <= 128 && |p.ids| == |p.chunks| + 1
    && (forall i :: 0 <= i < |p.ids| ==> 0 < |p.ids[i]| <= 128)
    && (forall i, j :: 0 <= i < j < |p.ids| ==> p.ids[i] != p.ids[j])
  }

  /** An operation carried out by the helper: which request it was for, and how it ended. */
  datatype Act = Act(request: nat, outcome: Outcome)

  datatype State = State(
    table: seq<Entry>, uploads: map<string, Upload>,
    ending: map<nat, Outcome>,        // requests whose operation is over and whose reply is not out
    acts: seq<Act>, stored: seq<Text>, lost: bool,
    replies: set<(nat, Outcome)>,     // every reply ever sent for a request of this upload
    acked: nat, failed: bool)         // the sender: requests acknowledged, given up

  predicate Initial(p: Plan, s: State) {
    && Distinct(s.table) && |s.table| <= MAX_REQUESTS
    && (forall i :: 0 <= i < |p.ids| ==> Status(s.table, p.ids[i]) == Absent)
    && p.upload !in s.uploads && s.ending == map[] && s.acts == [] && s.stored == [] && !s.lost
    && s.replies == {} && s.acked == 0 && !s.failed
  }

  /** The steps. A request may be delivered any number of times from when it is first sent; a reply
      may be received any number of times from when it is first sent. Other clients' requests and
      uploads go on in between. */
  datatype Move =
    | Arrive(i: nat, now: real)
    | Perform(i: nat, now: real, answer: Outcome)
    | Finish(i: nat)
    | Receive(i: nat, o: Outcome)
    | GiveUp
    | OtherArrive(id: string, now: real)
    | OtherDone(id: string, o: Outcome)
    | OtherChunk(upload: string, index: int, chunk: Text, now: real)
    | OtherComplete(upload: string)

  datatype Standing = Absent | Running | Over(outcome: Outcome)

  // How an id stands in the request table.
  function Status(es: seq<Entry>, id: string): Standing {
    var i := Place(es, id);
    if i == |es| then Absent else if es[i].outcome.None? then Running else Over(es[i].outcome.value)
  }

  /** The guard: a submission at `now` forgets no request of this upload, neither for its age nor to
      make room. */
  predicate Remembers(p: Plan, es: seq<Entry>, id: string, now: real) {
    forall i :: 0 <= i < |p.ids| ==> Stays(es, p.ids[i], id, now)
  }

  predicate Stays(es: seq<Entry>, k: string, id: string, now: real) {
    Status(es, k) != Absent ==>
      Status(Prune(es, now), k) != Absent && Status(Submitted(es, id, now).0, k) != Absent
  }

  predicate Enabled(p: Plan, s: State, e: Move) {
    match e
    case Arrive(i, now) => i < |p.ids| && i <= s.acked && Remembers(p, s.table, p.ids[i], now)
    case Perform(i, _, _) => i < |p.ids| && Status(s.table, p.ids[i]) == Running && i !in s.ending
    case Finish(i) => i < |p.ids| && i in s.ending
    case Receive(i, o) => (i, o) in s.replies
    case GiveUp => true
    case OtherArrive(id, now) => id !in p.ids && Remembers(p, s.table, id, now)
    case OtherDone(id, _) => id !in p.ids
    case OtherChunk(u, _, _, _) => u != p.upload
    case OtherComplete(u) => u != p.upload
  }

  function Answer(s: Submission, i: nat): set<(nat, Outcome)> {
    match s
    case Answered(o) => {(i, o)}
    case Refused => {(i, Err("Ingest queue is full"))}
    case _ => {}
  }

  // A chunk's reply carries its index, which the sender does not look at.
  function Plain(r: Result<int, string>): Outcome { if r.Ok? then Ok("index") else Err(r.error) }

  function Step(p: Plan, s: State, e: Move): State
    requires WellPlanned(p) && Enabled(p, s, e)
  {
    match e
    case Arrive(i, now) =>
      var (table, sub) := Submitted(s.table, p.ids[i], now);
      s.(table := table, replies := s.replies + Answer(sub, i))
    case Perform(i, now, answer) =>
      if i < |p.chunks| then
        var (us, r) := AddChunk(s.uploads, p.upload, i, p.chunks[i], now);
        s.(uploads := us, lost := s.lost || Expires(p, s, now),
           ending := s.ending[i := Plain(r)], acts := s.acts + [Act(i, Plain(r))])
      else
        var (us, text) := TakeUpload(s.uploads, p.upload);
        var o := if text.Some? then answer else Err("Upload missing or expired");
        s.(uploads := us, stored := if text.Some? then s.stored + [text.value] else s.stored,
           ending := s.ending[i := o], acts := s.acts + [Act(i, o)])
    case Finish(i) =>
      s.(table := Finished(s.table, p.ids[i], s.ending[i]), replies := s.replies + {(i, s.ending[i])},
         ending := s.ending - {i})
    case Receive(i, o) =>
      if i != s.acked || s.failed then s
      else if o.Ok? then s.(acked := s.acked + 1) else s.(failed := true)
    case GiveUp => s.(failed := true)
    case OtherArrive(id, now) => s.(table := Submitted(s.table, id, now).0)
    case OtherDone(id, o) => s.(table := Finished(s.table, id, o))
    case OtherChunk(u, index, chunk, now) =>
      s.(uploads := AddChunk(s.uploads, u, index, chunk, now).0,
         lost := s.lost || (p.upload in s.uploads && p.upload !in AddChunk(s.uploads, u, index, chunk, now).0))
    case OtherComplete(u) => s.(uploads := TakeUpload(s.uploads, u).0)
  }

  // The upload has waited 600 s for this chunk.
  predicate Expires(p: Plan, s: State, now: real) {
    p.upload in s.uploads && p.upload !in Unexpired(s.uploads, now)
  }

  // ---- How ids stand ------------------------------------------------------------------------

  lemma StatusAfterSubmit(es: seq<Entry>, id: string, now: real, k: string)
    requires Distinct(es) && |es| <= MAX_REQUESTS && 0 < |id| <= 128
    requires Stays(es, k, id, now)
    ensures Distinct(Submitted(es, id, now).0) && |Submitted(es, id, now).0| <= MAX_REQUESTS
    ensures k != id ==> Status(Submitted(es, id, now).0, k) == Status(es, k)
    ensures k == id ==> match Submitted(es, id, now).1
                        case Ignored => false
                        case Refused => Status(es, k) == Absent && Status(Submitted(es, id, now).0, k) == Absent
                        case Started => Status(es, k) == Absent && Status(Submitted(es, id, now).0, k) == Running
                        case Joined => Status(es, k) == Running && Status(Submitted(es, id, now).0, k) == Running
                        case Answered(o) => Status(es, k) == Over(o) && Status(Submitted(es, id, now).0, k) == Over(o)
  {
    SubmitKeeps(es, id, now);
    var (es', s) := Submitted(es, id, now);
    PruneKeeps(es, now);
    AdmitKeeps(Prune(es, now), id, now);
    assert s != Ignored;
    hide Submitted;
    StatusIs(es, k);
    StatusIs(Prune(es, now), k);
    StatusIs(es', k);
    hide Prune;
    hide Status;
    hide Distinct;
    if k == id && s == Started {
      assert Entry(id, now, None, 1) in es';
    }
  }

  // In a table of distinct ids, an id stands as its one entry says.
  lemma StatusIs(es: seq<Entry>, k: string)
    requires Distinct(es)
    ensures Status(es, k) == Absent <==> !exists e :: e in es && e.id == k
    ensures forall e :: e in es && e.id == k ==>
      Status(es, k) == (if e.outcome.None? then Running else Over(e.outcome.value))
  {
    var i := Place(es, k);
    if i < |es| { assert es[i] in es; }
  }

  lemma StatusAfterFinish(es: seq<Entry>, id: string, o: Outcome, k: string)
    requires Distinct(es)
    ensures Distinct(Finished(es, id, o)) && |Finished(es, id, o)| == |es|
    ensures Status(Finished(es, id, o), k) == if k == id && Status(es, k) != Absent then Over(o) else Status(es, k)
  {
    var i, es' := Place(es, id), Finished(es, id, o);
    if i < |es| {
      UpdateKeeps(es, i, es[i].(outcome := Some(o), waiters := 0));
      StatusIs(es, k);
      StatusIs(es', k);
      assert es[i] in es;
    }
  }

  /** What a caller can check: young requests and a table with room are remembered. */
  lemma RoomRemembers(p: Plan, es: seq<Entry>, id: string, now: real)
    requires Distinct(es) && |es| <= MAX_REQUESTS && 0 < |id| <= 128
    requires forall e :: e in es && e.id in p.ids ==> now - e.submitted < TTL
    requires |Prune(es, now)| < MAX_REQUESTS || Status(Prune(es, now), id) != Absent
    ensures Remembers(p, es, id, now)
  {
    PruneKeeps(es, now);
    var live := Prune(es, now);
    AdmitKeeps(live, id, now);
    var es' := Submitted(es, id, now).0;
    forall i | 0 <= i < |p.ids| && Status(es, p.ids[i]) != Absent
      ensures Status(live, p.ids[i]) != Absent && Status(es', p.ids[i]) != Absent
    {
      var k := p.ids[i];
      StatusIs(es, k);
      StatusIs(live, k);
      var e :| e in es && e.id == k;
      assert e in live;
      AdmitForgetsNothing(live, id, now, k);
    }
  }

  lemma AdmitForgetsNothing(live: seq<Entry>, id: string, now: real, k: string)
    requires |live| < MAX_REQUESTS || Place(live, id) < |live|
    requires exists e :: e in live && e.id == k
    ensures Status(Admit(live, id, now).0, k) != Absent
  {
    var e :| e in live && e.id == k;
    var es', j := Admit(live, id, now).0, Place(live, k);
    var m :| 0 <= m < |live| && live[m] == e;
    assert es'[m].id == k;
  }

  // ---- What every step keeps ----------------------------------------------------------------

  // The table, the operations over and the acknowledgements tell one story about request `i`.
  predicate Agrees(p: Plan, s: State, i: nat)
    requires i < |p.ids|
  {
    match Status(s.table, p.ids[i])
    case Absent => |s.acts| <= i && i !in s.ending
    case Running => i <= s.acked && (i < |s.acts| <==> i in s.ending) && (i in s.ending ==> s.ending[i] == s.acts[i].outcome)
    case Over(o) => i < |s.acts| && o == s.acts[i].outcome && i !in s.ending
  }

  /** Each operation is carried out once, in the order of the requests, and at most one operation
      is not yet acknowledged; only an operation that succeeded is ever acknowledged. */
  ghost predicate Ordered(p: Plan, s: State) {
    && s.acked <= |s.acts| <= s.acked + 1 && |s.acts| <= |p.ids|
    && (forall j :: 0 <= j < |s.acts| ==> s.acts[j].request == j)
    && (forall j :: 0 <= j < s.acked ==> s.acts[j].outcome.Ok?)
    && (forall i, o :: (i, o) in s.replies && o.Ok? ==> i < |s.acts| && s.acts[i].outcome == o)
  }

  ghost predicate Tracked(p: Plan, s: State) {
    && Distinct(s.table) && |s.table| <= MAX_REQUESTS
    && (forall i :: i in s.ending ==> i < |p.ids|)
    && (forall i :: 0 <= i < |p.ids| ==> Agrees(p, s, i))
  }

  predicate AllOk(acts: seq<Act>) { forall j :: 0 <= j < |acts| ==> acts[j].outcome.Ok? }

  /** The chunks the helper holds are a prefix of the sender's; while nothing failed and the upload
      did not wait 600 s they are exactly those of the operations carried out; what was handed to
      the store is the whole text, once. */
  ghost predicate Faithful(p: Plan, s: State) {
    var n, m := |p.chunks|, |s.acts|;
    && (p.upload in s.uploads ==> s.uploads[p.upload].chunks <= p.chunks && |s.uploads[p.upload].chunks| <= m)
    && (AllOk(s.acts) && !s.lost && m <= n ==> (p.upload in s.uploads <==> m > 0))
    && (AllOk(s.acts) && !s.lost && 0 < m <= n ==> s.uploads[p.upload].chunks == p.chunks[..m])
    && (AllOk(s.acts) && s.lost ==> p.upload !in s.uploads && m > 0)
    && (m <= n ==> s.stored == [])
    && (m == n + 1 ==> p.upload !in s.uploads && (s.stored == [] || s.stored == [Join(p.chunks)]))
    && (m == n + 1 && s.acts[n].outcome.Ok? ==> s.stored == [Join(p.chunks)])
  }

  ghost predicate Safe(p: Plan, s: State) { Ordered(p, s) && Tracked(p, s) && Faithful(p, s) }

  lemma ArriveKeepsSafe(p: Plan, s: State, i: nat, now: real)
    requires WellPlanned(p) && Safe(p, s) && Enabled(p, s, Arrive(i, now))
    ensures Safe(p, Step(p, s, Arrive(i, now)))
  {
    hide Faithful;
    var id, s' := p.ids[i], Step(p, s, Arrive(i, now));
    forall k | 0 <= k < |p.ids| ensures Agrees(p, s', k) {
      assert Agrees(p, s, k) && Stays(s.table, p.ids[k], id, now);
      StatusAfterSubmit(s.table, id, now, p.ids[k]);
      hide Submitted;
      hide Status;
    }
    assert Agrees(p, s, i) && Stays(s.table, id, id, now);
    StatusAfterSubmit(s.table, id, now, id);
    hide *;
    SameUploads(p, s, s');
  }

  lemma SameUploads(p: Plan, s: State, s': State)
    requires Faithful(p, s) && s'.uploads == s.uploads && s'.acts == s.acts && s'.stored == s.stored && s'.lost == s.lost
    ensures Faithful(p, s')
  {
  }

  // An operation is carried out for the request whose turn it is, after nothing but successes.
  lemma NextInTurn(p: Plan, s: State, i: nat)
    requires Safe(p, s) && i < |p.ids| && Status(s.table, p.ids[i]) == Running && i !in s.ending
    ensures i == s.acked == |s.acts| && AllOk(s.acts)
  {
    assert Agrees(p, s, i);
  }

  lemma ActKeepsOrder(p: Plan, s: State, s': State, i: nat, o: Outcome)
    requires Ordered(p, s) && Tracked(p, s) && i == s.acked == |s.acts| < |p.ids|
    requires Status(s.table, p.ids[i]) == Running && i !in s.ending
    requires s'.acts == s.acts + [Act(i, o)] && s'.ending == s.ending[i := o]
    requires s'.table == s.table && s'.replies == s.replies && s'.acked == s.acked
    ensures Ordered(p, s') && Tracked(p, s')
  {
    hide Status;
    hide Distinct;
    forall k | 0 <= k < |p.ids| ensures Agrees(p, s', k) {
      assert Agrees(p, s, k);
    }
  }

  /** What adding a chunk does to an upload. */
  lemma AddChunkTo(us: map<string, Upload>, id: string, index: nat, chunk: Text, now: real)
    requires 0 < |id| <= 128
    ensures var (us', r) := AddChunk(us, id, index, chunk, now);
      && var held := if id in us && now - us[id].touched < TTL then us[id].chunks else [];
      && (r.Ok? && index == |held| ==> id in us' && us'[id].chunks == held + [chunk])
      && (r.Ok? ==> index <= |held|)
      && (r.Err? && id in us' ==> us'[id].chunks == held || (id in us && us'[id] == us[id]))
  {
    hide Utf8;
    hide WellFormed;
    hide Characters;
  }

  lemma PerformChunkKeepsFaithful(p: Plan, s: State, i: nat, now: real, answer: Outcome)
    requires WellPlanned(p) && Safe(p, s) && Enabled(p, s, Perform(i, now, answer)) && i < |p.chunks|
    ensures Faithful(p, Step(p, s, Perform(i, now, answer)))
  {
    NextInTurn(p, s, i);
    hide Ordered;
    hide Tracked;
    AddChunkTo(s.uploads, p.upload, i, p.chunks[i], now);
    var s' := Step(p, s, Perform(i, now, answer));
    var (us', r) := AddChunk(s.uploads, p.upload, i, p.chunks[i], now);
    assert s'.acts[i].outcome == Plain(r) && s'.acts == s.acts + [Act(i, Plain(r))];
    hide AddChunk;
    hide Join;
    assert forall j :: 0 <= j < i ==> s'.acts[j] == s.acts[j];
    assert AllOk(s'.acts) <==> r.Ok?;
    if r.Ok? {
      assert p.chunks[..i] + [p.chunks[i]] == p.chunks[..i + 1];
    }
  }

  lemma PerformCompleteKeepsFaithful(p: Plan, s: State, now: real, answer: Outcome)
    requires WellPlanned(p) && Safe(p, s) && Enabled(p, s, Perform(|p.chunks|, now, answer))
    ensures Faithful(p, Step(p, s, Perform(|p.chunks|, now, answer)))
  {
    var n := |p.chunks|;
    NextInTurn(p, s, n);
    hide Ordered;
    hide Tracked;
    assert p.chunks[..n] == p.chunks;
    var s' := Step(p, s, Perform(n, now, answer));
    assert s'.acts == s.acts + [s'.acts[n]];
  }

  lemma PerformKeepsSafe(p: Plan, s: State, i: nat, now: real, answer: Outcome)
    requires WellPlanned(p) && Safe(p, s) && Enabled(p, s, Perform(i, now, answer))
    ensures Safe(p, Step(p, s, Perform(i, now, answer)))
  {
    var s' := Step(p, s, Perform(i, now, answer));
    NextInTurn(p, s, i);
    assert s'.acts == s.acts + [s'.acts[i]] && s'.ending == s.ending[i := s'.acts[i].outcome];
    ActKeepsOrder(p, s, s', i, s'.acts[i].outcome);
    if i < |p.chunks| {
      PerformChunkKeepsFaithful(p, s, i, now, answer);
    } else {
      PerformCompleteKeepsFaithful(p, s, now, answer);
    }
    hide *;
  }

  lemma FinishKeepsSafe(p: Plan, s: State, i: nat)
    requires WellPlanned(p) && Safe(p, s) && Enabled(p, s, Finish(i))
    ensures Safe(p, Step(p, s, Finish(i)))
  {
    var s' := Step(p, s, Finish(i));
    SameUploads(p, s, s');
    hide Faithful;
    forall k | 0 <= k < |p.ids| ensures Agrees(p, s', k) {
      assert Agrees(p, s, k) && Agrees(p, s, i);
      StatusAfterFinish(s.table, p.ids[i], s.ending[i], p.ids[k]);
      hide Status;
      hide Finished;
    }
    StatusAfterFinish(s.table, p.ids[i], s.ending[i], p.ids[i]);
    assert Agrees(p, s, i);
    hide Status;
    hide Finished;
    hide Distinct;
  }

  lemma ReceiveKeepsSafe(p: Plan, s: State, i: nat, o: Outcome)
    requires WellPlanned(p) && Safe(p, s) && Enabled(p, s, Receive(i, o))
    ensures Safe(p, Step(p, s, Receive(i, o)))
  {
    var s' := Step(p, s, Receive(i, o));
    SameUploads(p, s, s');
    hide Faithful;
    hide Status;
    hide Distinct;
    forall k | 0 <= k < |p.ids| ensures Agrees(p, s', k) {
      assert Agrees(p, s, k);
    }
  }

  lemma OtherTableKeepsSafe(p: Plan, s: State, e: Move)
    requires WellPlanned(p) && Safe(p, s) && Enabled(p, s, e) && (e.OtherArrive? || e.OtherDone?)
    ensures Safe(p, Step(p, s, e))
  {
    var s' := Step(p, s, e);
    SameUploads(p, s, s');
    hide Faithful;
    if e.OtherArrive? && (e.id == "" || |e.id| > 128) {
      assert s' == s;
      return;
    }
    assert Ordered(p, s');
    hide Ordered;
    forall k | 0 <= k < |p.ids| ensures Agrees(p, s', k) && Distinct(s'.table) && |s'.table| <= MAX_REQUESTS {
      assert Agrees(p, s, k) && p.ids[k] in p.ids;
      if e.OtherArrive? {
        assert Stays(s.table, p.ids[k], e.id, e.now);
        StatusAfterSubmit(s.table, e.id, e.now, p.ids[k]);
      } else {
        StatusAfterFinish(s.table, e.id, e.o, p.ids[k]);
      }
      hide Status;
      hide Finished;
      hide Submitted;
    }
    assert Agrees(p, s', 0);
    hide Status;
    hide Finished;
    hide Submitted;
    hide Distinct;
  }

  lemma OtherUploadKeepsSafe(p: Plan, s: State, e: Move)
    requires WellPlanned(p) && Safe(p, s) && Enabled(p, s, e) && (e.OtherChunk? || e.OtherComplete?)
    ensures Safe(p, Step(p, s, e))
  {
    hide AddChunk;
    var s' := Step(p, s, e);
    if e.OtherChunk? { AddChunkBeside(s.uploads, e.upload, e.index, e.chunk, e.now, p.upload); }
    assert s' == s.(uploads := s'.uploads, lost := s'.lost);
    SameTable(p, s, s');
    hide Ordered;
    hide Tracked;
    hide Join;
  }

  // Another upload's chunk changes no chunk of this one.
  lemma AddChunkBeside(us: map<string, Upload>, id: string, index: int, chunk: Text, now: real, other: string)
    requires id != other
    ensures var us' := AddChunk(us, id, index, chunk, now).0;
      other in us' ==> other in us && us'[other] == us[other]
  {
    hide Utf8;
    hide WellFormed;
    hide Characters;
  }

  lemma SameTable(p: Plan, s: State, s': State)
    requires Ordered(p, s) && Tracked(p, s) && s' == s.(uploads := s'.uploads, lost := s'.lost)
    ensures Ordered(p, s') && Tracked(p, s')
  {
    hide Status;
    hide Distinct;
    forall k | 0 <= k < |p.ids| ensures Agrees(p, s', k) {
      assert Agrees(p, s, k);
    }
  }

  // ---- Whole runs ---------------------------------------------------------------------------

  predicate LegalFrom(p: Plan, s: State, es: seq<Move>)
    requires WellPlanned(p)
    decreases |es|, 0
  {
    es == [] || (LegalFrom(p, s, es[..|es| - 1]) && Enabled(p, StateAfter(p, s, es[..|es| - 1]), es[|es| - 1]))
  }

  function StateAfter(p: Plan, s: State, es: seq<Move>): State
    requires WellPlanned(p) && LegalFrom(p, s, es)
    decreases |es|, 1
  {
    if es == [] then s else Step(p, StateAfter(p, s, es[..|es| - 1]), es[|es| - 1])
  }

  lemma StepKeepsSafe(p: Plan, s: State, e: Move)
    requires WellPlanned(p) && Safe(p, s) && Enabled(p, s, e)
    ensures Safe(p, Step(p, s, e))
  {
    match e
    case Arrive(i, now) => hide *; ArriveKeepsSafe(p, s, i, now);
    case Perform(i, now, answer) => hide *; PerformKeepsSafe(p, s, i, now, answer);
    case Finish(i) => hide *; FinishKeepsSafe(p, s, i);
    case Receive(i, o) => hide *; ReceiveKeepsSafe(p, s, i, o);
    case GiveUp =>
      hide Status;
      hide Distinct;
      var s' := Step(p, s, e);
      SameUploads(p, s, s');
      assert forall k :: 0 <= k < |p.ids| && Agrees(p, s, k) ==> Agrees(p, s', k);
    case OtherArrive(_, _) => hide *; OtherTableKeepsSafe(p, s, e);
    case OtherDone(_, _) => hide *; OtherTableKeepsSafe(p, s, e);
    case OtherChunk(_, _, _, _) => hide *; OtherUploadKeepsSafe(p, s, e);
    case OtherComplete(_) => hide *; OtherUploadKeepsSafe(p, s, e);
  }

  lemma {:induction false} RunsAreSafe(p: Plan, s: State, es: seq<Move>)
    requires WellPlanned(p) && Initial(p, s) && LegalFrom(p, s, es)
    ensures Safe(p, StateAfter(p, s, es))
  {
    if es == [] {
      hide Status;
      hide Distinct;
    } else {
      var front := es[..|es| - 1];
      RunsAreSafe(p, s, front);
      hide Safe;
      hide Enabled;
      hide Step;
      StepKeepsSafe(p, StateAfter(p, s, front), es[|es| - 1]);
    }
  }

  /** Over every run: the helper's chunks are a prefix of the payload's, exactly one operation per
      request and in order, at most one of them unacknowledged; the store is given the exact payload
      and at most once; and a sender that was told of success can rely on that. */
  lemma UploadIsFaithful(p: Plan, payload: Text, s: State, es: seq<Move>)
    requires WellPlanned(p) && Cutting(payload, p.chunks) && Initial(p, s) && LegalFrom(p, s, es)
    ensures var t := StateAfter(p, s, es);
      && (p.upload in t.uploads ==> t.uploads[p.upload].chunks <= p.chunks)
      && (forall j :: 0 <= j < |t.acts| ==> t.acts[j].request == j)
      && t.acked <= |t.acts| <= t.acked + 1
      && (t.stored == [] || t.stored == [payload])
      && (t.acked == |p.ids| ==> t.stored == [payload])
      && (AllOk(t.acts) && !t.lost && p.upload in t.uploads ==> |t.uploads[p.upload].chunks| in {t.acked, t.acked + 1})
      && (AllOk(t.acts) && !t.lost && 0 < t.acked <= |p.chunks| && |t.acts| <= |p.chunks| ==> p.upload in t.uploads)
  {
    RunsAreSafe(p, s, es);
    hide Tracked;
    hide Step;
    hide Enabled;
    hide Join;
    assert Join(p.chunks) == payload;
    hide Cutting;
  }
}
