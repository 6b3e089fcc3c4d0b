/** The helper's end of the acknowledged upload RPC: a request table that runs each id once and
    answers every delivery of it, and the uploads being assembled from chunks. */
module IngestRpc {
  import opened Wrappers
  import opened Chunking

  const TTL := 600.0
  const MAX_REQUESTS := 512
  const MAX_UPLOADS := 8
  const MAX_CHARACTERS := 262144
  const MAX_BYTES := 64 * 1024 * 1024

  type Outcome = Result<string, string>

  /** One remembered request: when it was submitted (not when it finished), its outcome once its
      execution is done, and the deliveries waiting for that. */
  datatype Entry = Entry(id: string, submitted: real, outcome: Option<Outcome>, waiters: nat)

  datatype Submission = Ignored | Refused | Started | Joined | Answered(outcome: Outcome)

  // ---- The request table, on values ---------------------------------------------------------

  predicate Kept(e: Entry, now: real) { e.outcome.None? || now - e.submitted < TTL }

  function Prune(es: seq<Entry>, now: real): seq<Entry> {
    if es == [] then []
    else Prune(es[..|es| - 1], now) + if Kept(es[|es| - 1], now) then [es[|es| - 1]] else []
  }

  // The place of an id, or the length when it has none.
  function Place(es: seq<Entry>, id: string): (i: nat)
    ensures i <= |es| && (i < |es| ==> es[i].id == id) && forall j :: 0 <= j < i ==> es[j].id != id
  {
    if es == [] || es[0].id == id then 0
    else
      assert forall j :: 1 <= j < |es| ==> es[j] == es[1..][j - 1];
      1 + Place(es[1..], id)
  }

  // The oldest finished entry, or the length when there is none.
  function FirstDone(es: seq<Entry>): (i: nat)
    ensures i <= |es| && (i < |es| ==> es[i].outcome.Some?) && forall j :: 0 <= j < i ==> es[j].outcome.None?
  {
    if es == [] || es[0].outcome.Some? then 0
    else
      assert forall j :: 1 <= j < |es| ==> es[j] == es[1..][j - 1];
      1 + FirstDone(es[1..])
  }

  function Without(es: seq<Entry>, i: nat): seq<Entry>
    requires i < |es|
  {
    es[..i] + es[i + 1..]
  }

  function Submitted(es: seq<Entry>, id: string, now: real): (seq<Entry>, Submission) {
    if id == "" || |id| > 128 then (es, Ignored) else Admit(Prune(es, now), id, now)
  }

  function Admit(live: seq<Entry>, id: string, now: real): (seq<Entry>, Submission) {
    var i := Place(live, id);
    if i < |live| then
      if live[i].outcome.Some? then (live, Answered(live[i].outcome.value))
      else (live[i := live[i].(waiters := live[i].waiters + 1)], Joined)
    else if |live| < MAX_REQUESTS then (live + [Entry(id, now, None, 1)], Started)
    else if FirstDone(live) == |live| then (live, Refused)
    else (Without(live, FirstDone(live)) + [Entry(id, now, None, 1)], Started)
  }

  function Finished(es: seq<Entry>, id: string, o: Outcome): seq<Entry> {
    var i := Place(es, id);
    if i < |es| then es[i := es[i].(outcome := Some(o), waiters := 0)] else es
  }

  function Waiting(es: seq<Entry>, id: string): nat {
    if Place(es, id) < |es| then es[Place(es, id)].waiters else 0
  }

  // ---- The table's own laws -----------------------------------------------------------------

  predicate Distinct(es: seq<Entry>) { forall i, j :: 0 <= i < j < |es| ==> es[i].id != es[j].id }

  lemma {:induction false} PruneKeeps(es: seq<Entry>, now: real)
    requires Distinct(es)
    ensures Distinct(Prune(es, now)) && |Prune(es, now)| <= |es|
    ensures forall e :: e in Prune(es, now) <==> e in es && Kept(e, now)
  {
    if es != [] {
      var front := es[..|es| - 1];
      PruneKeeps(front, now);
      var p, last := Prune(front, now), es[|es| - 1];
      assert es == front + [last];
      forall i | 0 <= i < |p| ensures p[i].id != last.id {
        assert p[i] in front;
      }
    }
  }

  predicate Pending(es: seq<Entry>, id: string) { exists e :: e in es && e.id == id && e.outcome.None? }

  /** What a submission answers with, and the entry behind it. */
  predicate Accounted(es: seq<Entry>, es': seq<Entry>, s: Submission, id: string, now: real) {
    match s
    case Ignored => es' == es
    case Refused => !exists e :: e in es' && e.id == id
    case Started => Entry(id, now, None, 1) in es'
    case Joined => exists e :: e in es && e.id == id && e.outcome.None? && e.(waiters := e.waiters + 1) in es'
    case Answered(o) => exists e :: e in es && e in es' && e.id == id && e.outcome == Some(o)
  }

  /** A submission never forgets an unfinished request, and the table stays bounded and distinct.
      Of the other entries it may forget finished ones and changes none. */
  lemma SubmitKeeps(es: seq<Entry>, id: string, now: real)
    requires Distinct(es) && |es| <= MAX_REQUESTS
    ensures Distinct(Submitted(es, id, now).0) && |Submitted(es, id, now).0| <= MAX_REQUESTS
    ensures forall e :: e in es && e.outcome.None? && e.id != id ==> e in Submitted(es, id, now).0
    ensures forall e :: e in Submitted(es, id, now).0 && e.id != id ==> e in es
    ensures Accounted(es, Submitted(es, id, now).0, Submitted(es, id, now).1, id, now)
    ensures Submitted(es, id, now).1 in {Started, Refused} ==> !exists e :: e in es && e.id == id && Kept(e, now)
  {
    PruneKeeps(es, now);
    var live := Prune(es, now);
    hide Prune;
    if id != "" && |id| <= 128 {
      AdmitKeeps(live, id, now);
      hide Admit;
      hide Distinct;
    }
  }

  lemma AdmitKeeps(live: seq<Entry>, id: string, now: real)
    requires Distinct(live) && |live| <= MAX_REQUESTS
    ensures Distinct(Admit(live, id, now).0) && |Admit(live, id, now).0| <= MAX_REQUESTS
    ensures forall e :: e in live && e.outcome.None? && e.id != id ==> e in Admit(live, id, now).0
    ensures forall e :: e in Admit(live, id, now).0 && e.id != id ==> e in live
    ensures Accounted(live, Admit(live, id, now).0, Admit(live, id, now).1, id, now)
    ensures Admit(live, id, now).1 in {Started, Refused} ==> !exists e :: e in live && e.id == id
    ensures Admit(live, id, now).1 != Ignored
  {
    var i := Place(live, id);
    if i < |live| {
      assert live[i] in live;
      UpdateKeeps(live, i, live[i].(waiters := live[i].waiters + 1));
      hide Distinct;
    } else {
      assert forall e :: e in live ==> e.id != id;
      var d := FirstDone(live);
      if |live| < MAX_REQUESTS {
        AppendKeeps(live, Entry(id, now, None, 1));
      } else if d < |live| {
        WithoutKeeps(live, d);
        AppendKeeps(Without(live, d), Entry(id, now, None, 1));
      }
      hide Distinct;
    }
  }

  lemma AppendKeeps(es: seq<Entry>, x: Entry)
    requires Distinct(es) && forall e :: e in es ==> e.id != x.id
    ensures Distinct(es + [x])
    ensures forall e :: e in es + [x] <==> e in es || e == x
  {
  }

  lemma UpdateKeeps(es: seq<Entry>, i: nat, x: Entry)
    requires Distinct(es) && i < |es| && x.id == es[i].id
    ensures Distinct(es[i := x]) && x in es[i := x]
    ensures forall e :: e in es && e.id != x.id ==> e in es[i := x]
    ensures forall e :: e in es[i := x] && e.id != x.id ==> e in es
  {
    var u := es[i := x];
    assert u[i] == x;
    forall e | e in es && e.id != x.id ensures e in u {
      var j :| 0 <= j < |es| && es[j] == e;
      assert u[j] == e;
    }
  }

  lemma WithoutKeeps(es: seq<Entry>, d: nat)
    requires Distinct(es) && d < |es|
    ensures Distinct(Without(es, d)) && |Without(es, d)| == |es| - 1
    ensures forall e :: e in Without(es, d) <==> e in es && e != es[d]
  {
    var w := Without(es, d);
    forall i | 0 <= i < |w| ensures w[i] == es[if i < d then i else i + 1] {}
    forall e | e in es && e != es[d] ensures e in w {
      var j :| 0 <= j < |es| && es[j] == e;
      assert w[if j < d then j else j - 1] == e;
    }
  }

  /** Exactly when a delivered id runs (again): it is well formed, no entry for it is unfinished or
      younger than the limit counted from its submission, and the table has room or a finished
      entry to give up. */
  lemma RunsExactlyWhen(es: seq<Entry>, id: string, now: real)
    requires Distinct(es)
    ensures Submitted(es, id, now).1 == Started <==>
      && 0 < |id| <= 128
      && (forall e :: e in es && e.id == id ==> e.outcome.Some? && now - e.submitted >= TTL)
      && (|Prune(es, now)| < MAX_REQUESTS || exists e :: e in Prune(es, now) && e.outcome.Some?)
  {
    PruneKeeps(es, now);
    var live := Prune(es, now);
    hide Prune;
    hide Distinct;
    if 0 < |id| <= 128 {
      var i := Place(live, id);
      if i < |live| {
        assert live[i] in live;
      } else {
        assert forall e :: e in live ==> e.id != id;
        if FirstDone(live) < |live| { assert live[FirstDone(live)] in live; }
      }
    }
  }

  // ---- The uploads, on values ---------------------------------------------------------------

  /** An upload being assembled: when it last grew, its chunks, and their size in UTF-8 bytes. */
  datatype Upload = Upload(touched: real, chunks: seq<Text>, bytes: nat)

  function Unexpired(us: map<string, Upload>, now: real): map<string, Upload> {
    map k | k in us && now - us[k].touched < TTL :: us[k]
  }

  function AddChunk(us: map<string, Upload>, id: string, index: int, chunk: Text, now: real)
    : (map<string, Upload>, Result<int, string>)
  {
    if id == "" || |id| > 128 || index < 0 || Characters(chunk) > MAX_CHARACTERS then (us, Err("Invalid upload chunk"))
    else
      var live := Unexpired(us, now);
      if id !in live && |live| >= MAX_UPLOADS then (live, Err("Too many pending uploads"))
      else
        var u := if id in live then live[id] else Upload(now, [], 0);
        var kept := live[id := u];
        if index < |u.chunks| && u.chunks[index] == chunk then (kept, Ok(index))
        else if index != |u.chunks| then (kept, Err("Upload chunks must arrive in order"))
        else if !WellFormed(chunk) then (kept, Err("surrogates not allowed"))
        else if u.bytes + |Utf8(chunk)| > MAX_BYTES then (kept - {id}, Err("Upload exceeds 64 MiB"))
        else (kept[id := Upload(now, u.chunks + [chunk], u.bytes + |Utf8(chunk)|)], Ok(index))
  }

  function TakeUpload(us: map<string, Upload>, id: string): (map<string, Upload>, Option<Text>) {
    (us - {id}, if id in us then Some(Join(us[id].chunks)) else None)
  }

  /** Each upload counts the bytes of its chunks, stays within the limit, and there are at most
      eight. */
  ghost predicate Weighed(us: map<string, Upload>) {
    && |us| <= MAX_UPLOADS
    && forall k :: k in us ==> us[k].bytes == TotalBytes(us[k].chunks) <= MAX_BYTES
  }

  lemma FewerKeys<V>(a: map<string, V>, b: map<string, V>)
    requires a.Keys <= b.Keys
    ensures |a| <= |b|
  {
    assert |a| == |a.Keys| && |b| == |b.Keys|;
    FewerElements(a.Keys, b.Keys);
  }

  lemma WeighedPut(us: map<string, Upload>, id: string, u: Upload)
    requires Weighed(us) && (id in us || |us| < MAX_UPLOADS) && u.bytes == TotalBytes(u.chunks) <= MAX_BYTES
    ensures Weighed(us[id := u])
  {
    assert us[id := u].Keys == us.Keys + {id};
    assert |us[id := u]| == |us[id := u].Keys| && |us| == |us.Keys|;
  }

  lemma WeighedFewer(us: map<string, Upload>, us': map<string, Upload>)
    requires Weighed(us) && forall k :: k in us' ==> k in us && us'[k] == us[k]
    ensures Weighed(us')
  {
    FewerKeys(us', us);
  }

  lemma WeighedDrop(us: map<string, Upload>, id: string)
    requires Weighed(us)
    ensures Weighed(us - {id})
  {
    WeighedFewer(us, us - {id});
  }

  /** Uploads stay weighed, whatever chunk comes. */
  lemma AddChunkKeepsWeighed(us: map<string, Upload>, id: string, index: int, chunk: Text, now: real)
    requires Weighed(us)
    ensures Weighed(AddChunk(us, id, index, chunk, now).0)
  {
    hide *;
    var live := Unexpired(us, now);
    AddChunkLeaves(us, id, index, chunk, now);
    WeighedUnexpired(us, now);
    if id in live {
      WeighedUpload(live, id);
      ChunkKeepsWeighed(live, id, live[id], chunk, now);
    } else if |live| < MAX_UPLOADS {
      NoBytes();
      ChunkKeepsWeighed(live, id, Upload(now, [], 0), chunk, now);
    }
  }

  lemma AddChunkLeaves(us: map<string, Upload>, id: string, index: int, chunk: Text, now: real)
    ensures var left, live := AddChunk(us, id, index, chunk, now).0, Unexpired(us, now);
      var u := if id in live then live[id] else Upload(now, [], 0); var bytes := u.bytes + |Utf8(chunk)|;
      || left == us || left == live
      || ((id in live || |live| < MAX_UPLOADS)
          && (left == live[id := u] || left == live[id := u] - {id}
              || (bytes <= MAX_BYTES && left == live[id := u][id := Upload(now, u.chunks + [chunk], bytes)])))
  {
    hide Utf8;
    hide WellFormed;
    hide Characters;
    hide Unexpired;
  }

  lemma WeighedUnexpired(us: map<string, Upload>, now: real)
    requires Weighed(us)
    ensures Weighed(Unexpired(us, now))
  {
    WeighedFewer(us, Unexpired(us, now));
  }

  lemma NoBytes()
    ensures TotalBytes([]) == 0 <= MAX_BYTES
  {
  }

  lemma OneMoreChunk(chunks: seq<Text>, chunk: Text)
    ensures TotalBytes(chunks + [chunk]) == TotalBytes(chunks) + |Utf8(chunk)|
  {
    assert (chunks + [chunk])[..|chunks|] == chunks;
  }

  // Whatever becomes of a chunk for upload `u`, the uploads stay weighed.
  lemma ChunkKeepsWeighed(live: map<string, Upload>, id: string, u: Upload, chunk: Text, now: real)
    requires Weighed(live) && (id in live || |live| < MAX_UPLOADS) && u.bytes == TotalBytes(u.chunks) <= MAX_BYTES
    ensures Weighed(live[id := u]) && Weighed(live[id := u] - {id})
    ensures var bytes := u.bytes + |Utf8(chunk)|;
      bytes <= MAX_BYTES ==> Weighed(live[id := u][id := Upload(now, u.chunks + [chunk], bytes)])
  {
    hide *;
    OneMoreChunk(u.chunks, chunk);
    WeighedPut(live, id, u);
    WeighedDrop(live[id := u], id);
    var bytes := u.bytes + |Utf8(chunk)|;
    if bytes <= MAX_BYTES { WeighedPut(live[id := u], id, Upload(now, u.chunks + [chunk], bytes)); }
  }

  lemma WeighedUpload(live: map<string, Upload>, id: string)
    requires Weighed(live) && id in live
    ensures live[id].bytes == TotalBytes(live[id].chunks) <= MAX_BYTES
  {
  }

  // The size that the first `n` chunks have brought an upload to.
  function BytesUpTo(chunks: seq<Text>, n: nat): nat
    requires n <= |chunks|
  {
    TotalBytes(chunks[..n])
  }

  lemma {:induction false} BytesGrow(chunks: seq<Text>, m: nat, n: nat)
    requires m <= n <= |chunks|
    ensures BytesUpTo(chunks, m) <= BytesUpTo(chunks, n)
  {
    hide Utf8;
    if m < n {
      BytesGrow(chunks, m, n - 1);
      assert chunks[..n][..n - 1] == chunks[..n - 1];
    }
  }

  /** The size check at each chunk rejects some chunk of a cut payload exactly when the payload is
      larger than the limit: checking chunk by chunk is checking the whole. */
  lemma SizeCheckIsExact(payload: Text, chunks: seq<Text>)
    requires Cutting(payload, chunks)
    ensures (exists n :: 0 <= n < |chunks| && BytesUpTo(chunks, n) + |Utf8(chunks[n])| > MAX_BYTES)
        <==> |Utf8(payload)| > MAX_BYTES
  {
    CuttingEncodes(payload, chunks);
    hide Utf8;
    assert chunks[..|chunks|] == chunks;
    forall n | 0 <= n < |chunks| ensures BytesUpTo(chunks, n) + |Utf8(chunks[n])| == BytesUpTo(chunks, n + 1) {
      assert chunks[..n + 1][..n] == chunks[..n];
    }
    if n :| 0 <= n < |chunks| && BytesUpTo(chunks, n) + |Utf8(chunks[n])| > MAX_BYTES {
      BytesGrow(chunks, n + 1, |chunks|);
    }
    if TotalBytes(chunks) > MAX_BYTES {
      assert BytesUpTo(chunks, |chunks| - 1) + |Utf8(chunks[|chunks| - 1])| == BytesUpTo(chunks, |chunks|);
    }
  }

  // ---- Runs of the table --------------------------------------------------------------------

  datatype Event = Deliver(id: string, now: real) | Done(id: string, outcome: Outcome)

  /** What has been accepted and answered for an id since its current execution began. */
  datatype Tally = Tally(delivered: nat, answers: seq<Outcome>)

  /** The table, the executions in progress, and the account of each id. */
  datatype Run = Run(table: seq<Entry>, executing: multiset<string>, ledger: map<string, Tally>)

  const INITIAL := Run([], multiset{}, map[])

  predicate Enabled(r: Run, e: Event) { e.Done? ==> e.id in r.executing }

  function Repeat(o: Outcome, n: nat): seq<Outcome> { seq(n, i => o) }

  function Next(r: Run, e: Event): Run {
    match e
    case Deliver(id, now) =>
      var (table, s) := Submitted(r.table, id, now);
      var t := if id in r.ledger then r.ledger[id] else Tally(0, []);
      (match s
       case Ignored => r
       case Refused => r.(table := table)
       case Started => Run(table, r.executing + multiset{id}, r.ledger[id := Tally(1, [])])
       case Joined => r.(table := table, ledger := r.ledger[id := Tally(t.delivered + 1, t.answers)])
       case Answered(o) => r.(table := table, ledger := r.ledger[id := Tally(t.delivered + 1, t.answers + [o])]))
    case Done(id, o) =>
      var t := if id in r.ledger then r.ledger[id] else Tally(0, []);
      Run(Finished(r.table, id, o), r.executing - multiset{id},
          r.ledger[id := Tally(t.delivered, t.answers + Repeat(o, Waiting(r.table, id)))])
  }

  /** The account of an entry: while it runs, every delivery waits; once it is done, every delivery
      has been answered, with its outcome. */
  predicate Settled(e: Entry, t: Tally) {
    if e.outcome.None? then t.answers == [] && e.waiters == t.delivered
    else e.waiters == 0 && t.answers == Repeat(e.outcome.value, t.delivered)
  }

  ghost predicate Sound(r: Run) {
    && Distinct(r.table) && |r.table| <= MAX_REQUESTS
    && (forall id :: r.executing[id] == if Pending(r.table, id) then 1 else 0)
    && (forall e :: e in r.table ==> e.id in r.ledger && Settled(e, r.ledger[e.id]))
  }

  /** An unfinished request is never forgotten, and only one that is not unfinished is started. */
  lemma PendingAfterSubmit(es: seq<Entry>, id: string, now: real)
    requires Distinct(es) && |es| <= MAX_REQUESTS
    ensures forall k :: Pending(Submitted(es, id, now).0, k) <==>
              Pending(es, k) || (k == id && Submitted(es, id, now).1 == Started)
    ensures Submitted(es, id, now).1 == Started ==> !Pending(es, id)
  {
    SubmitKeeps(es, id, now);
    var (es', s) := Submitted(es, id, now);
    hide Submitted;
    OneEntry(es, id);
    OneEntry(es', id);
    hide Distinct;
    if Pending(es, id) {
      var e :| e in es && e.id == id && e.outcome.None?;
      assert Kept(e, now);
    }
    match s
    case Joined =>
      var e :| e in es && e.id == id && e.outcome.None? && e.(waiters := e.waiters + 1) in es';
      assert e.(waiters := e.waiters + 1).outcome.None?;
    case Started =>
      assert Entry(id, now, None, 1).outcome.None?;
    case _ =>
  }

  lemma DeliverKeepsSound(r: Run, id: string, now: real)
    requires Sound(r)
    ensures Sound(Next(r, Deliver(id, now)))
  {
    SubmitKeeps(r.table, id, now);
    PendingAfterSubmit(r.table, id, now);
    var (table, s) := Submitted(r.table, id, now);
    var r' := Next(r, Deliver(id, now));
    OneEntry(table, id);
    OneEntry(r.table, id);
    hide Submitted;
    hide Distinct;
    hide Pending;
    forall e | e in r'.table ensures e.id in r'.ledger && Settled(e, r'.ledger[e.id]) {
      if e.id != id { assert e in r.table; }
    }
  }

  lemma OneEntry(es: seq<Entry>, id: string)
    requires Distinct(es)
    ensures forall e, f :: e in es && f in es && e.id == id && f.id == id ==> e == f
  {
  }

  lemma DoneKeepsSound(r: Run, id: string, o: Outcome)
    requires Sound(r) && id in r.executing
    ensures Sound(Next(r, Done(id, o)))
  {
    var es, r' := r.table, Next(r, Done(id, o));
    assert Pending(es, id);
    var e :| e in es && e.id == id && e.outcome.None?;
    var i := Place(es, id);
    OneEntry(es, id);
    assert i < |es| && es[i] in es;
    var x := es[i].(outcome := Some(o), waiters := 0);
    UpdateKeeps(es, i, x);
    OneEntry(r'.table, id);
    hide Distinct;
    forall k ensures r'.executing[k] == if Pending(r'.table, k) then 1 else 0 {
      assert k != id ==> (Pending(r'.table, k) <==> Pending(es, k));
    }
    forall f | f in r'.table ensures f.id in r'.ledger && Settled(f, r'.ledger[f.id]) {
      if f.id != id { assert f in es; }
    }
  }

  // ---- Whole runs ---------------------------------------------------------------------------

  function After(events: seq<Event>): Run {
    if events == [] then INITIAL else Next(After(events[..|events| - 1]), events[|events| - 1])
  }

  /** An execution ends only while it is in progress. */
  predicate Legal(events: seq<Event>) {
    events == [] || (Legal(events[..|events| - 1]) && Enabled(After(events[..|events| - 1]), events[|events| - 1]))
  }

  lemma {:induction false} RunsAreSound(events: seq<Event>)
    requires Legal(events)
    ensures Sound(After(events))
  {
    if events != [] {
      var front := events[..|events| - 1];
      RunsAreSound(front);
      hide Sound;
      match events[|events| - 1]
      case Deliver(id, now) => DeliverKeepsSound(After(front), id, now);
      case Done(id, o) => DoneKeepsSound(After(front), id, o);
    }
  }

  /** Over every run of deliveries and completions: no id is executing twice at once, what is
      executing is in the table, the table holds at most 512 requests, and each finished entry has
      answered each delivery accepted since its execution began, with that execution's outcome. */
  lemma EveryDeliveryAnsweredOnce(events: seq<Event>, id: string)
    requires Legal(events)
    ensures var r := After(events);
      && r.executing[id] <= 1 && (id in r.executing ==> Pending(r.table, id))
      && |r.table| <= MAX_REQUESTS
      && forall e :: e in r.table && e.id == id && e.outcome.Some? ==>
           id in r.ledger && r.ledger[id].answers == Repeat(e.outcome.value, r.ledger[id].delivered)
  {
    RunsAreSound(events);
    hide Distinct;
    hide Next;
    hide Pending;
  }

  /** Once only holds no longer than that: an id whose execution is over is run again by a delivery
      600 s after its submission. */
  lemma RunsTwiceAfterExpiry() returns (events: seq<Event>)
    ensures Legal(events) && |events| == 3
    ensures events[1] == Done("a", Ok("saved"))
    ensures Submitted(After(events[..2]).table, "a", 600.0).1 == Started
    ensures events[2] == Deliver("a", 600.0)
  {
    var first, second, third := Deliver("a", 0.0), Done("a", Ok("saved")), Deliver("a", 600.0);
    events := [first, second, third];
    assert events[..1] == [first] && events[..2] == [first, second] && events[..2][..1] == [first] && [first][..0] == [];
    assert After([]) == INITIAL && Legal([]);
    var r1, r2 := Next(INITIAL, first), Next(Next(INITIAL, first), second);
    RunsOnce();
    ForgottenAtLast();
    assert Enabled(INITIAL, first) && Enabled(r1, second) && Enabled(r2, third);
    hide Next;
    hide Submitted;
    hide Enabled;
    assert After([first]) == r1 && Legal([first]);
    assert After([first, second]) == r2 && Legal([first, second]);
  }

  lemma RunsOnce()
    ensures "a" in Next(INITIAL, Deliver("a", 0.0)).executing
    ensures Next(Next(INITIAL, Deliver("a", 0.0)), Done("a", Ok("saved"))).table == [Entry("a", 0.0, Some(Ok("saved")), 0)]
  {
    assert Prune([], 0.0) == [] && [] + [Entry("a", 0.0, None, 1)] == [Entry("a", 0.0, None, 1)];
    assert Submitted([], "a", 0.0) == ([Entry("a", 0.0, None, 1)], Started);
  }

  lemma ForgottenAtLast()
    ensures Submitted([Entry("a", 0.0, Some(Ok("saved")), 0)], "a", 600.0).1 == Started
  {
    var e := Entry("a", 0.0, Some(Ok("saved")), 0);
    assert [e][..0] == [] && Prune([], 600.0) == [];
    assert Prune([e], 600.0) == [];
  }

  // ---- The object ---------------------------------------------------------------------------

  class IngestRPC {
    var requests: seq<Entry>               // in order of submission
    var uploads: map<string, Upload>
    var sent: seq<(string, Outcome)>       // the replies handed to the socket

    constructor ()
      ensures requests == [] && uploads == map[] && sent == []
    {
      requests, uploads, sent := [], map[], [];
    }

    static method Lookup(es: seq<Entry>, id: string) returns (i: nat)
      ensures i == Place(es, id)
    {
      i := 0;
      while i < |es| && es[i].id != id
        invariant i <= |es| && forall j :: 0 <= j < i ==> es[j].id != id
      {
        i := i + 1;
      }
    }

    static method OldestDone(es: seq<Entry>) returns (i: nat)
      ensures i == FirstDone(es)
    {
      i := 0;
      while i < |es| && es[i].outcome.None?
        invariant i <= |es| && forall j :: 0 <= j < i ==> es[j].outcome.None?
      {
        i := i + 1;
      }
    }

    static method Unforgotten(es: seq<Entry>, now: real) returns (live: seq<Entry>)
      ensures live == Prune(es, now)
    {
      live := [];
      for i := 0 to |es|
        invariant live == Prune(es[..i], now)
      {
        assert es[..i + 1][..i] == es[..i];
        if es[i].outcome.None? || now - es[i].submitted < TTL {
          live := live + [es[i]];
        }
      }
      assert es[..|es|] == es;
    }

    /** One delivery of a request. */
    method Submit(id: string, now: real) returns (s: Submission)
      modifies this`requests, this`sent
      ensures (requests, s) == Submitted(old(requests), id, now)
      ensures sent == old(sent) + match s
                                  case Answered(o) => [(id, o)]
                                  case Refused => [(id, Err("Ingest queue is full"))]
                                  case _ => []
    {
      hide Prune;
      if id == "" || |id| > 128 { return Ignored; }
      requests := Unforgotten(requests, now);
      var i := Lookup(requests, id);
      if i < |requests| {
        if requests[i].outcome.Some? {
          sent := sent + [(id, requests[i].outcome.value)];
          return Answered(requests[i].outcome.value);
        }
        requests := requests[i := requests[i].(waiters := requests[i].waiters + 1)];
        return Joined;
      }
      if |requests| >= MAX_REQUESTS {
        var oldest := OldestDone(requests);
        if oldest == |requests| {
          sent := sent + [(id, Err("Ingest queue is full"))];
          return Refused;
        }
        requests := requests[..oldest] + requests[oldest + 1..];
      }
      requests := requests + [Entry(id, now, None, 1)];
      return Started;
    }

    /** The end of an execution: every delivery that waits for it is answered. */
    method Reply(id: string, outcome: Outcome)
      modifies this`requests, this`sent
      ensures requests == Finished(old(requests), id, outcome)
      ensures sent == old(sent) + seq(Waiting(old(requests), id), k => (id, outcome))
    {
      var i := Lookup(requests, id);
      if i < |requests| {
        var waiters := requests[i].waiters;
        for n := 0 to waiters
          invariant requests == old(requests) && sent == old(sent) + seq(n, k => (id, outcome))
        {
          assert seq(n + 1, k => (id, outcome)) == seq(n, k => (id, outcome)) + [(id, outcome)];
          sent := sent + [(id, outcome)];
        }
        requests := requests[i := requests[i].(outcome := Some(outcome), waiters := 0)];
      }
    }

    /** The `chunk` operation. */
    method ExecuteChunk(id: string, index: int, chunk: Text, now: real) returns (r: Result<int, string>)
      modifies this`uploads
      ensures (uploads, r) == AddChunk(old(uploads), id, index, chunk, now)
    {
      hide Utf8;
      hide WellFormed;
      if id == "" || |id| > 128 || index < 0 || Characters(chunk) > MAX_CHARACTERS {
        return Err("Invalid upload chunk");
      }
      uploads := map k | k in uploads && now - uploads[k].touched < TTL :: uploads[k];
      if id !in uploads {
        if |uploads| >= MAX_UPLOADS { return Err("Too many pending uploads"); }
        uploads := uploads[id := Upload(now, [], 0)];
      }
      assert uploads[id := uploads[id]] == uploads;
      var chunks := uploads[id].chunks;
      if index < |chunks| && chunks[index] == chunk { return Ok(index); }
      if index != |chunks| { return Err("Upload chunks must arrive in order"); }
      if !WellFormed(chunk) { return Err("surrogates not allowed"); }
      var size := |Utf8(chunk)|;
      if uploads[id].bytes + size > MAX_BYTES {
        uploads := uploads - {id};
        return Err("Upload exceeds 64 MiB");
      }
      uploads := uploads[id := Upload(now, chunks + [chunk], uploads[id].bytes + size)];
      return Ok(index);
    }

    /** The `complete` operation, up to the decoding of the text it takes. */
    method ExecuteComplete(id: string) returns (text: Option<Text>)
      modifies this`uploads
      ensures (uploads, text) == TakeUpload(old(uploads), id)
    {
      if id !in uploads {
        assert uploads - {id} == uploads;
        return None;
      }
      var chunks := uploads[id].chunks;
      uploads := uploads - {id};
      var joined: Text := [];
      for i := 0 to |chunks|
        invariant joined == Join(chunks[..i])
      {
        assert chunks[..i + 1][..i] == chunks[..i];
        joined := joined + chunks[i];
      }
      assert chunks[..|chunks|] == chunks;
      return Some(joined);
    }
  }
}
