/** The crawler's sink: idempotent writes of records by their dedup key, with a log of the versions
    each article has had. */
module Sink {
  import opened Wrappers

  /** A stored article. `body` stands for the columns an update rewrites, `origin` for those that
      keep what the insert gave them. */
  datatype Article = Article(
    id: string, hash: string, body: string, origin: string, firstSeen: string, lastSeen: string)

  datatype Version = Version(id: string, hash: string, captured: string)

  /** The tables behind the sink; articles by their unique dedup key. */
  datatype Store = Store(articles: map<string, Article>, versions: seq<Version>, quarantine: seq<string>)

  const EMPTY := Store(map[], [], [])

  /** A record with what validation makes of it and the time it is written at. */
  datatype Record = Record(
    isArticle: bool, valid: bool, key: string, id: string, hash: string, body: string, origin: string, now: string)

  datatype Outcome = Inserted | Updated | Unchanged | Quarantined

  // ---- One record, on values ----------------------------------------------------------------

  predicate IdTaken(s: Store, r: Record) { exists k :: k in s.articles && k != r.key && s.articles[k].id == r.id }

  // The upsert resolves conflicts on the dedup key, and then updates whatever its id is; an insert
  // is refused if another row has the id, which is the primary key.
  predicate Refused(s: Store, r: Record) { r.key !in s.articles && IdTaken(s, r) }

  function Upserted(s: Store, r: Record): Store {
    s.(articles := s.articles[r.key :=
      if r.key in s.articles
      then s.articles[r.key].(hash := r.hash, body := r.body, lastSeen := r.now)
      else Article(r.id, r.hash, r.body, r.origin, r.now, r.now)])
  }

  function WriteOne(s: Store, r: Record): Result<(Store, Outcome), string> {
    if !r.valid then Ok((s.(quarantine := s.quarantine + [r.key]), Quarantined))
    else if !r.isArticle then Ok((s, Inserted))
    else if r.key !in s.articles then
      if Refused(s, r) then Err("UNIQUE constraint failed: articles.article_id") else Ok((Upserted(s, r), Inserted))
    else
      var had := s.articles[r.key];
      if had.hash == r.hash then Ok((s.(articles := s.articles[r.key := had.(lastSeen := r.now)]), Unchanged))
      else
        var captured := if had.lastSeen != "" then had.lastSeen else r.now;
        Ok((Upserted(s, r).(versions := s.versions + [Version(r.id, had.hash, captured)]), Updated))
  }

  datatype Counts = Counts(inserted: nat, updated: nat, same: nat, quarantined: nat)

  const NONE := Counts(0, 0, 0, 0)

  function Counted(c: Counts, o: Outcome): Counts {
    match o
    case Inserted => c.(inserted := c.inserted + 1) case Updated => c.(updated := c.updated + 1)
    case Unchanged => c.(same := c.same + 1) case Quarantined => c.(quarantined := c.quarantined + 1)
  }

  /** A batch: what is stored, the counts, and whether it was cut short by the store's refusal. */
  datatype Batch = Batch(store: Store, counts: Counts, failed: bool)

  function WriteAll(s: Store, rs: seq<Record>): Batch {
    if rs == [] then Batch(s, NONE, false)
    else
      var b := WriteAll(s, rs[..|rs| - 1]);
      if b.failed then b
      else
        match WriteOne(b.store, rs[|rs| - 1])
        case Err(_) => b.(failed := true)
        case Ok((t, o)) => Batch(t, Counted(b.counts, o), false)
  }

  // ---- What is promised ---------------------------------------------------------------------

  /** Every record of a batch that is not cut short is counted once. */
  lemma {:induction false} EveryRecordCounted(s: Store, rs: seq<Record>)
    ensures var b := WriteAll(s, rs);
      var total := b.counts.inserted + b.counts.updated + b.counts.same + b.counts.quarantined;
      total <= |rs| && (!b.failed ==> total == |rs|)
  {
    if rs != [] { EveryRecordCounted(s, rs[..|rs| - 1]); }
  }

  predicate Writes(r: Record, k: string) { r.valid && r.isArticle && r.key == k }

  /** The hashes that valid article records have been written with for a key. */
  function History(rs: seq<Record>, k: string): seq<string> {
    if rs == [] then []
    else
      var r := rs[|rs| - 1];
      History(rs[..|rs| - 1], k) + if Writes(r, k) then [r.hash] else []
  }

  /** A sequence without its immediate repetitions. */
  function Compressed(h: seq<string>): seq<string> {
    if h == [] then []
    else if |h| > 1 && h[|h| - 2] == h[|h| - 1] then Compressed(h[..|h| - 1])
    else Compressed(h[..|h| - 1]) + [h[|h| - 1]]
  }

  function VersionHashes(vs: seq<Version>, id: string): seq<string> {
    if vs == [] then []
    else VersionHashes(vs[..|vs| - 1], id) + if vs[|vs| - 1].id == id then [vs[|vs| - 1].hash] else []
  }

  /** The article id is fixed by the dedup key, and different keys have different ids. */
  ghost predicate IdsByKey(rs: seq<Record>, ids: map<string, string>) {
    && (forall r :: r in rs && r.valid && r.isArticle ==> r.key in ids && ids[r.key] == r.id)
    && (forall a, b :: a in ids && b in ids && ids[a] == ids[b] ==> a == b)
  }

  /** What the store says about a key is what the history of the key says. */
  ghost predicate Tells(s: Store, rs: seq<Record>, k: string, id: string) {
    var h := History(rs, k);
    && (k in s.articles <==> h != [])
    && (k in s.articles ==>
          && s.articles[k].id == id && s.articles[k].hash == h[|h| - 1]
          && VersionHashes(s.versions, id) + [s.articles[k].hash] == Compressed(h))
    && (k !in s.articles ==> VersionHashes(s.versions, id) == [])
  }

  lemma VersionsAfter(vs: seq<Version>, v: Version, id: string)
    ensures VersionHashes(vs + [v], id) == VersionHashes(vs, id) + if v.id == id then [v.hash] else []
  {
    assert (vs + [v])[..|vs|] == vs;
  }

  lemma CompressedAfter(h: seq<string>, x: string)
    ensures Compressed(h + [x]) == if h != [] && h[|h| - 1] == x then Compressed(h) else Compressed(h) + [x]
  {
    assert (h + [x])[..|h|] == h;
  }

  lemma HistoryAfter(rs: seq<Record>, r: Record, k: string)
    ensures History(rs + [r], k) == History(rs, k) + if Writes(r, k) then [r.hash] else []
  {
    assert (rs + [r])[..|rs|] == rs;
  }

  ghost predicate KnownIds(s: Store, ids: map<string, string>) {
    forall k :: k in s.articles ==> k in ids && s.articles[k].id == ids[k]
  }

  // A write that is not of this key's article leaves what is told of it.
  lemma OtherWriteTells(s: Store, rs: seq<Record>, r: Record, k: string, id: string)
    requires Tells(s, rs, k, id) && WriteOne(s, r).Ok? && !Writes(r, k)
    requires Updates(s, r) ==> r.id != id
    ensures Tells(WriteOne(s, r).value.0, rs + [r], k, id)
  {
    var t, h := WriteOne(s, r).value.0, History(rs, k);
    HistoryAfter(rs, r, k);
    assert h + [] == h && VersionHashes(s.versions, id) + [] == VersionHashes(s.versions, id);
    hide History;
    hide Compressed;
    hide IdTaken;
    if t.versions != s.versions {
      VersionsAfter(s.versions, t.versions[|s.versions|], id);
      assert t.versions == s.versions + [t.versions[|s.versions|]];
    }
    hide VersionHashes;
  }

  lemma OwnWriteTells(s: Store, rs: seq<Record>, r: Record, k: string, id: string)
    requires Tells(s, rs, k, id) && WriteOne(s, r).Ok? && Writes(r, k) && (k !in s.articles || Updates(s, r) ==> r.id == id)
    ensures Tells(WriteOne(s, r).value.0, rs + [r], k, id)
  {
    var t, h := WriteOne(s, r).value.0, History(rs, k);
    HistoryAfter(rs, r, k);
    CompressedAfter(h, r.hash);
    assert Compressed([]) == [];
    hide History;
    hide Compressed;
    hide IdTaken;
    if k in s.articles && s.articles[k].hash != r.hash {
      var v := t.versions[|s.versions|];
      assert t.versions == s.versions + [v] && v.id == id && v.hash == s.articles[k].hash;
      VersionsAfter(s.versions, v, id);
    } else {
      assert t.versions == s.versions;
    }
    hide VersionHashes;
  }

  lemma KnownIdsAfter(s: Store, r: Record, ids: map<string, string>)
    requires KnownIds(s, ids) && forall a, b :: a in ids && b in ids && ids[a] == ids[b] ==> a == b
    requires r.valid && r.isArticle ==> r.key in ids && ids[r.key] == r.id
    ensures WriteOne(s, r).Ok? && KnownIds(WriteOne(s, r).value.0, ids)
  {
    assert !IdTaken(s, r) || !r.valid || !r.isArticle;
  }

  /** Where article ids are fixed by the dedup keys, no write is refused, and after any writes each
      key's version log followed by its current hash is the sequence of hashes written for it with
      immediate repetitions removed. */
  lemma {:induction false} VersionLogIsCompressedHistory(rs: seq<Record>, ids: map<string, string>, k: string)
    requires IdsByKey(rs, ids) && k in ids
    ensures !WriteAll(EMPTY, rs).failed && KnownIds(WriteAll(EMPTY, rs).store, ids)
    ensures Tells(WriteAll(EMPTY, rs).store, rs, k, ids[k])
  {
    if rs != [] {
      var front, r := rs[..|rs| - 1], rs[|rs| - 1];
      assert rs == front + [r];
      VersionLogIsCompressedHistory(front, ids, k);
      var b := WriteAll(EMPTY, front);
      KnownIdsAfter(b.store, r, ids);
      hide WriteOne;
      hide KnownIds;
      if Writes(r, k) {
        OwnWriteTells(b.store, front, r, k, ids[k]);
      } else {
        OtherWriteTells(b.store, front, r, k, ids[k]);
      }
      hide Tells;
    }
  }

  /** The time an article was first seen, its id and the other columns of its insert never change,
      and no article is ever dropped. */
  lemma {:induction false} OriginNeverChanges(s: Store, rs: seq<Record>, k: string)
    requires k in s.articles
    ensures k in WriteAll(s, rs).store.articles
    ensures var a, b := s.articles[k], WriteAll(s, rs).store.articles[k];
      b.firstSeen == a.firstSeen && b.id == a.id && b.origin == a.origin
  {
    if rs != [] { OriginNeverChanges(s, rs[..|rs| - 1], k); }
  }

  predicate DistinctKeys(rs: seq<Record>) {
    forall i, j :: 0 <= i < j < |rs| && Writes(rs[i], rs[i].key) && Writes(rs[j], rs[j].key) ==> rs[i].key != rs[j].key
  }

  // The store already has this record's version.
  predicate Has(s: Store, r: Record) { r.valid && r.isArticle ==> r.key in s.articles && s.articles[r.key].hash == r.hash }

  lemma {:induction false} WrittenIsHad(s: Store, rs: seq<Record>)
    requires DistinctKeys(rs) && !WriteAll(s, rs).failed
    ensures forall r :: r in rs ==> Has(WriteAll(s, rs).store, r)
  {
    if rs != [] {
      var front, r := rs[..|rs| - 1], rs[|rs| - 1];
      WrittenIsHad(s, front);
      var b := WriteAll(s, front);
      var t := WriteOne(b.store, r).value.0;
      forall x | x in rs ensures Has(t, x) {
        if x in front {
          var i :| 0 <= i < |front| && front[i] == x;
          assert rs[i] == x && rs[|rs| - 1] == r;
          assert Has(b.store, x);
        }
      }
    }
  }

  lemma {:induction false} HadIsUnchanged(s: Store, rs: seq<Record>)
    requires forall r :: r in rs ==> Has(s, r)
    ensures !WriteAll(s, rs).failed && WriteAll(s, rs).store.versions == s.versions
    ensures WriteAll(s, rs).counts.updated == 0
    ensures forall k :: k in WriteAll(s, rs).store.articles <==> k in s.articles
    ensures forall k :: k in s.articles ==>
      WriteAll(s, rs).store.articles[k] == s.articles[k].(lastSeen := WriteAll(s, rs).store.articles[k].lastSeen)
  {
    if rs != [] {
      var front, r := rs[..|rs| - 1], rs[|rs| - 1];
      HadIsUnchanged(s, front);
      assert Has(s, r);
    }
  }

  /** Writing a batch of distinct keys a second time adds no version and changes no article but for
      the time it was last seen. */
  lemma RewritingIsIdempotent(s: Store, rs: seq<Record>)
    requires DistinctKeys(rs) && !WriteAll(s, rs).failed
    ensures var once := WriteAll(s, rs).store; var twice := WriteAll(once, rs);
      && !twice.failed && twice.store.versions == once.versions && twice.counts.updated == 0
      && twice.store.articles.Keys == once.articles.Keys
      && forall k :: k in once.articles ==>
           twice.store.articles[k] == once.articles[k].(lastSeen := twice.store.articles[k].lastSeen)
  {
    WrittenIsHad(s, rs);
    HadIsUnchanged(WriteAll(s, rs).store, rs);
  }

  predicate Updates(s: Store, r: Record) {
    Writes(r, r.key) && r.key in s.articles && s.articles[r.key].hash != r.hash
  }

  /** An update files the replaced hash under the id of its record, whoever has that id: the log of
      the article itself gets it exactly when the record comes under the id it was stored with. */
  lemma LogFollowsExactlyWhen(s: Store, r: Record)
    requires Updates(s, r)
    ensures WriteOne(s, r).Ok?
    ensures var id, t := s.articles[r.key].id, WriteOne(s, r).value.0;
      VersionHashes(t.versions, t.articles[r.key].id) == VersionHashes(s.versions, id) + [s.articles[r.key].hash]
      <==> r.id == id
  {
    var t := WriteOne(s, r).value.0;
    var v := t.versions[|s.versions|];
    assert t.versions == s.versions + [v];
    VersionsAfter(s.versions, v, s.articles[r.key].id);
    hide VersionHashes;
  }

  // What a write leaves, refused or not.
  function Left(s: Store, r: Record): Store { if WriteOne(s, r).Ok? then WriteOne(s, r).value.0 else s }

  /** The log of any stored article stays true to its history through a write exactly if an update
      comes under this article's id when it is of this article, and under no other's when not. An
      update of another article under this one's id puts a hash into the log that this article
      never had there. */
  lemma LogStaysTrueExactlyWhen(s: Store, rs: seq<Record>, r: Record, k: string, id: string)
    requires k in s.articles && Tells(s, rs, k, id)
    ensures Tells(Left(s, r), rs + [r], k, id) <==> (Updates(s, r) ==> (r.id == id <==> r.key == k))
  {
    if Updates(s, r) && (r.id == id <==> r.key != k) {
      MisfiledIsWrong(s, rs, r, k, id);
    } else {
      StaysTrue(s, rs, r, k, id);
    }
    hide *;
  }

  lemma MisfiledLength(s: Store, r: Record, id: string)
    requires Updates(s, r)
    ensures |VersionHashes(Left(s, r).versions, id)| == |VersionHashes(s.versions, id)| + if r.id == id then 1 else 0
    ensures Left(s, r).articles == s.articles[r.key := s.articles[r.key].(hash := r.hash, body := r.body, lastSeen := r.now)]
  {
    var t := Left(s, r);
    var v := t.versions[|s.versions|];
    assert t.versions == s.versions + [v];
    VersionsAfter(s.versions, v, id);
    hide VersionHashes;
  }

  lemma MisfiledIsWrong(s: Store, rs: seq<Record>, r: Record, k: string, id: string)
    requires k in s.articles && Tells(s, rs, k, id) && Updates(s, r) && (r.id == id <==> r.key != k)
    ensures !Tells(Left(s, r), rs + [r], k, id)
  {
    MisfiledLength(s, r, id);
    HistoryAfter(rs, r, k);
    CompressedAfter(History(rs, k), r.hash);
    assert History(rs, k) + [] == History(rs, k);
    hide Left;
    hide History;
    hide Compressed;
    hide VersionHashes;
  }

  lemma StaysTrue(s: Store, rs: seq<Record>, r: Record, k: string, id: string)
    requires k in s.articles && Tells(s, rs, k, id) && (Updates(s, r) ==> (r.id == id <==> r.key == k))
    ensures Tells(Left(s, r), rs + [r], k, id)
  {
    if WriteOne(s, r).Err? {
      HistoryAfter(rs, r, k);
      assert History(rs, k) + [] == History(rs, k);
      hide History;
      hide IdTaken;
    } else if Writes(r, k) {
      OwnWriteTells(s, rs, r, k, id);
      hide *;
    } else {
      OtherWriteTells(s, rs, r, k, id);
      hide *;
    }
  }

  /** The log of an article is true from its insert on exactly if no versions are filed under its id
      already, and the insert is not refused. */
  lemma LogStartsTrueExactlyWhen(s: Store, rs: seq<Record>, r: Record)
    requires Writes(r, r.key) && r.key !in s.articles && History(rs, r.key) == []
    ensures Tells(Left(s, r), rs + [r], r.key, r.id) <==> !Refused(s, r) && VersionHashes(s.versions, r.id) == []
  {
    HistoryAfter(rs, r, r.key);
    assert [] + [r.hash] == [r.hash] && [r.hash][..0] == [];
    assert Compressed([r.hash]) == [r.hash];
    var vs := VersionHashes(s.versions, r.id);
    assert vs + [r.hash] == [r.hash] <==> vs == [] by {
      if vs + [r.hash] == [r.hash] { assert |vs + [r.hash]| == 1; }
    }
    hide History;
    hide IdTaken;
    hide Compressed;
    hide VersionHashes;
  }

  // ---- Whole runs of writes -----------------------------------------------------------------

  /** A write as the log wants it: an update under the id its article was stored with, an insert
      under an id that no article has. */
  predicate Proper(s: Store, r: Record) {
    Writes(r, r.key) ==> if r.key in s.articles then s.articles[r.key].hash == r.hash || r.id == s.articles[r.key].id
                         else !IdTaken(s, r)
  }

  function StoreAfter(rs: seq<Record>): Store { WriteAll(EMPTY, rs).store }

  predicate AllProper(rs: seq<Record>) {
    rs == [] || (AllProper(rs[..|rs| - 1]) && Proper(StoreAfter(rs[..|rs| - 1]), rs[|rs| - 1]))
  }

  /** No write has been refused, and the log of every article tells its history. */
  ghost predicate LogsTrue(rs: seq<Record>) {
    && !WriteAll(EMPTY, rs).failed
    && forall k :: k in StoreAfter(rs).articles ==> Tells(StoreAfter(rs), rs, k, StoreAfter(rs).articles[k].id)
  }

  ghost predicate TrueAlong(rs: seq<Record>) {
    rs == [] || (TrueAlong(rs[..|rs| - 1]) && LogsTrue(rs))
  }

  predicate Stored(s: Store, id: string) { exists k :: k in s.articles && s.articles[k].id == id }

  predicate UniqueIds(s: Store) {
    forall j, k :: j in s.articles && k in s.articles && s.articles[j].id == s.articles[k].id ==> j == k
  }

  predicate VersionsStored(s: Store) { forall v :: v in s.versions ==> Stored(s, v.id) }

  ghost predicate NotYetWritten(s: Store, rs: seq<Record>) { forall k :: k !in s.articles ==> History(rs, k) == [] }

  // What proper writes keep besides: ids are not shared, versions are of stored articles, and what
  // is not stored was never written.
  ghost predicate Orderly(s: Store, rs: seq<Record>) { UniqueIds(s) && VersionsStored(s) && NotYetWritten(s, rs) }

  lemma {:induction false} NoVersionsOf(vs: seq<Version>, id: string)
    requires forall v :: v in vs ==> v.id != id
    ensures VersionHashes(vs, id) == []
  {
    if vs != [] { NoVersionsOf(vs[..|vs| - 1], id); }
  }

  // What a proper write does to articles and versions.
  lemma ProperWrite(s: Store, r: Record)
    requires Proper(s, r)
    ensures WriteOne(s, r).Ok?
    ensures var t := Left(s, r);
      && (forall k :: k in s.articles ==> k in t.articles && t.articles[k].id == s.articles[k].id)
      && (forall k :: k in t.articles ==> k in s.articles || (k == r.key && t.articles[k].id == r.id && !IdTaken(s, r)))
      && (Writes(r, r.key) ==> r.key in t.articles)
      && (t.versions == s.versions || (r.key in s.articles && t.versions == s.versions + [t.versions[|t.versions| - 1]]
                                       && t.versions[|t.versions| - 1].id == s.articles[r.key].id))
  {
    hide IdTaken;
  }

  lemma ProperKeepsVersions(s: Store, r: Record)
    requires VersionsStored(s) && Proper(s, r)
    ensures VersionsStored(Left(s, r))
  {
    var t := Left(s, r);
    ProperWrite(s, r);
    hide Left;
    hide WriteOne;
    hide Proper;
    hide Stored;
    forall v | v in t.versions ensures Stored(t, v.id) {
      if v in s.versions { StoredStays(s, t, v.id); } else { StoredBy(t, r.key); }
    }
  }

  lemma StoredStays(s: Store, t: Store, id: string)
    requires Stored(s, id) && forall k :: k in s.articles ==> k in t.articles && t.articles[k].id == s.articles[k].id
    ensures Stored(t, id)
  {
  }

  lemma StoredBy(s: Store, k: string)
    requires k in s.articles
    ensures Stored(s, s.articles[k].id)
  {
  }

  lemma ProperKeepsOrderly(s: Store, rs: seq<Record>, r: Record)
    requires Orderly(s, rs) && Proper(s, r)
    ensures WriteOne(s, r).Ok? && Orderly(Left(s, r), rs + [r])
  {
    var t := Left(s, r);
    ProperWrite(s, r);
    ProperKeepsVersions(s, r);
    hide Left;
    hide WriteOne;
    hide Proper;
    hide VersionsStored;
    forall k | k !in t.articles ensures History(rs + [r], k) == [] {
      HistoryAfter(rs, r, k);
      assert [] + [] == History(rs, k);
    }
    hide History;
    assert UniqueIds(t);
  }

  lemma WriteAllStep(front: seq<Record>, r: Record)
    requires !WriteAll(EMPTY, front).failed
    ensures WriteAll(EMPTY, front + [r]).failed == WriteOne(StoreAfter(front), r).Err?
    ensures StoreAfter(front + [r]) == Left(StoreAfter(front), r)
  {
    WriteAllAfter(EMPTY, front, r);
    hide WriteOne;
    hide WriteAll;
  }

  // One write, from logs that are true.
  lemma OneMoreTrue(s: Store, rs: seq<Record>, r: Record)
    requires Orderly(s, rs) && forall k :: k in s.articles ==> Tells(s, rs, k, s.articles[k].id)
    ensures Proper(s, r) <==>
      WriteOne(s, r).Ok? && forall k :: k in Left(s, r).articles ==> Tells(Left(s, r), rs + [r], k, Left(s, r).articles[k].id)
  {
    var t := Left(s, r);
    KeptAndNew(s, r);
    hide WriteOne;
    hide Left;
    hide Tells;
    if Proper(s, r) {
      ProperKeepsOrderly(s, rs, r);
      hide Orderly;
      forall k | k in t.articles ensures Tells(t, rs + [r], k, t.articles[k].id) {
        if k in s.articles {
          OwnIdOnly(s, rs, r, k);
          LogStaysTrueExactlyWhen(s, rs, r, k, s.articles[k].id);
        } else {
          FreshId(s, rs, r);
          LogStartsTrueExactlyWhen(s, rs, r);
        }
      }
    } else if Updates(s, r) {
      LogStaysTrueExactlyWhen(s, rs, r, r.key, s.articles[r.key].id);
      assert r.key in t.articles && !Tells(t, rs + [r], r.key, t.articles[r.key].id);
    }
  }

  // A write keeps every article with its id, adds none but its own, and is refused for a taken id.
  lemma KeptAndNew(s: Store, r: Record)
    ensures forall k :: k in s.articles ==> k in Left(s, r).articles && Left(s, r).articles[k].id == s.articles[k].id
    ensures forall k :: k in Left(s, r).articles && k !in s.articles ==>
      k == r.key && Writes(r, r.key) && Left(s, r).articles[k].id == r.id && !Refused(s, r)
    ensures !Proper(s, r) ==> Writes(r, r.key) && (WriteOne(s, r).Err? || Updates(s, r))
    ensures Updates(s, r) && Proper(s, r) ==> r.id == s.articles[r.key].id
  {
    hide IdTaken;
  }

  lemma OwnIdOnly(s: Store, rs: seq<Record>, r: Record, k: string)
    requires Orderly(s, rs) && Proper(s, r) && k in s.articles
    ensures Updates(s, r) ==> (r.id == s.articles[k].id <==> r.key == k)
  {
    hide History;
  }

  lemma FreshId(s: Store, rs: seq<Record>, r: Record)
    requires Orderly(s, rs) && Proper(s, r) && Writes(r, r.key) && r.key !in s.articles
    ensures History(rs, r.key) == [] && VersionHashes(s.versions, r.id) == [] && !Refused(s, r)
  {
    hide History;
    assert !IdTaken(s, r);
    forall v | v in s.versions ensures v.id != r.id {
      var k :| k in s.articles && s.articles[k].id == v.id;
    }
    NoVersionsOf(s.versions, r.id);
  }

  lemma {:induction false} AlongIsOrderly(rs: seq<Record>)
    requires AllProper(rs)
    ensures !WriteAll(EMPTY, rs).failed && Orderly(StoreAfter(rs), rs)
  {
    if rs != [] {
      var front, r := rs[..|rs| - 1], rs[|rs| - 1];
      assert rs == front + [r];
      AlongIsOrderly(front);
      WriteAllStep(front, r);
      hide *;
      ProperKeepsOrderly(StoreAfter(front), front, r);
    }
  }

  /** Over whole runs of writes: no write is refused and the version log of every article is true
      all along, exactly if every update comes under the id its article was stored with and every
      insert under an id that no article has. */
  lemma {:induction false} LogsTrueExactlyWhen(rs: seq<Record>)
    ensures TrueAlong(rs) <==> AllProper(rs)
  {
    if rs != [] {
      var front, r := rs[..|rs| - 1], rs[|rs| - 1];
      LogsTrueExactlyWhen(front);
      if AllProper(front) {
        assert rs == front + [r];
        AlongIsOrderly(front);
        WriteAllStep(front, r);
        LogsTrueSoFar(front);
        hide *;
        OneMoreTrue(StoreAfter(front), front, r);
        LogsTrueStep(rs, front, r);
      }
    }
  }

  lemma LogsTrueSoFar(rs: seq<Record>)
    requires TrueAlong(rs)
    ensures LogsTrue(rs)
  {
    hide Tells;
  }

  // The last step of both conditions.
  lemma LogsTrueStep(rs: seq<Record>, front: seq<Record>, r: Record)
    requires rs != [] && front == rs[..|rs| - 1] && r == rs[|rs| - 1] && rs == front + [r]
    requires AllProper(front) && TrueAlong(front)
    requires WriteAll(EMPTY, rs).failed == WriteOne(StoreAfter(front), r).Err? && StoreAfter(rs) == Left(StoreAfter(front), r)
    requires Proper(StoreAfter(front), r) <==>
      WriteOne(StoreAfter(front), r).Ok?
      && forall k :: k in StoreAfter(rs).articles ==> Tells(StoreAfter(rs), rs, k, StoreAfter(rs).articles[k].id)
    ensures TrueAlong(rs) <==> AllProper(rs)
  {
    hide Tells;
    hide Left;
    hide WriteOne;
    hide WriteAll;
    hide Proper;
    hide StoreAfter;
  }

  /** Where the id is not fixed by the key, the log of a stored article loses the version: it is
      filed under the new record's id, while the article keeps its own. */
  lemma VersionFiledUnderOtherId()
    ensures var a := Record(true, true, "k", "1", "h1", "", "", "t1"); var b := a.(id := "2", hash := "h2");
      var s := WriteAll(EMPTY, [a, b]).store;
      && "k" in s.articles && s.articles["k"].id == "1"
      && VersionHashes(s.versions, "1") == [] && VersionHashes(s.versions, "2") == ["h1"]
  {
    var a := Record(true, true, "k", "1", "h1", "", "", "t1");
    var b := a.(id := "2", hash := "h2");
    var one, v := Article("1", "h1", "", "", "t1", "t1"), Version("2", "h1", "t1");
    var s1 := Store(map["k" := one], [], []);
    assert "h1"[1] != "h2"[1] && |"t1"| != 0 && "1"[0] != "2"[0];
    assert !IdTaken(s1, b) && s1.versions + [v] == [v] && [v][..0] == [];
    assert WriteOne(s1, b) == Ok((Upserted(s1, b).(versions := [v]), Updated));
    assert WriteOne(EMPTY, a) == Ok((s1, Inserted));
    WriteAllAfter(EMPTY, [], a);
    WriteAllAfter(EMPTY, [a], b);
    assert [] + [a] == [a] && [a] + [b] == [a, b];
    hide WriteAll;
    hide WriteOne;
  }

  lemma WriteAllAfter(s: Store, rs: seq<Record>, r: Record)
    requires !WriteAll(s, rs).failed
    ensures WriteAll(s, rs + [r]) == match WriteOne(WriteAll(s, rs).store, r)
                                     case Err(_) => WriteAll(s, rs).(failed := true)
                                     case Ok((t, o)) => Batch(t, Counted(WriteAll(s, rs).counts, o), false)
  {
    assert (rs + [r])[..|rs|] == rs;
  }

  // ---- The objects --------------------------------------------------------------------------

  class CrawlerStorage {
    var articles: map<string, Article>
    var versions: seq<Version>
    var quarantine: seq<string>

    constructor ()
      ensures View() == EMPTY
    {
      articles, versions, quarantine := map[], [], [];
    }

    function View(): Store
      reads this
    {
      Store(articles, versions, quarantine)
    }

    // Whether another row has the primary key.
    method FindId(r: Record) returns (taken: bool)
      ensures taken == IdTaken(View(), r)
    {
      var keys := articles.Keys;
      while keys != {}
        invariant keys <= articles.Keys
        invariant forall k :: k in articles && k !in keys ==> !(k != r.key && articles[k].id == r.id)
      {
        var k :| k in keys;
        if k != r.key && articles[k].id == r.id { return true; }
        keys := keys - {k};
      }
      return false;
    }

    method UpsertArticle(r: Record) returns (refused: bool)
      modifies this`articles
      ensures refused == Refused(old(View()), r)
      ensures View() == if refused then old(View()) else Upserted(old(View()), r)
    {
      if r.key in articles {
        articles := articles[r.key := articles[r.key].(hash := r.hash, body := r.body, lastSeen := r.now)];
        return false;
      }
      refused := FindId(r);
      if refused { return; }
      articles := articles[r.key := Article(r.id, r.hash, r.body, r.origin, r.now, r.now)];
    }

    method UpdateArticleLastSeen(key: string, now: string)
      modifies this`articles
      ensures articles ==
        if key in old(articles) then old(articles)[key := old(articles)[key].(lastSeen := now)] else old(articles)
    {
      if key in articles { articles := articles[key := articles[key].(lastSeen := now)]; }
    }

    method SaveVersion(v: Version)
      modifies this`versions
      ensures versions == old(versions) + [v]
    {
      versions := versions + [v];
    }

    method QuarantineRecord(key: string)
      modifies this`quarantine
      ensures quarantine == old(quarantine) + [key]
    {
      quarantine := quarantine + [key];
    }
  }

  // One record; `outcome` is absent where the store refuses it.
  method WriteRecord(storage: CrawlerStorage, r: Record) returns (outcome: Option<Outcome>)
    modifies storage
    ensures match WriteOne(old(storage.View()), r)
            case Ok((t, o)) => outcome == Some(o) && storage.View() == t
            case Err(_) => outcome == None && storage.View() == old(storage.View())
  {
    if !r.valid {
      storage.QuarantineRecord(r.key);
      return Some(Quarantined);
    }
    if !r.isArticle { return Some(Inserted); }
    if r.key !in storage.articles {
      var refused := storage.UpsertArticle(r);
      return if refused then None else Some(Inserted);
    }
    var existing := storage.articles[r.key];
    if existing.hash == r.hash {
      storage.UpdateArticleLastSeen(r.key, r.now);
      return Some(Unchanged);
    }
    var _ := storage.UpsertArticle(r);
    storage.SaveVersion(Version(r.id, existing.hash, if existing.lastSeen != "" then existing.lastSeen else r.now));
    return Some(Updated);
  }

  /** Writes records in order, up to the first the store refuses. */
  method Write(storage: CrawlerStorage, records: seq<Record>) returns (counts: Counts, failed: bool)
    modifies storage
    ensures Batch(storage.View(), counts, failed) == WriteAll(old(storage.View()), records)
  {
    hide WriteOne;
    counts, failed := NONE, false;
    ghost var s := storage.View();
    for n := 0 to |records|
      invariant !failed && Batch(storage.View(), counts, false) == WriteAll(s, records[..n])
    {
      assert records[..n + 1][..n] == records[..n];
      var outcome := WriteRecord(storage, records[n]);
      if outcome.None? {
        FailureStays(s, records, n + 1);
        return counts, true;
      }
      counts := Counted(counts, outcome.value);
    }
    assert records[..|records|] == records;
  }

  lemma {:induction false} FailureStays(s: Store, rs: seq<Record>, n: nat)
    requires n <= |rs| && WriteAll(s, rs[..n]).failed
    ensures WriteAll(s, rs) == WriteAll(s, rs[..n])
  {
    if n < |rs| {
      assert rs[..|rs| - 1][..n] == rs[..n];
      FailureStays(s, rs[..|rs| - 1], n);
    } else {
      assert rs[..n] == rs;
    }
  }
}
