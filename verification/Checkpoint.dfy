/** The helper's checkpoint of a crawl: a row table deduplicated through an index map. */
module Checkpoint {
  import opened Wrappers
  import opened Reviews

  // ---- The merge, on values -----------------------------------------------------------------

  datatype Table = Table(rows: seq<Row>, seen: map<Key, nat>)

  const EMPTY := Table([], map[])

  /** The index map is exact: it holds every non-blank key of the rows, each pointing at the one
      row with that key. The key is recomputed from the row as it is now, after all merges. */
  ghost predicate Indexed(t: Table) {
    && (forall k :: k in t.seen ==> k != BLANK && t.seen[k] < |t.rows| && KeyOf(t.rows[t.seen[k]]) == k)
    && (forall i :: 0 <= i < |t.rows| && KeyOf(t.rows[i]) != BLANK ==>
          KeyOf(t.rows[i]) in t.seen && t.seen[KeyOf(t.rows[i])] == i)
  }

  predicate InRange(t: Table) { forall k :: k in t.seen ==> t.seen[k] < |t.rows| }

  function Absorb(t: Table, r: Row): (t': Table)
    requires InRange(t)
    ensures InRange(t')
  {
    var key := KeyOf(r);
    if key == BLANK then t.(rows := t.rows + [r])
    else if key in t.seen then t.(rows := t.rows[t.seen[key] := MergeInto(t.rows[t.seen[key]], r)])
    else Table(t.rows + [r], t.seen[key := |t.rows|])
  }

  function AbsorbAll(t: Table, rs: seq<Row>): (t': Table)
    requires InRange(t)
    ensures InRange(t')
  {
    if rs == [] then t else Absorb(AbsorbAll(t, rs[..|rs| - 1]), rs[|rs| - 1])
  }

  lemma AbsorbKeepsIndex(t: Table, r: Row)
    requires Indexed(t)
    ensures Indexed(Absorb(t, r))
  {
    hide KeyOf;
    hide MergeInto;
    var key, t' := KeyOf(r), Absorb(t, r);
    if key != BLANK && key in t.seen {
      var i := t.seen[key];
      MergeKeepsKey(t.rows[i], r);
      var m := MergeInto(t.rows[i], r);
      assert forall j :: 0 <= j < |t.rows| ==> KeyOf(t'.rows[j]) == KeyOf(t.rows[j]);
    }
  }

  lemma {:induction false} AbsorbAllSplit(t: Table, a: seq<Row>, b: seq<Row>)
    requires InRange(t)
    ensures AbsorbAll(t, a + b) == AbsorbAll(AbsorbAll(t, a), b)
  {
    if b == [] {
      assert a + b == a;
    } else {
      assert (a + b)[..|a + b| - 1] == a + b[..|b| - 1];
      AbsorbAllSplit(t, a, b[..|b| - 1]);
    }
  }

  // ---- The merge, as a reader would state it ------------------------------------------------

  /** The rows of a log that have key `k`, in order. */
  function Group(log: seq<Row>, k: Key): seq<Row> {
    if log == [] then []
    else Group(log[..|log| - 1], k) + if KeyOf(log[|log| - 1]) == k then [log[|log| - 1]] else []
  }

  datatype Slot = Lone(row: Row) | Keyed(key: Key)

  /** One slot per key in first-seen order, and one for every row with a blank key. */
  function Slots(log: seq<Row>): seq<Slot> {
    if log == [] then []
    else
      var front, last := Slots(log[..|log| - 1]), log[|log| - 1];
      if KeyOf(last) == BLANK then front + [Lone(last)]
      else if Keyed(KeyOf(last)) in front then front
      else front + [Keyed(KeyOf(last))]
  }

  datatype Field = AnhUrls | VideoUrls | MediaUrls | NoiDung | Comment | PhanLoai | Cmid | OrderId
                 | ReviewId | User | Sao | ThoiGian | Time

  function Get(r: Row, f: Field): Value {
    match f
    case AnhUrls => r.anhUrls case VideoUrls => r.videoUrls case MediaUrls => r.mediaUrls
    case NoiDung => r.noiDung case Comment => r.comment case PhanLoai => r.phanLoai
    case Cmid => r.cmid case OrderId => r.orderid case ReviewId => r.id case User => r.user
    case Sao => r.sao case ThoiGian => r.thoiGian case Time => r.time
  }

  function Column(group: seq<Row>, f: Field): (vs: seq<Value>)
    ensures |vs| == |group| && forall i :: 0 <= i < |vs| ==> vs[i] == Get(group[i], f)
  {
    seq(|group|, i requires 0 <= i < |group| => Get(group[i], f))
  }

  predicate LongestAt(vs: seq<Value>, w: nat)
    requires w < |vs|
  {
    && vs[w].truthy
    && (forall i :: 0 <= i < |vs| && vs[i].truthy ==> |vs[i].text| <= |vs[w].text|)
    && (forall i :: 0 <= i < w && vs[i].truthy ==> |vs[i].text| != |vs[w].text|)
  }

  predicate FirstAt(vs: seq<Value>, w: nat)
    requires w < |vs|
  {
    vs[w].truthy && forall i :: 0 <= i < w ==> !vs[i].truthy
  }

  /** `v` is the earliest of the longest non-empty values. */
  ghost predicate EarliestLongest(vs: seq<Value>, v: Value) {
    exists w: nat :: w < |vs| && vs[w] == v && LongestAt(vs, w)
  }

  /** `v` is the earliest non-empty value. */
  ghost predicate EarliestSet(vs: seq<Value>, v: Value) {
    exists w: nat :: w < |vs| && vs[w] == v && FirstAt(vs, w)
  }

  predicate AllEmpty(vs: seq<Value>) { forall v :: v in vs ==> !v.truthy }

  /** What a field of the stored row must be, given the rows of its group. */
  ghost predicate Chosen(group: seq<Row>, f: Field, v: Value)
    requires group != []
  {
    if f in {ReviewId, User, Sao, ThoiGian, Time} || AllEmpty(Column(group, f)) then v == Get(group[0], f)
    else if f in {PhanLoai, Cmid, OrderId} then EarliestSet(Column(group, f), v)
    else EarliestLongest(Column(group, f), v)
  }

  ghost predicate MergeOf(group: seq<Row>, m: Row) {
    && group != [] && m.soAnh == group[0].soAnh && m.soVideo == group[0].soVideo
    && forall f: Field :: Chosen(group, f, Get(m, f))
  }

  ghost predicate FillsSlot(log: seq<Row>, slot: Slot, m: Row) {
    match slot
    case Lone(r) => m == r
    case Keyed(k) => MergeOf(Group(log, k), m) && KeyOf(m) == k
  }

  /** The table says exactly what the log says. */
  ghost predicate Represents(t: Table, log: seq<Row>) {
    && |t.rows| == |Slots(log)|
    && (forall i :: 0 <= i < |t.rows| ==> FillsSlot(log, Slots(log)[i], t.rows[i]))
    && (forall k :: k in t.seen <==> Keyed(k) in Slots(log))
    && (forall k :: k in t.seen ==> t.seen[k] < |t.rows| && Slots(log)[t.seen[k]] == Keyed(k))
  }

  // ---- The merge does what is said ----------------------------------------------------------

  lemma LongestExtends(vs: seq<Value>, v: Value, x: Value)
    requires EarliestLongest(vs, v)
    ensures EarliestLongest(vs + [x], Longer(v, x))
  {
    var w: nat :| w < |vs| && vs[w] == v && LongestAt(vs, w);
    if Longer(v, x) == v {
      assert (vs + [x])[w] == v && LongestAt(vs + [x], w);
    } else {
      assert (vs + [x])[|vs|] == x && LongestAt(vs + [x], |vs|);
    }
  }

  lemma EarliestExtends(vs: seq<Value>, v: Value, x: Value)
    requires EarliestSet(vs, v)
    ensures EarliestSet(vs + [x], FirstSet(v, x))
  {
    var w: nat :| w < |vs| && vs[w] == v && FirstAt(vs, w);
    assert (vs + [x])[w] == v && FirstAt(vs + [x], w);
  }

  // The first non-empty value to join a group of empty ones is the choice.
  lemma FirstValueChosen(vs: seq<Value>, x: Value)
    requires AllEmpty(vs) && x.truthy
    ensures EarliestLongest(vs + [x], x) && EarliestSet(vs + [x], x)
  {
    assert forall i :: 0 <= i < |vs| ==> (vs + [x])[i] in vs;
    assert (vs + [x])[|vs|] == x && LongestAt(vs + [x], |vs|) && FirstAt(vs + [x], |vs|);
  }

  lemma ChosenExtends(group: seq<Row>, m: Row, r: Row, f: Field)
    requires group != [] && Chosen(group, f, Get(m, f))
    ensures Chosen(group + [r], f, Get(MergeInto(m, r), f))
  {
    var vs, v, x := Column(group, f), Get(m, f), Get(r, f);
    assert Get(MergeInto(m, r), f) == if f in {ReviewId, User, Sao, ThoiGian, Time} then v
      else if f in {PhanLoai, Cmid, OrderId} then FirstSet(v, x) else Longer(v, x);
    assert Column(group + [r], f) == vs + [x];
    assert AllEmpty(vs + [x]) <==> AllEmpty(vs) && !x.truthy;
    assert (group + [r])[0] == group[0];
    if AllEmpty(vs) {
      assert vs[0] in vs;
      if x.truthy { FirstValueChosen(vs, x); }
    } else if f in {PhanLoai, Cmid, OrderId} {
      EarliestExtends(vs, v, x);
    } else if f !in {ReviewId, User, Sao, ThoiGian, Time} {
      LongestExtends(vs, v, x);
    }
  }

  lemma MergeExtends(group: seq<Row>, m: Row, r: Row)
    requires MergeOf(group, m)
    ensures MergeOf(group + [r], MergeInto(m, r))
  {
    forall f: Field ensures Chosen(group + [r], f, Get(MergeInto(m, r), f)) {
      ChosenExtends(group, m, r, f);
    }
  }

  lemma {:induction false} SlotOfEveryKey(log: seq<Row>, k: Key)
    ensures k != BLANK && Group(log, k) != [] <==> Keyed(k) in Slots(log)
  {
    if log != [] {
      SlotOfEveryKey(log[..|log| - 1], k);
    }
  }

  lemma Snoc(log: seq<Row>, r: Row)
    ensures Slots(log + [r]) ==
      if KeyOf(r) == BLANK then Slots(log) + [Lone(r)]
      else if Keyed(KeyOf(r)) in Slots(log) then Slots(log) else Slots(log) + [Keyed(KeyOf(r))]
    ensures forall k :: Group(log + [r], k) == if KeyOf(r) == k then Group(log, k) + [r] else Group(log, k)
  {
    hide KeyOf;
    assert (log + [r])[..|log|] == log;
  }

  // A row of a known key goes into its slot; the other slots keep their rows.
  lemma AbsorbKnown(t: Table, log: seq<Row>, r: Row)
    requires Indexed(t) && Represents(t, log) && KeyOf(r) in t.seen
    ensures Represents(Absorb(t, r), log + [r])
  {
    assert InRange(t);
    hide *;
    KnownSlots(t, log, r);
    forall i | 0 <= i < |t.rows| ensures FillsSlot(log + [r], Slots(log)[i], Absorb(t, r).rows[i]) {
      KnownSlot(t, log, r, i);
    }
    SameSlots(t, log, Absorb(t, r), log + [r]);
  }

  lemma KnownSlots(t: Table, log: seq<Row>, r: Row)
    requires Indexed(t) && Represents(t, log) && KeyOf(r) in t.seen
    ensures Slots(log + [r]) == Slots(log) && |Slots(log)| == |t.rows|
    ensures var at := t.seen[KeyOf(r)];
      at < |t.rows| && Absorb(t, r) == t.(rows := t.rows[at := MergeInto(t.rows[at], r)])
  {
    Snoc(log, r);
    hide KeyOf;
    hide MergeInto;
    hide Slots;
    hide Group;
    hide FillsSlot;
  }

  lemma KnownSlot(t: Table, log: seq<Row>, r: Row, i: nat)
    requires Indexed(t) && Represents(t, log) && KeyOf(r) in t.seen && i < |t.rows|
    ensures |Absorb(t, r).rows| == |t.rows| == |Slots(log)|
    ensures FillsSlot(log + [r], Slots(log)[i], Absorb(t, r).rows[i])
  {
    KnownSlots(t, log, r);
    assert FillsSlot(log, Slots(log)[i], t.rows[i]);
    assert Slots(log)[t.seen[KeyOf(r)]] == Keyed(KeyOf(r));
    hide *;
    if i == t.seen[KeyOf(r)] {
      SlotMerges(log, r, t.rows[i]);
    } else {
      OnlySlot(t, log, i, KeyOf(r));
      SlotStays(log, r, Slots(log)[i], t.rows[i]);
    }
  }

  lemma SameSlots(t: Table, log: seq<Row>, t': Table, log': seq<Row>)
    requires Represents(t, log) && Slots(log') == Slots(log) && t'.seen == t.seen && |t'.rows| == |t.rows| == |Slots(log)|
    requires forall i :: 0 <= i < |t.rows| ==> FillsSlot(log', Slots(log)[i], t'.rows[i])
    ensures Represents(t', log')
  {
    hide FillsSlot;
    hide Slots;
  }

  lemma OnlySlot(t: Table, log: seq<Row>, i: nat, key: Key)
    requires Indexed(t) && Represents(t, log) && key in t.seen && i < |t.rows| && i != t.seen[key]
    ensures Slots(log)[i] != Keyed(key)
  {
    assert FillsSlot(log, Slots(log)[i], t.rows[i]);
    hide KeyOf;
    hide MergeOf;
    hide Slots;
  }

  lemma SlotMerges(log: seq<Row>, r: Row, m: Row)
    requires FillsSlot(log, Keyed(KeyOf(r)), m)
    ensures FillsSlot(log + [r], Keyed(KeyOf(r)), MergeInto(m, r))
  {
    Snoc(log, r);
    MergeKeepsKey(m, r);
    MergeExtends(Group(log, KeyOf(r)), m, r);
    hide KeyOf;
    hide MergeInto;
    hide MergeOf;
    hide Group;
  }

  lemma SlotStays(log: seq<Row>, r: Row, slot: Slot, m: Row)
    requires FillsSlot(log, slot, m) && slot != Keyed(KeyOf(r))
    ensures FillsSlot(log + [r], slot, m)
  {
    Snoc(log, r);
    hide KeyOf;
    hide MergeOf;
    hide Group;
  }

  // Any other row opens a slot of its own.
  lemma AbsorbNew(t: Table, log: seq<Row>, r: Row)
    requires Indexed(t) && Represents(t, log) && KeyOf(r) !in t.seen
    ensures Represents(Absorb(t, r), log + [r])
  {
    Snoc(log, r);
    SlotOfEveryKey(log, KeyOf(r));
    SingletonMerge(r);
    hide KeyOf;
    hide MergeOf;
    hide Slots;
    hide Group;
    var key, slots, slots' := KeyOf(r), Slots(log), Slots(log + [r]);
    var t' := Absorb(t, r);
    assert |slots'| == |slots| + 1 && slots' == slots + [slots'[|slots|]];
    forall i | 0 <= i < |t.rows| ensures FillsSlot(log + [r], slots'[i], t'.rows[i]) {
      assert slots'[i] in slots && FillsSlot(log, slots[i], t.rows[i]);
      assert slots[i].Keyed? ==> slots[i].key != key;
    }
    if key != BLANK {
      assert Group(log + [r], key) == [r] && MergeOf([r], r);
    }
    forall k ensures k in t'.seen <==> Keyed(k) in slots' {
      assert Keyed(k) in slots' <==> Keyed(k) in slots || Keyed(k) == slots'[|slots|];
    }
  }

  lemma SingletonMerge(r: Row)
    ensures MergeOf([r], r)
  {
    forall f: Field ensures Chosen([r], f, Get(r, f)) {
      assert [r][0] == r;
    }
  }

  lemma {:induction false} AbsorbAllKeepsIndex(t: Table, rs: seq<Row>)
    requires Indexed(t)
    ensures Indexed(AbsorbAll(t, rs))
  {
    hide Absorb;
    if rs != [] {
      AbsorbAllKeepsIndex(t, rs[..|rs| - 1]);
      AbsorbKeepsIndex(AbsorbAll(t, rs[..|rs| - 1]), rs[|rs| - 1]);
    }
  }

  /** The table reached from any log is the one the log describes: one row per key in first-seen
      order plus the blank-keyed rows, each listed field the earliest longest (or earliest) value,
      and an index map that points at the row with the key. */
  lemma {:induction false} TableRepresentsLog(log: seq<Row>)
    ensures Represents(AbsorbAll(EMPTY, log), log)
  {
    if log != [] {
      var front, r := log[..|log| - 1], log[|log| - 1];
      var t := AbsorbAll(EMPTY, front);
      assert AbsorbAll(EMPTY, log) == Absorb(t, r);
      assert front + [r] == log;
      assert Indexed(EMPTY);
      hide *;
      TableRepresentsLog(front);
      AbsorbAllKeepsIndex(EMPTY, front);
      if KeyOf(r) in t.seen { AbsorbKnown(t, front, r); } else { AbsorbNew(t, front, r); }
    }
  }

  // ---- Consequences -------------------------------------------------------------------------

  /** Absorbing a keyed row that the log already holds changes nothing. */
  lemma RedeliveredRow(t: Table, log: seq<Row>, r: Row)
    requires Indexed(t) && Represents(t, log) && r in log && KeyOf(r) != BLANK
    ensures Absorb(t, r) == t
  {
    var key := KeyOf(r);
    InOwnGroup(log, r);
    SlotOfEveryKey(log, key);
    assert FillsSlot(log, Slots(log)[t.seen[key]], t.rows[t.seen[key]]);
    AlreadyMerged(Group(log, key), t.rows[t.seen[key]], r);
    hide KeyOf;
    hide MergeInto;
  }

  lemma {:induction false} InOwnGroup(log: seq<Row>, r: Row)
    requires r in log
    ensures r in Group(log, KeyOf(r))
  {
    hide KeyOf;
    if r != log[|log| - 1] {
      InOwnGroup(log[..|log| - 1], r);
    }
  }

  lemma AlreadyMerged(group: seq<Row>, m: Row, r: Row)
    requires MergeOf(group, m) && r in group
    ensures MergeInto(m, r) == m
  {
    forall f: Field ensures Get(MergeInto(m, r), f) == Get(m, f) {
      assert Chosen(group, f, Get(m, f));
      var i :| 0 <= i < |group| && group[i] == r;
      assert Column(group, f)[i] == Get(r, f);
      assert Get(MergeInto(m, r), f) == if f in {ReviewId, User, Sao, ThoiGian, Time} then Get(m, f)
        else if f in {PhanLoai, Cmid, OrderId} then FirstSet(Get(m, f), Get(r, f)) else Longer(Get(m, f), Get(r, f));
    }
    hide Chosen;
    SameFields(MergeInto(m, r), m);
  }

  lemma SameFields(a: Row, b: Row)
    requires a.soAnh == b.soAnh && a.soVideo == b.soVideo
    requires forall f: Field :: Get(a, f) == Get(b, f)
    ensures a == b
  {
    assert Get(a, AnhUrls) == Get(b, AnhUrls) && Get(a, VideoUrls) == Get(b, VideoUrls);
    assert Get(a, MediaUrls) == Get(b, MediaUrls) && Get(a, NoiDung) == Get(b, NoiDung);
    assert Get(a, Comment) == Get(b, Comment) && Get(a, PhanLoai) == Get(b, PhanLoai);
    assert Get(a, Cmid) == Get(b, Cmid) && Get(a, OrderId) == Get(b, OrderId);
    assert Get(a, ReviewId) == Get(b, ReviewId) && Get(a, User) == Get(b, User);
    assert Get(a, Sao) == Get(b, Sao) && Get(a, ThoiGian) == Get(b, ThoiGian) && Get(a, Time) == Get(b, Time);
  }

  /** Redelivering any rows of earlier batches, in any order, changes nothing as long as they are
      keyed. */
  lemma {:induction false} RedeliveredBatch(log: seq<Row>, batch: seq<Row>)
    requires forall r :: r in batch ==> r in log && KeyOf(r) != BLANK
    ensures AbsorbAll(AbsorbAll(EMPTY, log), batch) == AbsorbAll(EMPTY, log)
  {
    if batch != [] {
      hide KeyOf;
      var t := AbsorbAll(EMPTY, log);
      RedeliveredBatch(log, batch[..|batch| - 1]);
      TableRepresentsLog(log);
      AbsorbAllKeepsIndex(EMPTY, log);
      RedeliveredRow(t, log, batch[|batch| - 1]);
    }
  }

  // The part of the table that the first `n` rows make up.
  function Upto(t: Table, n: nat): Table
    requires n <= |t.rows|
  {
    Table(t.rows[..n], map k | k in t.seen && t.seen[k] < n :: t.seen[k])
  }

  lemma RemergeStep(t: Table, n: nat)
    requires Indexed(t) && n < |t.rows|
    ensures Absorb(Upto(t, n), t.rows[n]) == Upto(t, n + 1)
  {
    hide KeyOf;
    var r := t.rows[n];
    assert t.rows[..n] + [r] == t.rows[..n + 1];
    if KeyOf(r) == BLANK {
      assert forall k :: k in t.seen ==> t.seen[k] != n;
      assert Upto(t, n + 1).seen == Upto(t, n).seen;
    } else {
      assert forall k :: k in t.seen && t.seen[k] == n ==> k == KeyOf(r);
      assert Upto(t, n + 1).seen == Upto(t, n).seen[KeyOf(r) := n];
    }
  }

  lemma {:induction false} RemergePrefix(t: Table, n: nat)
    requires Indexed(t) && n <= |t.rows|
    ensures AbsorbAll(EMPTY, t.rows[..n]) == Upto(t, n)
  {
    hide Absorb;
    hide KeyOf;
    if n > 0 {
      RemergePrefix(t, n - 1);
      RemergeStep(t, n - 1);
      assert t.rows[..n][..n - 1] == t.rows[..n - 1];
    }
  }

  /** Finalisation recomputes every key and merges the stored rows again: over any tail, that is
      the same as having merged the tail into the live table. In particular an empty tail gives the
      stored rows back. */
  lemma RemergeIsTransparent(log: seq<Row>, tail: seq<Row>)
    ensures AbsorbAll(EMPTY, AbsorbAll(EMPTY, log).rows + tail) == AbsorbAll(EMPTY, log + tail)
    ensures AbsorbAll(EMPTY, AbsorbAll(EMPTY, log).rows) == AbsorbAll(EMPTY, log)
  {
    var t := AbsorbAll(EMPTY, log);
    AbsorbAllKeepsIndex(EMPTY, log);
    RemergePrefix(t, |t.rows|);
    assert t.rows[..|t.rows|] == t.rows && Upto(t, |t.rows|) == t;
    AbsorbAllSplit(EMPTY, t.rows, tail);
    AbsorbAllSplit(EMPTY, log, tail);
  }

  /** The keys in the table are the keys of the log. */
  lemma {:induction false} KeysOfTable(t: Table, rs: seq<Row>)
    requires Indexed(t)
    ensures KeysOf(AbsorbAll(t, rs).rows) == KeysOf(t.rows) + KeysOf(rs)
  {
    hide KeyOf;
    if rs != [] {
      var front, r := rs[..|rs| - 1], rs[|rs| - 1];
      KeysOfTable(t, front);
      AbsorbAllKeepsIndex(t, front);
      KeysAfterAbsorb(AbsorbAll(t, front), r);
      assert KeysOf(rs) == KeysOf(front) + {KeyOf(r)} by {
        assert rs == front + [r];
      }
    }
  }

  lemma KeysAfterAbsorb(t: Table, r: Row)
    requires Indexed(t)
    ensures KeysOf(Absorb(t, r).rows) == KeysOf(t.rows) + {KeyOf(r)}
  {
    var key := KeyOf(r);
    if key != BLANK && key in t.seen {
      MergeKeepsKey(t.rows[t.seen[key]], r);
      KeysOfUpdate(t.rows, t.seen[key], MergeInto(t.rows[t.seen[key]], r));
      assert t.rows[t.seen[key]] in t.rows;
    } else {
      hide KeyOf;
      assert KeysOf(t.rows + [r]) == KeysOf(t.rows) + {key};
    }
  }

  lemma KeysOfUpdate(rows: seq<Row>, i: nat, m: Row)
    requires i < |rows| && KeyOf(m) == KeyOf(rows[i])
    ensures KeysOf(rows[i := m]) == KeysOf(rows)
  {
    hide KeyOf;
    forall k ensures k in KeysOf(rows[i := m]) <==> k in KeysOf(rows) {
      if k in KeysOf(rows) {
        var j :| 0 <= j < |rows| && KeyOf(rows[j]) == k;
        assert rows[i := m][j] in rows[i := m];
      }
    }
  }

  lemma ChoiceIsUnique(vs: seq<Value>, v: Value, v': Value)
    ensures EarliestLongest(vs, v) && EarliestLongest(vs, v') ==> v == v'
    ensures EarliestSet(vs, v) && EarliestSet(vs, v') ==> v == v'
  {
    if EarliestLongest(vs, v) && EarliestLongest(vs, v') {
      var w: nat :| w < |vs| && vs[w] == v && LongestAt(vs, w);
      var w': nat :| w' < |vs| && vs[w'] == v' && LongestAt(vs, w');
    }
  }

  /** A log describes only one table. With `TableRepresentsLog`, the table is a function of the
      rows received in order, however they were cut into batches. */
  lemma RepresentationIsUnique(t: Table, t': Table, log: seq<Row>)
    requires Represents(t, log) && Represents(t', log)
    ensures t == t'
  {
    hide MergeOf;
    hide KeyOf;
    hide Slots;
    hide Group;
    SlotsAreDistinct(log);
    var slots := Slots(log);
    forall i | 0 <= i < |t.rows| ensures t.rows[i] == t'.rows[i] {
      assert FillsSlot(log, slots[i], t.rows[i]) && FillsSlot(log, slots[i], t'.rows[i]);
      if slots[i].Keyed? {
        MergeIsUnique(Group(log, slots[i].key), t.rows[i], t'.rows[i]);
      }
    }
    assert t.rows == t'.rows;
    forall k | k in t.seen ensures t.seen[k] == t'.seen[k] {
      assert Keyed(k) in slots && slots[t.seen[k]] == Keyed(k) == slots[t'.seen[k]];
    }
  }

  lemma MergeIsUnique(group: seq<Row>, m: Row, m': Row)
    requires MergeOf(group, m) && MergeOf(group, m')
    ensures m == m'
  {
    forall f: Field ensures Get(m, f) == Get(m', f) {
      assert Chosen(group, f, Get(m, f)) && Chosen(group, f, Get(m', f));
      ChoiceIsUnique(Column(group, f), Get(m, f), Get(m', f));
    }
    SameFields(m, m');
  }

  lemma {:induction false} SlotsAreDistinct(log: seq<Row>)
    ensures forall i, j :: 0 <= i < j < |Slots(log)| && Slots(log)[i].Keyed? ==> Slots(log)[i] != Slots(log)[j]
  {
    if log != [] {
      hide KeyOf;
      SlotsAreDistinct(log[..|log| - 1]);
    }
  }

  // ---- The checkpoint of one job ------------------------------------------------------------

  /** Where one scope of the crawl stands. */
  datatype Scope = Scope(filter: Option<int>, ratingType: int, nextOffset: nat, rowsCount: nat,
                         completed: bool, discovered: bool)

  /** Where the crawl stands: the active scope (an index into all, comment, media), the scopes, the
      product's review count once known, and the product's ids and rating summary, which are kept
      as they are sent. */
  datatype Position = Position(version: int, activeScope: nat, scopes: seq<Scope>,
                               nextOffset: int, ratingType: int, total: Option<nat>,
                               itemid: Option<string>, shopid: Option<string>, uiReference: Option<string>)

  const START := Position(2, 0, [], 0, 0, None, None, None, None)

  /** One checkpoint message; an absent field is `None`. */
  datatype Update = Update(rows: seq<Row>, version: Option<int>, activeScope: Option<nat>,
                           scopes: Option<seq<Scope>>, nextOffset: Option<int>, offset: Option<int>,
                           ratingType: Option<int>, total: Option<nat>,
                           itemid: Option<string>, shopid: Option<string>, uiReference: Option<string>)

  function Given<T>(x: Option<T>, otherwise: T): T { if x.Some? then x.value else otherwise }

  function GivenText(x: Option<string>, otherwise: Option<string>): Option<string> {
    if x.Some? && x.value != "" then x else otherwise
  }

  // A field that a message leaves out keeps its value, as do ids sent empty; the offset has two names.
  function Moved(p: Position, u: Update): Position { Identified(Progressed(p, u), u) }

  function Progressed(p: Position, u: Update): Position {
    p.(version := Given(u.version, p.version), activeScope := Given(u.activeScope, p.activeScope),
       scopes := Given(u.scopes, p.scopes), nextOffset := Given(u.nextOffset, Given(u.offset, p.nextOffset)),
       ratingType := Given(u.ratingType, p.ratingType), total := if u.total.Some? then u.total else p.total)
  }

  function Identified(p: Position, u: Update): Position {
    p.(itemid := GivenText(u.itemid, p.itemid), shopid := GivenText(u.shopid, p.shopid),
       uiReference := if u.uiReference.Some? then u.uiReference else p.uiReference)
  }

  class IngestCheckpoint {
    var rows: seq<Row>
    var seenMap: map<Key, nat>
    var position: Position
    ghost var log: seq<Row>  // every row received, in order

    ghost predicate Valid()
      reads this
    {
      Table(rows, seenMap) == AbsorbAll(EMPTY, log)
    }

    constructor ()
      ensures Valid() && log == [] && rows == [] && position == START
    {
      rows, seenMap, position, log := [], map[], START, [];
    }

    // The row loop of a checkpoint message.
    method Receive(batch: seq<Row>)
      requires Valid()
      modifies this`rows, this`seenMap, this`log
      ensures Valid() && log == old(log) + batch
      ensures KeysOf(rows) == KeysOf(old(rows)) + KeysOf(batch)
    {
      AbsorbAllKeepsIndex(EMPTY, log);
      KeysOfTable(Table(rows, seenMap), batch);
      hide Indexed;
      hide KeyOf;
      hide MergeInto;
      ghost var t0 := Table(rows, seenMap);
      for n := 0 to |batch|
        invariant Table(rows, seenMap) == AbsorbAll(t0, batch[..n]) && log == old(log)
      {
        var r := batch[n];
        var key := KeyOf(r);
        assert batch[..n + 1][..n] == batch[..n];
        if key != BLANK {
          if key in seenMap {
            var idx := seenMap[key];
            rows := rows[idx := MergeInto(rows[idx], r)];
            continue;
          }
          seenMap := seenMap[key := |rows|];
        }
        rows := rows + [r];
      }
      assert batch[..|batch|] == batch;
      AbsorbAllSplit(EMPTY, log, batch);
      log := log + batch;
    }

    // The fields of a checkpoint message, one by one.
    method Progress(u: Update)
      modifies this`position
      ensures position == Progressed(old(position), u)
    {
      var offset := u.nextOffset;
      if offset.None? { offset := u.offset; }
      if offset.Some? { position := position.(nextOffset := offset.value); }
      if u.ratingType.Some? { position := position.(ratingType := u.ratingType.value); }
      if u.total.Some? { position := position.(total := u.total); }
      if u.version.Some? { position := position.(version := u.version.value); }
      if u.activeScope.Some? { position := position.(activeScope := u.activeScope.value); }
      if u.scopes.Some? { position := position.(scopes := u.scopes.value); }
    }

    method Identify(u: Update)
      modifies this`position
      ensures position == Identified(old(position), u)
    {
      if u.itemid.Some? && u.itemid.value != "" { position := position.(itemid := u.itemid); }
      if u.shopid.Some? && u.shopid.value != "" { position := position.(shopid := u.shopid); }
      if u.uiReference.Some? { position := position.(uiReference := u.uiReference); }
    }

    /** Receives one checkpoint message: merges its rows and moves to the position it gives. */
    method Save(u: Update) returns (rowsCount: nat)
      requires Valid()
      modifies this
      ensures Valid() && log == old(log) + u.rows
      ensures Represents(Table(rows, seenMap), log)
      ensures KeysOf(rows) == KeysOf(old(rows)) + KeysOf(u.rows)
      ensures position == Moved(old(position), u)
      ensures rowsCount == |rows|
    {
      hide Represents;
      hide KeyOf;
      Receive(u.rows);
      TableRepresentsLog(log);
      hide AbsorbAll;
      hide Progressed;
      hide Identified;
      Progress(u);
      Identify(u);
      rowsCount := |rows|;
    }

    /** Merges the checkpoint with a final tail of rows, which is taken as it is when nothing was
        checkpointed. */
    method Finalize(tail: seq<Row>) returns (combined: seq<Row>)
      requires Valid()
      ensures rows == [] ==> combined == tail
      ensures rows != [] ==> combined == AbsorbAll(EMPTY, log + tail).rows
      ensures tail == [] ==> combined == rows
    {
      hide KeyOf;
      hide MergeInto;
      if rows == [] { return tail; }
      var all := rows + tail;
      combined := [];
      var seen: map<Key, nat> := map[];
      for n := 0 to |all|
        invariant Table(combined, seen) == AbsorbAll(EMPTY, all[..n])
      {
        var r := all[n];
        var key := KeyOf(r);
        assert all[..n + 1][..n] == all[..n];
        if key != BLANK {
          if key in seen {
            combined := combined[seen[key] := MergeInto(combined[seen[key]], r)];
            continue;
          }
          seen := seen[key := |combined|];
        }
        combined := combined + [r];
      }
      assert all[..|all|] == all && log + [] == log && rows + [] == rows;
      RemergeIsTransparent(log, tail);
    }
  }
}
