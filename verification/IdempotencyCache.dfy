/** The bounded, expiring cache that answers a repeated command with its first answer. */
module IdempotencyCache {
  import opened Wrappers

  /** How a command ends for its caller; payloads stand as their JSON text. */
  datatype Reply = Success(payload: string) | Failure(fault: Fault)

  datatype Fault = Fault(code: string, retryable: bool)

  /** One remembered answer. */
  datatype Slot = Slot(id: string, at: real, value: Reply)

  // ---- The cache, on values -----------------------------------------------------------------
  //
  // A Python dictionary keeps insertion order, and setting a key it already holds keeps the key's
  // place: hence a sequence of slots with distinct ids, oldest place first.

  function Place(c: seq<Slot>, id: string): (i: nat)
    ensures i <= |c| && (i < |c| ==> c[i].id == id) && forall j :: 0 <= j < i ==> c[j].id != id
  {
    if c == [] || c[0].id == id then 0
    else
      assert forall j :: 1 <= j < |c| ==> c[j] == c[1..][j - 1];
      1 + Place(c[1..], id)
  }

  predicate Young(s: Slot, now: real, ttl: real) { now - s.at <= ttl }

  function Unexpired(c: seq<Slot>, now: real, ttl: real): (r: seq<Slot>)
    ensures |r| <= |c|
  {
    if c == [] then []
    else Unexpired(c[..|c| - 1], now, ttl) + if Young(c[|c| - 1], now, ttl) then [c[|c| - 1]] else []
  }

  // Room for one more: what has expired goes, then the slots in the oldest places.
  function Room(c: seq<Slot>, now: real, ttl: real, capacity: nat): (r: seq<Slot>)
    requires capacity > 0
    ensures |r| < capacity
  {
    if |c| < capacity then c
    else
      var u := Unexpired(c, now, ttl);
      if |u| < capacity then u else u[|u| - capacity + 1..]
  }

  function Put(c: seq<Slot>, s: Slot): seq<Slot> {
    var i := Place(c, s.id);
    if i < |c| then c[i := s] else c + [s]
  }

  function Set(c: seq<Slot>, id: string, v: Reply, now: real, ttl: real, capacity: nat): seq<Slot>
    requires capacity > 0
  {
    Put(Room(c, now, ttl, capacity), Slot(id, now, v))
  }

  function Get(c: seq<Slot>, id: string, now: real, ttl: real): (seq<Slot>, Option<Reply>) {
    var i := Place(c, id);
    if i == |c| then (c, None)
    else if Young(c[i], now, ttl) then (c, Some(c[i].value))
    else (c[..i] + c[i + 1..], None)
  }

  // ---- The log it stands for ----------------------------------------------------------------

  /** What an unbounded log of every `set` remembers about an id: its last entry. */
  function Latest(log: seq<Slot>, id: string): Option<Slot> {
    if log == [] then None
    else if log[|log| - 1].id == id then Some(log[|log| - 1])
    else Latest(log[..|log| - 1], id)
  }

  predicate Distinct(c: seq<Slot>) { forall i, j :: 0 <= i < j < |c| ==> c[i].id != c[j].id }

  /** The cache holds at most `capacity` slots, each the latest the log has for its id. */
  predicate Refines(c: seq<Slot>, log: seq<Slot>, capacity: nat) {
    Distinct(c) && |c| <= capacity && forall i :: 0 <= i < |c| ==> Latest(log, c[i].id) == Some(c[i])
  }

  lemma {:induction false} UnexpiredKeeps(c: seq<Slot>, now: real, ttl: real)
    requires Distinct(c)
    ensures Distinct(Unexpired(c, now, ttl))
    ensures forall s :: s in Unexpired(c, now, ttl) <==> s in c && Young(s, now, ttl)
  {
    if c != [] {
      var front, last := c[..|c| - 1], c[|c| - 1];
      UnexpiredKeeps(front, now, ttl);
      assert c == front + [last];
      var u := Unexpired(front, now, ttl);
      forall i | 0 <= i < |u| ensures u[i].id != last.id {
        assert u[i] in u;
        assert u[i] in front;
      }
    }
  }

  lemma SetRefines(c: seq<Slot>, log: seq<Slot>, id: string, v: Reply, now: real, ttl: real, capacity: nat)
    requires capacity > 0 && Refines(c, log, capacity)
    ensures Refines(Set(c, id, v, now, ttl, capacity), log + [Slot(id, now, v)], capacity)
  {
    UnexpiredKeeps(c, now, ttl);
    var r, s, c' := Room(c, now, ttl, capacity), Slot(id, now, v), Set(c, id, v, now, ttl, capacity);
    assert Distinct(r) && |r| < capacity && forall x :: x in r ==> x in c;
    assert (log + [s])[..|log|] == log;
    assert forall x :: x in c' ==> x == s || x in r;
    forall i | 0 <= i < |c'| ensures Latest(log + [s], c'[i].id) == Some(c'[i]) {
      assert c'[i] in c';
    }
  }

  /** A hit is the latest value ever set for the id, and is at most `ttl` old; a lookup changes
      nothing but to drop the slot it found expired. */
  lemma GetRefines(c: seq<Slot>, log: seq<Slot>, id: string, now: real, ttl: real, capacity: nat)
    requires Refines(c, log, capacity)
    ensures Refines(Get(c, id, now, ttl).0, log, capacity)
    ensures match Get(c, id, now, ttl).1
            case Some(v) => exists s :: Latest(log, id) == Some(s) && s.value == v && now - s.at <= ttl
            case None => !exists s :: s in Get(c, id, now, ttl).0 && s.id == id
  {
    var i := Place(c, id);
    if i < |c| && !Young(c[i], now, ttl) {
      var c' := c[..i] + c[i + 1..];
      forall k | 0 <= k < |c'| ensures c'[k] == c[if k < i then k else k + 1] {}
    }
  }

  // ---- What stays -----------------------------------------------------------------------------

  /** With distinct ids the cache is in log order: the places of its slots in the log go up. */
  predicate InLogOrder(c: seq<Slot>, log: seq<Slot>, at: seq<nat>) {
    && |at| == |c|
    && (forall i :: 0 <= i < |c| ==> at[i] < |log| && c[i] == log[at[i]])
    && (forall i, j :: 0 <= i < j < |c| ==> at[i] < at[j])
  }

  /** The last `capacity` entries of the log are in the cache unless they have expired. */
  ghost predicate KeepsRecent(c: seq<Slot>, log: seq<Slot>, now: real, ttl: real, capacity: nat) {
    && (exists at :: InLogOrder(c, log, at))
    && forall k :: 0 <= k < |log| && |log| - capacity <= k && Young(log[k], now, ttl) ==> log[k] in c
  }

  lemma OrderExtends(c: seq<Slot>, log: seq<Slot>, at: seq<nat>, k: nat)
    requires InLogOrder(c, log, at) && k < |log| && forall i :: 0 <= i < |at| ==> at[i] < k
    ensures InLogOrder(c + [log[k]], log, at + [k])
  {
  }

  lemma OrderSlices(c: seq<Slot>, log: seq<Slot>, at: seq<nat>, i: nat, j: nat)
    requires InLogOrder(c, log, at) && i <= j <= |c|
    ensures InLogOrder(c[i..j], log, at[i..j])
  {
  }

  lemma {:induction false} UnexpiredInOrder(c: seq<Slot>, log: seq<Slot>, at: seq<nat>, now: real, ttl: real)
    returns (at': seq<nat>)
    requires InLogOrder(c, log, at)
    ensures InLogOrder(Unexpired(c, now, ttl), log, at')
    ensures forall k :: k in at' <==> k in at && Young(log[k], now, ttl)
    decreases |c|, 1
  {
    if c == [] {
      at' := [];
    } else {
      var n := |c| - 1;
      var last := at[n];
      var front := UnexpiredInOrderFront(c, log, at, now, ttl);
      assert Unexpired(c, now, ttl) == Unexpired(c[..n], now, ttl) + if Young(log[last], now, ttl) then [log[last]] else [];
      assert forall k :: k in at <==> k in at[..n] || k == last by { assert at == at[..n] + [last]; }
      assert |at| == |c| && last < |log| && forall k :: k in at[..n] ==> k < last;
      hide InLogOrder;
      hide Unexpired;
      if Young(log[last], now, ttl) {
        assert forall i :: 0 <= i < |front| ==> front[i] in front;
        OrderExtends(Unexpired(c[..n], now, ttl), log, front, last);
        at' := front + [last];
        assert forall k :: k in at' <==> k in front || k == last;
      } else {
        at' := front;
      }
    }
  }

  lemma {:induction false} UnexpiredInOrderFront(c: seq<Slot>, log: seq<Slot>, at: seq<nat>, now: real, ttl: real)
    returns (front: seq<nat>)
    requires InLogOrder(c, log, at) && c != []
    ensures InLogOrder(Unexpired(c[..|c| - 1], now, ttl), log, front)
    ensures forall k :: k in front <==> k in at[..|c| - 1] && Young(log[k], now, ttl)
    decreases |c|, 0
  {
    OrderSlices(c, log, at, 0, |c| - 1);
    hide *;
    front := UnexpiredInOrder(c[..|c| - 1], log, at[..|c| - 1], now, ttl);
  }

  // In an increasing sequence of places, the last ones are far along.
  lemma {:induction false} PlacesGrow(at: seq<nat>, i: nat, bound: nat)
    requires i < |at| && (forall k, l :: 0 <= k < l < |at| ==> at[k] < at[l]) && forall k :: 0 <= k < |at| ==> at[k] < bound
    ensures at[i] + (|at| - i) <= bound
    decreases |at| - i
  {
    if i + 1 < |at| { PlacesGrow(at, i + 1, bound); }
  }

  /** With ids that do not repeat, under a clock that does not go back, a fresh entry survives any
      run of fewer than `capacity` later sets. */
  lemma SetKeepsRecent(c: seq<Slot>, log: seq<Slot>, id: string, v: Reply, before: real, now: real, ttl: real, capacity: nat)
    requires capacity > 0 && KeepsRecent(c, log, before, ttl, capacity) && before <= now
    requires Distinct(log) && forall s :: s in log ==> s.id != id
    ensures KeepsRecent(Set(c, id, v, now, ttl, capacity), log + [Slot(id, now, v)], now, ttl, capacity)
  {
    var at :| InLogOrder(c, log, at);
    var r, s := Room(c, now, ttl, capacity), Slot(id, now, v);
    var log' := log + [s];
    var at' := RoomInOrder(c, log, at, before, now, ttl, capacity);
    hide Room;
    forall i | 0 <= i < |r| ensures r[i].id != id { assert log[at'[i]] in log; }
    assert Set(c, id, v, now, ttl, capacity) == r + [s];
    assert InLogOrder(r + [s], log', at' + [|log|]);
    forall k | 0 <= k < |log'| && |log'| - capacity <= k && Young(log'[k], now, ttl) ensures log'[k] in r + [s] {
      if k < |log| {
        assert k in at';
        var i :| 0 <= i < |at'| && at'[i] == k;
        assert r[i] == log[k];
      }
    }
  }

  // Its place shows that a recent entry is not among those evicted.
  lemma RecentNotEvicted(at: seq<nat>, k: nat, bound: nat, capacity: nat)
    requires (forall i, j :: 0 <= i < j < |at| ==> at[i] < at[j]) && forall i :: 0 <= i < |at| ==> at[i] < bound
    requires k in at && bound - capacity < k && 0 < capacity <= |at|
    ensures k in at[|at| - capacity + 1..]
  {
    var i :| 0 <= i < |at| && at[i] == k;
    PlacesGrow(at, i, bound);
    assert at[|at| - capacity + 1..][i - (|at| - capacity + 1)] == k;
  }

  // The fresh entries of the log's end are found in the cache at their own places.
  lemma RecentPlaces(c: seq<Slot>, log: seq<Slot>, at: seq<nat>, k: nat)
    requires InLogOrder(c, log, at) && Distinct(log) && k < |log| && log[k] in c
    ensures k in at
  {
    var i :| 0 <= i < |c| && c[i] == log[k];
    assert log[at[i]].id == log[k].id;
  }

  lemma RoomInOrder(c: seq<Slot>, log: seq<Slot>, at: seq<nat>, before: real, now: real, ttl: real, capacity: nat)
    returns (at': seq<nat>)
    requires capacity > 0 && InLogOrder(c, log, at) && before <= now
    requires forall k :: 0 <= k < |log| && |log| - capacity <= k && Young(log[k], before, ttl) ==> log[k] in c
    requires Distinct(log)
    ensures InLogOrder(Room(c, now, ttl, capacity), log, at')
    ensures forall k :: 0 <= k < |log| && |log| - capacity < k && Young(log[k], now, ttl) ==> k in at'
  {
    forall k | 0 <= k < |log| && |log| - capacity < k && Young(log[k], now, ttl) ensures k in at {
      assert Young(log[k], before, ttl);
      RecentPlaces(c, log, at, k);
    }
    hide Distinct;
    if |c| < capacity {
      at' := at;
    } else {
      var all := UnexpiredInOrder(c, log, at, now, ttl);
      var u := Unexpired(c, now, ttl);
      assert |all| == |u|;
      if |u| < capacity {
        at' := all;
      } else {
        at' := all[|u| - capacity + 1..];
        OrderSlices(u, log, all, |u| - capacity + 1, |u|);
        forall k | 0 <= k < |log| && |log| - capacity < k && Young(log[k], now, ttl) ensures k in at' {
          RecentNotEvicted(all, k, |log|, capacity);
        }
      }
    }
  }

  lemma WithoutOne(c: seq<Slot>, log: seq<Slot>, at: seq<nat>, i: nat)
    requires InLogOrder(c, log, at) && i < |c|
    ensures InLogOrder(c[..i] + c[i + 1..], log, at[..i] + at[i + 1..])
  {
  }

  lemma GetKeepsRecent(c: seq<Slot>, log: seq<Slot>, id: string, before: real, now: real, ttl: real, capacity: nat)
    requires KeepsRecent(c, log, before, ttl, capacity) && before <= now && Distinct(c)
    ensures KeepsRecent(Get(c, id, now, ttl).0, log, now, ttl, capacity)
  {
    var at :| InLogOrder(c, log, at);
    var i, c' := Place(c, id), Get(c, id, now, ttl).0;
    if c' == c {
      assert InLogOrder(c', log, at);
    } else {
      WithoutOne(c, log, at, i);
    }
    StillHolds(c, id, now, ttl);
    hide InLogOrder;
    hide Get;
    forall k | 0 <= k < |log| && |log| - capacity <= k && Young(log[k], now, ttl) ensures log[k] in c' {
      assert Young(log[k], before, ttl);
    }
  }

  lemma StillHolds(c: seq<Slot>, id: string, now: real, ttl: real)
    ensures forall s :: s in c && Young(s, now, ttl) ==> s in Get(c, id, now, ttl).0
  {
    var i, c' := Place(c, id), Get(c, id, now, ttl).0;
    forall s | s in c && Young(s, now, ttl) ensures s in c' {
      var j :| 0 <= j < |c| && c[j] == s;
      assert c' == c || (j != i && c'[if j < i then j else j - 1] == s);
    }
  }

  // ---- Whole runs ---------------------------------------------------------------------------

  datatype Use = SetIt(id: string, value: Reply, now: real) | GetIt(id: string, now: real)

  function CacheAfter(us: seq<Use>, ttl: real, capacity: nat): seq<Slot>
    requires capacity > 0
  {
    if us == [] then []
    else
      var c := CacheAfter(us[..|us| - 1], ttl, capacity);
      match us[|us| - 1]
      case SetIt(id, v, now) => Set(c, id, v, now, ttl, capacity)
      case GetIt(id, now) => Get(c, id, now, ttl).0
  }

  function Log(us: seq<Use>): seq<Slot> {
    if us == [] then []
    else
      match us[|us| - 1]
      case SetIt(id, v, now) => Log(us[..|us| - 1]) + [Slot(id, now, v)]
      case GetIt(_, _) => Log(us[..|us| - 1])
  }

  predicate MonotoneClock(us: seq<Use>) { forall i, j :: 0 <= i < j < |us| ==> us[i].now <= us[j].now }

  /** After any uses the cache is within its capacity and agrees with the log. */
  lemma {:induction false} CacheRefinesLog(us: seq<Use>, ttl: real, capacity: nat)
    requires capacity > 0
    ensures Refines(CacheAfter(us, ttl, capacity), Log(us), capacity)
  {
    if us != [] {
      var front := us[..|us| - 1];
      CacheRefinesLog(front, ttl, capacity);
      match us[|us| - 1]
      case SetIt(id, v, now) =>
        hide Refines;
        SetRefines(CacheAfter(front, ttl, capacity), Log(front), id, v, now, ttl, capacity);
      case GetIt(id, now) =>
        hide Refines;
        GetRefines(CacheAfter(front, ttl, capacity), Log(front), id, now, ttl, capacity);
    }
  }

  lemma {:induction false} CacheKeepsRecent(us: seq<Use>, ttl: real, capacity: nat)
    requires capacity > 0 && us != [] && MonotoneClock(us) && Distinct(Log(us))
    ensures KeepsRecent(CacheAfter(us, ttl, capacity), Log(us), us[|us| - 1].now, ttl, capacity)
  {
    var front, last := us[..|us| - 1], us[|us| - 1];
    var c, log := CacheAfter(front, ttl, capacity), Log(front);
    assert Distinct(log) by {
      assert |log| <= |Log(us)| && log == Log(us)[..|log|];
    }
    var before := if front == [] then last.now else front[|front| - 1].now;
    if front == [] {
      assert InLogOrder(c, log, []);
    } else {
      CacheKeepsRecent(front, ttl, capacity);
    }
    CacheRefinesLog(front, ttl, capacity);
    assert KeepsRecent(c, log, before, ttl, capacity) && Distinct(c);
    hide KeepsRecent;
    hide Set;
    hide Get;
    match last
    case SetIt(id, v, now) =>
      assert forall s :: s in log ==> s.id != id by {
        forall s | s in log ensures s.id != id {
          var i :| 0 <= i < |log| && log[i] == s;
          assert Log(us)[i] == s && Log(us)[|log|].id == id;
        }
      }
      SetKeepsRecent(c, log, id, v, before, now, ttl, capacity);
    case GetIt(id, now) =>
      GetKeepsRecent(c, log, id, before, now, ttl, capacity);
  }

  /** An id that is never set twice is still answered, after any uses, if fewer than `capacity` ids
      were set after it and it is at most `ttl` old. */
  lemma FreshEntrySurvives(us: seq<Use>, k: nat, now: real, ttl: real, capacity: nat)
    requires capacity > 0 && us != [] && MonotoneClock(us) && Distinct(Log(us)) && us[|us| - 1].now <= now
    requires k < |Log(us)| && |Log(us)| - 1 - k < capacity && now - Log(us)[k].at <= ttl
    ensures Get(CacheAfter(us, ttl, capacity), Log(us)[k].id, now, ttl).1 == Some(Log(us)[k].value)
  {
    var c, s := CacheAfter(us, ttl, capacity), Log(us)[k];
    CacheKeepsRecent(us, ttl, capacity);
    CacheRefinesLog(us, ttl, capacity);
    assert Young(s, us[|us| - 1].now, ttl) && s in c;
  }

  lemma {:induction false} UnexpiredSplits(a: seq<Slot>, b: seq<Slot>, now: real, ttl: real)
    ensures Unexpired(a + b, now, ttl) == Unexpired(a, now, ttl) + Unexpired(b, now, ttl)
  {
    if b == [] {
      assert a + b == a;
    } else {
      assert (a + b)[..|a + b| - 1] == a + b[..|b| - 1];
      UnexpiredSplits(a, b[..|b| - 1], now, ttl);
    }
  }

  /** Exactly when a set evicts a fresh slot of another id: when the cache is full and the places
      after the slot's hold as many fresh slots as the capacity less one. Its place counts, not the
      time it was set. */
  lemma EvictedExactlyWhen(c: seq<Slot>, i: nat, id: string, v: Reply, now: real, ttl: real, capacity: nat)
    requires capacity > 0 && Distinct(c) && i < |c| && c[i].id != id && Young(c[i], now, ttl)
    ensures c[i] !in Set(c, id, v, now, ttl, capacity) <==>
      |c| >= capacity && |Unexpired(c[i + 1..], now, ttl)| >= capacity - 1
  {
    UnexpiredKeeps(c, now, ttl);
    AmongFresh(c, i, now, ttl);
    assert Set(c, id, v, now, ttl, capacity) == Put(Room(c, now, ttl, capacity), Slot(id, now, v));
    assert c[i] in c;
    hide *;
    var u, k := Unexpired(c, now, ttl), |Unexpired(c[..i], now, ttl)|;
    InRoom(c, c[i], now, ttl, capacity, k);
    PutHolds(Room(c, now, ttl, capacity), Slot(id, now, v), c[i]);
  }

  lemma AmongFresh(c: seq<Slot>, i: nat, now: real, ttl: real)
    requires i < |c| && Young(c[i], now, ttl)
    ensures var u, k := Unexpired(c, now, ttl), |Unexpired(c[..i], now, ttl)|;
      |u| == k + 1 + |Unexpired(c[i + 1..], now, ttl)| && u[k] == c[i]
  {
    assert c == c[..i] + ([c[i]] + c[i + 1..]) && [c[i]][..0] == [];
    assert Unexpired([c[i]], now, ttl) == [c[i]];
    UnexpiredSplits(c[..i], [c[i]] + c[i + 1..], now, ttl);
    UnexpiredSplits([c[i]], c[i + 1..], now, ttl);
    hide Unexpired;
  }

  // Of the fresh slots, those in the last places stay.
  lemma InRoom(c: seq<Slot>, x: Slot, now: real, ttl: real, capacity: nat, k: nat)
    requires capacity > 0 && Distinct(Unexpired(c, now, ttl)) && x in c
    requires k < |Unexpired(c, now, ttl)| && Unexpired(c, now, ttl)[k] == x
    ensures x in Room(c, now, ttl, capacity) <==> |c| < capacity || k + capacity > |Unexpired(c, now, ttl)|
  {
    var u := Unexpired(c, now, ttl);
    if |c| >= capacity && |u| >= capacity {
      var d := |u| - capacity + 1;
      if k >= d { assert u[d..][k - d] == x; }
    }
  }

  lemma PutHolds(c: seq<Slot>, s: Slot, x: Slot)
    requires x.id != s.id
    ensures x in Put(c, s) <==> x in c
  {
    var i, p := Place(c, s.id), Put(c, s);
    if x in c {
      var j :| 0 <= j < |c| && c[j] == x;
      assert p[j] == x;
    }
  }

  // Three steps of the clock standing still, in a cache of three.
  function SetNow(c: seq<Slot>, id: string, payload: string): seq<Slot> { Set(c, id, Success(payload), 0.0, 300.0, 3) }

  /** Where an id is set twice that fails: it keeps the place of its first setting, and is the first
      to be evicted. Here two other sets after its latest one suffice, in a cache of three. */
  lemma ResetKeepsOldPlace()
    ensures var c := SetNow(SetNow([], "a", "1"), "b", "2");
      Get(SetNow(SetNow(SetNow(c, "a", "3"), "c", "4"), "d", "5"), "a", 0.0, 300.0).1 == None
  {
    var a, b, a', c, d := Slot("a", 0.0, Success("1")), Slot("b", 0.0, Success("2")), Slot("a", 0.0, Success("3")),
      Slot("c", 0.0, Success("4")), Slot("d", 0.0, Success("5"));
    assert Put([], a) == [a] && Put([a], b) == [a, b] && Put([a, b], a') == [a', b] && Put([a', b], c) == [a', b, c];
    assert Put([b, c], d) == [b, c, d] && Get([b, c, d], "a", 0.0, 300.0).1 == None;
    hide *;
    SetPuts([], "a", "1");
    SetPuts([a], "b", "2");
    SetPuts([a, b], "a", "3");
    SetPuts([a', b], "c", "4");
    SetPuts([a', b, c], "d", "5");
    assert [a', b, c][1..] == [b, c];
  }

  lemma SetPuts(c: seq<Slot>, id: string, payload: string)
    requires |c| <= 3 && forall i :: 0 <= i < |c| ==> c[i].at == 0.0
    ensures SetNow(c, id, payload) == Put(if |c| < 3 then c else c[1..], Slot(id, 0.0, Success(payload)))
  {
    AllYoung(c, 0.0, 300.0);
  }

  lemma {:induction false} AllYoung(c: seq<Slot>, now: real, ttl: real)
    requires forall i :: 0 <= i < |c| ==> Young(c[i], now, ttl)
    ensures Unexpired(c, now, ttl) == c
  {
    if c != [] { AllYoung(c[..|c| - 1], now, ttl); }
  }

  // ---- The object ---------------------------------------------------------------------------

  class Cache {
    var slots: seq<Slot>
    const capacity: nat
    const ttl: real

    constructor (capacity: nat, ttl: real)
      requires capacity > 0
      ensures slots == [] && this.capacity == capacity && this.ttl == ttl
    {
      slots, this.capacity, this.ttl := [], capacity, ttl;
    }

    method Find(id: string) returns (i: nat)
      ensures i == Place(slots, id)
    {
      i := 0;
      while i < |slots| && slots[i].id != id
        invariant i <= |slots| && forall j :: 0 <= j < i ==> slots[j].id != id
      {
        i := i + 1;
      }
    }

    method Lookup(id: string, now: real) returns (v: Option<Reply>)
      modifies this`slots
      ensures (slots, v) == Get(old(slots), id, now, ttl)
    {
      var i := Find(id);
      if i < |slots| {
        if now - slots[i].at <= ttl { return Some(slots[i].value); }
        slots := slots[..i] + slots[i + 1..];
      }
      return None;
    }

    method Evict(now: real)
      requires capacity > 0
      modifies this`slots
      ensures slots == Room(old(slots), now, ttl, capacity)
    {
      if |slots| < capacity { return; }
      var kept := [];
      for k := 0 to |slots|
        invariant slots == old(slots) && kept == Unexpired(slots[..k], now, ttl)
      {
        assert slots[..k + 1][..k] == slots[..k];
        if now - slots[k].at <= ttl { kept := kept + [slots[k]]; }
      }
      assert slots[..|slots|] == slots;
      slots := kept;
      hide *;
      while |slots| >= capacity
        invariant |slots| <= |kept| && slots == kept[|kept| - |slots|..]
        invariant |slots| >= if |kept| < capacity then |kept| else capacity - 1
      {
        slots := slots[1..];
      }
    }

    method Store(id: string, v: Reply, now: real)
      requires capacity > 0
      modifies this`slots
      ensures slots == Set(old(slots), id, v, now, ttl, capacity)
    {
      Evict(now);
      var i := Find(id);
      if i < |slots| { slots := slots[i := Slot(id, now, v)]; } else { slots := slots + [Slot(id, now, v)]; }
    }
  }
}
