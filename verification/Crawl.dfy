/** The checkpointed review crawl: three scopes, six rating buckets each, paged by offset.

    A world fixes what the site answers. The crawl as a function of its cursor is `Trace`, the rows
    of every page it fetches; the crawl as the extension runs it is `ExtractReviews`, which may be
    cut short at any request. */
module Crawl {
  import opened Wrappers
  import opened Reviews
  import opened Checkpoint
  import Fingerprints

  const PAGE_SIZE := 6
  const MAX_REVIEWS := 20000
  const RATING_TYPES := [0, 5, 4, 3, 2, 1]

  // A review total, which is never given as zero.
  type Total = n: nat | n > 0 witness 1

  /** A site whose answers depend only on the question: the page at (filter, rating type, offset)
      with the review total it reports, an offset from which each bucket has nothing more, the
      filters that probing finds, and the counts of the product page. */
  datatype World = World(
    page: (int, int, nat) -> seq<Row>,
    pageTotal: (int, int, nat) -> Option<Total>,
    size: (int, int) -> nat,
    commentFilter: Option<int>, mediaFilter: Option<int>,
    withContext: nat, withMedia: nat, total: Option<Total>)

  function Page(w: World, filter: int, ratingType: int, offset: nat): seq<Row> {
    if offset < w.size(filter, ratingType) then w.page(filter, ratingType, offset) else []
  }

  // ---- The decisions ------------------------------------------------------------------------

  function TypeIndex(ratingType: int): (i: nat)
    ensures i < |RATING_TYPES| && (ratingType in RATING_TYPES ==> RATING_TYPES[i] == ratingType)
  {
    if ratingType == 5 then 1 else if ratingType == 4 then 2 else if ratingType == 3 then 3
    else if ratingType == 2 then 4 else if ratingType == 1 then 5 else 0
  }

  function Positive(n: nat): Option<nat> { if n > 0 then Some(n) else None }

  function ScopeTarget(w: World, k: nat, total: Option<Total>): Option<nat> {
    if k == 1 then Positive(w.withContext)
    else if k == 2 then Positive(w.withMedia)
    else total
  }

  predicate ShouldAdvance(w: World, k: nat, s: Scope, total: Option<Total>, typeIndex: nat) {
    typeIndex + 1 < |RATING_TYPES|
    && (var target := ScopeTarget(w, k, total); target.None? || s.rowsCount < target.value)
  }

  // ---- The crawl, by its cursor -------------------------------------------------------------

  /** Everything that decides what the crawl does next: the scope index, the scopes, the total. */
  datatype Cursor = Cursor(k: nat, scopes: seq<Scope>, total: Option<Total>)

  const FRESH_SCOPES := [Scope(Some(0), 0, 0, 0, false, true), Scope(None, 0, 0, 0, false, false),
                         Scope(None, 0, 0, 0, false, false)]

  function Begin(w: World): Cursor { Cursor(0, FRESH_SCOPES, w.total) }

  predicate Known(total: Option<nat>) { total.Some? && total.value > 0 }

  /** The cursor that a saved position resumes at; the product page's total wins over the saved one. */
  function Resume(w: World, p: Position): Cursor {
    if p.scopes == [] then Begin(w)
    else Cursor(p.activeScope, p.scopes, if w.total.Some? then w.total else if Known(p.total) then p.total else None)
  }

  function Probed(s: Scope, found: Option<int>): Scope {
    if s.filter.None? && !s.completed
    then s.(filter := found, discovered := found.Some?, completed := found.None?) else s
  }

  // Entering a scope that has no filter yet probes for the filters of both special scopes.
  function Enter(w: World, c: Cursor): (e: Cursor)
    requires |c.scopes| == 3
    ensures |e.scopes| == 3 && e.k == c.k && e.total == c.total
  {
    if 1 <= c.k < 3 && !c.scopes[c.k].discovered && c.scopes[c.k].filter.None? && !c.scopes[c.k].completed
    then c.(scopes := [c.scopes[0], Probed(c.scopes[1], w.commentFilter), Probed(c.scopes[2], w.mediaFilter)])
    else c
  }

  predicate Skipped(s: Scope) { s.completed || !s.discovered || s.filter.None? }

  predicate Active(c: Cursor) { |c.scopes| == 3 && c.k < 3 && !Skipped(c.scopes[c.k]) }

  function Fetch(w: World, c: Cursor): seq<Row>
    requires Active(c)
  {
    var s := c.scopes[c.k];
    Page(w, s.filter.value, s.ratingType, s.nextOffset)
  }

  // After a non-empty page: what the checkpoint message says.
  function Record(w: World, c: Cursor): (r: Cursor)
    requires Active(c)
    ensures Active(r) && r.k == c.k
  {
    var s, page := c.scopes[c.k], Fetch(w, c);
    c.(scopes := c.scopes[c.k := s.(rowsCount := s.rowsCount + |page|, nextOffset := s.nextOffset + |page|)],
       total := if c.total.None? then w.pageTotal(s.filter.value, s.ratingType, s.nextOffset) else c.total)
  }

  // After the last page of a bucket: on to the next rating, or to the next scope.
  function Advance(w: World, c: Cursor): (a: Cursor)
    requires Active(c)
    ensures |a.scopes| == 3
  {
    var s := c.scopes[c.k];
    var i := TypeIndex(s.ratingType);
    if ShouldAdvance(w, c.k, s, c.total, i)
    then c.(scopes := c.scopes[c.k := s.(ratingType := RATING_TYPES[i + 1], nextOffset := 0)])
    else c.(k := c.k + 1, scopes := c.scopes[c.k := s.(completed := true)])
  }

  // One page, from a cursor whose scope has been entered.
  function Turn(w: World, c: Cursor): (a: Cursor)
    requires Active(c)
    ensures |a.scopes| == 3
  {
    if Fetch(w, c) == [] then Advance(w, c)
    else if |Fetch(w, c)| < PAGE_SIZE then Advance(w, Record(w, c))
    else Record(w, c)
  }

  function RatingsLeft(w: World, c: Cursor): nat
    requires |c.scopes| == 3
  {
    if c.k < 3 then |RATING_TYPES| - TypeIndex(Enter(w, c).scopes[c.k].ratingType) else 0
  }

  function ItemsLeft(w: World, c: Cursor): nat
    requires |c.scopes| == 3
  {
    if !Active(Enter(w, c)) then 0
    else
      var s := Enter(w, c).scopes[c.k];
      var size := w.size(s.filter.value, s.ratingType);
      if s.nextOffset < size then size - s.nextOffset else 0
  }

  /** Each page makes progress: scopes left, then ratings left, then items left in the bucket. */
  lemma TurnDecreases(w: World, c: Cursor)
    requires Active(c)
    ensures Turn(w, c).k > c.k
         || (Turn(w, c).k == c.k && RatingsLeft(w, Turn(w, c)) < RatingsLeft(w, c))
         || (Turn(w, c).k == c.k && RatingsLeft(w, Turn(w, c)) == RatingsLeft(w, c)
             && ItemsLeft(w, Turn(w, c)) < ItemsLeft(w, c))
  {
  }

  /** The rows of every page that a crawl started at this cursor fetches, in order. */
  function Trace(w: World, c: Cursor): seq<Row>
    requires |c.scopes| == 3
    decreases if c.k < 3 then 3 - c.k else 0, RatingsLeft(w, c), ItemsLeft(w, c)
  {
    if c.k >= 3 then []
    else
      var e := Enter(w, c);
      if Skipped(e.scopes[e.k]) then Trace(w, e.(k := e.k + 1))
      else
        TurnDecreases(w, e);
        Fetch(w, e) + Trace(w, Turn(w, e))
  }

  lemma TraceEnter(w: World, c: Cursor)
    requires |c.scopes| == 3 && c.k < 3
    ensures Enter(w, Enter(w, c)) == Enter(w, c) && Trace(w, Enter(w, c)) == Trace(w, c)
  {
  }

  lemma TraceTurn(w: World, c: Cursor)
    requires Active(c)
    ensures Trace(w, c) == Fetch(w, c) + Trace(w, Turn(w, c))
  {
    assert Enter(w, c) == c;
  }

  /** Along the crawl from this cursor, a page shorter than the page size is the last of its bucket. */
  predicate Tidy(w: World, c: Cursor)
    requires |c.scopes| == 3
    decreases if c.k < 3 then 3 - c.k else 0, RatingsLeft(w, c), ItemsLeft(w, c)
  {
    c.k >= 3 ||
    var e := Enter(w, c);
    if Skipped(e.scopes[e.k]) then Tidy(w, e.(k := e.k + 1))
    else
      TurnDecreases(w, e);
      EndsBucket(w, e) && Tidy(w, Turn(w, e))
  }

  // If the page at this cursor is a short one, nothing comes after it in its bucket.
  predicate EndsBucket(w: World, c: Cursor)
    requires Active(c)
  {
    0 < |Fetch(w, c)| < PAGE_SIZE ==> Fetch(w, Record(w, c)) == []
  }

  lemma TidyTurn(w: World, c: Cursor)
    requires Active(c) && Tidy(w, c)
    ensures EndsBucket(w, c) && Tidy(w, Turn(w, c))
  {
    assert Enter(w, c) == c;
  }

  lemma TidyEnter(w: World, c: Cursor)
    requires |c.scopes| == 3 && c.k < 3
    ensures Tidy(w, Enter(w, c)) == Tidy(w, c)
    ensures Tidy(w, c) && Skipped(Enter(w, c).scopes[c.k]) ==> Tidy(w, Enter(w, c).(k := c.k + 1))
  {
  }

  // The checkpoint of a page is on the way, or one empty page from it.
  lemma TidyRecord(w: World, c: Cursor)
    requires Active(c) && Fetch(w, c) != [] && Tidy(w, c)
    ensures Tidy(w, Record(w, c))
  {
    TidyTurn(w, c);
    if |Fetch(w, c)| < PAGE_SIZE {
      var r := Record(w, c);
      assert Enter(w, r) == r && Turn(w, r) == Advance(w, r) == Turn(w, c);
    }
  }

  predicate EndsBucketAt(w: World, filter: int, ratingType: int, offset: nat) {
    var n := |Page(w, filter, ratingType, offset)|;
    0 < n < PAGE_SIZE ==> Page(w, filter, ratingType, offset + n) == []
  }

  // Where no short page of the site is followed by another, every crawl of it is tidy.
  lemma {:induction false} TidySite(w: World, c: Cursor)
    requires |c.scopes| == 3 && forall f, t, o: nat :: EndsBucketAt(w, f, t, o)
    ensures Tidy(w, c)
    decreases if c.k < 3 then 3 - c.k else 0, RatingsLeft(w, c), ItemsLeft(w, c)
  {
    if c.k < 3 {
      var e := Enter(w, c);
      EnteredOnce(w, c);
      if Skipped(e.scopes[e.k]) {
        TidySite(w, e.(k := e.k + 1));
      } else {
        var s := e.scopes[e.k];
        assert EndsBucketAt(w, s.filter.value, s.ratingType, s.nextOffset);
        TurnDecreases(w, e);
        TidySite(w, Turn(w, e));
      }
    }
  }

  /** A checkpoint taken after a short page makes the resumed crawl ask for one page more than the
      crawl that was not interrupted. Where that page is empty, the two still fetch the same rows
      from there on. */
  lemma TraceRecord(w: World, c: Cursor)
    requires Active(c) && Fetch(w, c) != [] && EndsBucket(w, c)
    ensures Trace(w, c) == Fetch(w, c) + Trace(w, Record(w, c))
  {
    TraceTurn(w, c);
    if |Fetch(w, c)| < PAGE_SIZE {
      var r := Record(w, c);
      TraceTurn(w, r);
      assert Trace(w, r) == [] + Trace(w, Advance(w, r)) == Trace(w, Advance(w, r));
    }
  }

  /** Without that condition the two crawls differ: here a one-row page is followed by another, the
      uninterrupted crawl takes the first for the end of the bucket, and the crawl resumed from the
      checkpoint in between finds the second. */
  lemma ShortPageInMidBucket(a: Row, b: Row) returns (w: World)
    requires KeyOf(a) != KeyOf(b)
    ensures Active(Begin(w)) && Fetch(w, Begin(w)) == [a]
    ensures KeysOf(Trace(w, Begin(w))) == {KeyOf(a)}
    ensures KeysOf(Fetch(w, Begin(w)) + Trace(w, Record(w, Begin(w)))) == {KeyOf(a), KeyOf(b)}
  {
    hide KeyOf;
    w := World((f, t, o) => if o == 0 then [a] else if o == 1 then [b] else [], (f, t, o) => None, (f, t) => 2,
               None, None, 0, 0, Some(1));
    var c := Begin(w);
    var r := Record(w, c);
    TraceTurn(w, c);
    TraceTurn(w, r);
    NothingAfterAll(w, Turn(w, c));
    NothingAfterAll(w, Turn(w, r));
    assert Trace(w, c) == [a] && Trace(w, r) == [b];
    assert KeysOf([a]) == {KeyOf(a)} && KeysOf([a] + [b]) == {KeyOf(a), KeyOf(b)};
  }

  lemma NothingAfterAll(w: World, c: Cursor)
    requires |c.scopes| == 3 && c.k == 1 && w.commentFilter.None? && w.mediaFilter.None?
    requires c.scopes[1] == FRESH_SCOPES[1] && c.scopes[2] == FRESH_SCOPES[2]
    ensures Trace(w, c) == []
  {
    var e := Enter(w, c);
    assert Trace(w, e.(k := 2)) == Trace(w, e.(k := 3)) == [];
  }

  // ---- The crawl, as a reader would state it ------------------------------------------------

  /** The rows of one bucket from an offset on, up to its first short or empty page. */
  function Bucket(w: World, filter: int, ratingType: int, offset: nat): seq<Row>
    decreases if offset < w.size(filter, ratingType) then w.size(filter, ratingType) - offset else 0
  {
    var page := Page(w, filter, ratingType, offset);
    if |page| < PAGE_SIZE then page else page + Bucket(w, filter, ratingType, offset + |page|)
  }

  /** The total once those rows are fetched: the first that is given stays. */
  function TotalAfter(w: World, filter: int, ratingType: int, offset: nat, total: Option<Total>): Option<Total>
    decreases if offset < w.size(filter, ratingType) then w.size(filter, ratingType) - offset else 0
  {
    var page := Page(w, filter, ratingType, offset);
    var known := if page != [] && total.None? then w.pageTotal(filter, ratingType, offset) else total;
    if |page| < PAGE_SIZE then known else TotalAfter(w, filter, ratingType, offset + |page|, known)
  }

  predicate Short(count: nat, target: Option<nat>) { target.None? || count < target.value }

  /** The buckets of a scope from the `i`-th rating on, for as long as its target is not reached. */
  function Ratings(w: World, k: nat, filter: int, i: nat, count: nat, total: Option<Total>): seq<Row>
    requires i < |RATING_TYPES|
    decreases |RATING_TYPES| - i, 0
  {
    var rows := Bucket(w, filter, RATING_TYPES[i], 0);
    rows + MoreRatings(w, k, filter, i + 1, count + |rows|, TotalAfter(w, filter, RATING_TYPES[i], 0, total))
  }

  function MoreRatings(w: World, k: nat, filter: int, i: nat, count: nat, total: Option<Total>): seq<Row>
    decreases |RATING_TYPES| - i, 1
  {
    if i < |RATING_TYPES| && Short(count, ScopeTarget(w, k, total)) then Ratings(w, k, filter, i, count, total) else []
  }

  function ScopeRows(w: World, k: nat): seq<Row> {
    var filter := if k == 0 then Some(0) else if k == 1 then w.commentFilter else w.mediaFilter;
    if filter.None? then [] else Ratings(w, k, filter.value, 0, 0, w.total)
  }

  // Two cursors that agree on the scopes still ahead, and on the total where it is a target.
  predicate Alike(c: Cursor, d: Cursor) {
    && |c.scopes| == |d.scopes| == 3 && c.k == d.k && (c.k == 0 ==> c.total == d.total)
    && forall k :: c.k <= k < 3 ==> c.scopes[k] == d.scopes[k]
  }

  lemma EnterAlike(w: World, c: Cursor, d: Cursor)
    requires Alike(c, d)
    ensures Alike(Enter(w, c), Enter(w, d))
  {
  }

  lemma TurnAlike(w: World, c: Cursor, d: Cursor)
    requires Alike(c, d) && Active(c)
    ensures Active(d) && Fetch(w, d) == Fetch(w, c) && Alike(Turn(w, c), Turn(w, d))
  {
  }

  lemma TraceSkip(w: World, c: Cursor)
    requires |c.scopes| == 3 && c.k < 3 && Skipped(Enter(w, c).scopes[c.k])
    ensures Trace(w, c) == Trace(w, Enter(w, c).(k := c.k + 1))
  {
  }

  lemma EnteredOnce(w: World, c: Cursor)
    requires |c.scopes| == 3 && c.k < 3
    ensures var e := Enter(w, c);
      e.k == c.k && RatingsLeft(w, e) == RatingsLeft(w, c) && ItemsLeft(w, e) == ItemsLeft(w, c)
  {
    TraceEnter(w, c);
    hide Trace;
  }

  // What the crawl fetches depends on the scopes still ahead of it only.
  lemma {:induction false} TraceAhead(w: World, c: Cursor, d: Cursor)
    requires Alike(c, d)
    ensures Trace(w, c) == Trace(w, d)
    decreases if c.k < 3 then 3 - c.k else 0, RatingsLeft(w, c), ItemsLeft(w, c)
  {
    if c.k < 3 {
      var e, f := Enter(w, c), Enter(w, d);
      EnterAlike(w, c, d);
      assert e.scopes[c.k] == f.scopes[c.k];
      if Skipped(e.scopes[c.k]) {
        TraceSkip(w, c);
        TraceSkip(w, d);
        hide Trace;
        hide Enter;
        TraceAhead(w, e.(k := e.k + 1), f.(k := f.k + 1));
      } else {
        assert Active(e);
        hide *;
        TraceEnter(w, c);
        TraceEnter(w, d);
        EnteredOnce(w, c);
        TurnDecreases(w, e);
        TurnAlike(w, e, f);
        TraceTurn(w, e);
        TraceTurn(w, f);
        AheadOfTurn(w, e, f);
      }
    }
  }

  // The step of the induction.
  lemma {:induction false} AheadOfTurn(w: World, e: Cursor, f: Cursor)
    requires Active(e) && Active(f) && Alike(Turn(w, e), Turn(w, f))
    ensures Trace(w, Turn(w, e)) == Trace(w, Turn(w, f))
    decreases 3 - e.k, RatingsLeft(w, e), ItemsLeft(w, e), 0
  {
    TurnDecreases(w, e);
    hide Turn;
    TraceAhead(w, Turn(w, e), Turn(w, f));
  }

  // What follows the current bucket: the ratings that are left, then the scopes that are left.
  function Following(w: World, c: Cursor, count: nat, total: Option<Total>): seq<Row>
    requires Active(c)
  {
    MoreRatings(w, c.k, c.scopes[c.k].filter.value, TypeIndex(c.scopes[c.k].ratingType) + 1, count, total)
    + Trace(w, c.(k := c.k + 1))
  }

  lemma FollowingSame(w: World, c: Cursor, d: Cursor, count: nat, total: Option<Total>)
    requires Active(c) && Active(d) && Alike(c.(k := c.k + 1), d.(k := d.k + 1))
    requires d.scopes[d.k].ratingType == c.scopes[c.k].ratingType && d.scopes[d.k].filter == c.scopes[c.k].filter
    ensures Following(w, d, count, total) == Following(w, c, count, total)
  {
    TraceAhead(w, c.(k := c.k + 1), d.(k := d.k + 1));
  }

  lemma BucketStep(w: World, filter: int, ratingType: int, offset: nat, total: Option<Total>)
    ensures var page := Page(w, filter, ratingType, offset);
      var known := if page != [] && total.None? then w.pageTotal(filter, ratingType, offset) else total;
      && Bucket(w, filter, ratingType, offset) ==
           page + (if |page| < PAGE_SIZE then [] else Bucket(w, filter, ratingType, offset + |page|))
      && TotalAfter(w, filter, ratingType, offset, total) ==
           if |page| < PAGE_SIZE then known else TotalAfter(w, filter, ratingType, offset + |page|, known)
  {
  }

  lemma RecordAhead(w: World, c: Cursor)
    requires Active(c)
    ensures var r, s := Record(w, c), c.scopes[c.k];
      && Active(r) && Alike(c.(k := c.k + 1), r.(k := r.k + 1)) && r.k == c.k
      && r.total == (if c.total.None? then w.pageTotal(s.filter.value, s.ratingType, s.nextOffset) else c.total)
      && r.scopes[c.k] == s.(rowsCount := s.rowsCount + |Fetch(w, c)|, nextOffset := s.nextOffset + |Fetch(w, c)|)
  {
  }

  lemma TurnIs(w: World, c: Cursor)
    requires Active(c)
    ensures Fetch(w, c) == Page(w, c.scopes[c.k].filter.value, c.scopes[c.k].ratingType, c.scopes[c.k].nextOffset)
    ensures Turn(w, c) == if Fetch(w, c) == [] then Advance(w, c)
                          else if |Fetch(w, c)| < PAGE_SIZE then Advance(w, Record(w, c)) else Record(w, c)
    ensures PAGE_SIZE > 0
  {
  }

  lemma ActiveIs(c: Cursor)
    requires Active(c)
    ensures |c.scopes| == 3 && c.k < 3 && c.scopes[c.k].filter.Some?
  {
  }

  /** From a cursor on, the crawl fetches the rest of its bucket and then what follows. */
  lemma {:induction false} TraceOfBucket(w: World, c: Cursor)
    requires Active(c)
    ensures var s := c.scopes[c.k]; var rest := Bucket(w, s.filter.value, s.ratingType, s.nextOffset);
      Trace(w, c) == rest + Following(w, c, s.rowsCount + |rest|,
                                      TotalAfter(w, s.filter.value, s.ratingType, s.nextOffset, c.total))
    decreases RatingsLeft(w, c), ItemsLeft(w, c), 1
  {
    hide *;
    ActiveIs(c);
    var s, page := c.scopes[c.k], Fetch(w, c);
    TraceTurn(w, c);
    TurnIs(w, c);
    BucketStep(w, s.filter.value, s.ratingType, s.nextOffset, c.total);
    if page == [] {
      TraceOfAdvance(w, c);
    } else {
      var r := Record(w, c);
      RecordAhead(w, c);
      LessLeft(w, c);
      if |page| < PAGE_SIZE {
        TraceOfAdvance(w, r);
        FollowingSame(w, c, r, s.rowsCount + |page|, r.total);
      } else {
        TraceOfBucket(w, r);
        var rest := Bucket(w, s.filter.value, s.ratingType, s.nextOffset + |page|);
        var total := TotalAfter(w, s.filter.value, s.ratingType, s.nextOffset + |page|, r.total);
        var after := Following(w, c, s.rowsCount + |page| + |rest|, total);
        FollowingSame(w, c, r, s.rowsCount + |page| + |rest|, total);
        assert page + (rest + after) == (page + rest) + after;
      }
    }
  }

  lemma LessLeft(w: World, c: Cursor)
    requires Active(c) && Fetch(w, c) != []
    ensures RatingsLeft(w, Record(w, c)) == RatingsLeft(w, c) && ItemsLeft(w, Record(w, c)) < ItemsLeft(w, c)
  {
  }

  /** After the last page of a bucket comes the next rating or the next scope. */
  lemma {:induction false} TraceOfAdvance(w: World, c: Cursor)
    requires Active(c)
    ensures Trace(w, Advance(w, c)) == Following(w, c, c.scopes[c.k].rowsCount, c.total)
    decreases RatingsLeft(w, c), ItemsLeft(w, c), 0
  {
    hide *;
    ActiveIs(c);
    var s, a, i := c.scopes[c.k], Advance(w, c), TypeIndex(c.scopes[c.k].ratingType);
    FollowingIs(w, c, s.rowsCount, c.total);
    if ShouldAdvance(w, c.k, s, c.total, i) {
      AdvanceAhead(w, c);
      var rows := Bucket(w, s.filter.value, RATING_TYPES[i + 1], 0);
      FollowingIs(w, a, s.rowsCount + |rows|, TotalAfter(w, s.filter.value, RATING_TYPES[i + 1], 0, c.total));
      RatingsStep(w, c.k, s.filter.value, i + 1, s.rowsCount, c.total);
      TraceOfBucket(w, a);
      TraceAhead(w, a.(k := c.k + 1), c.(k := c.k + 1));
    } else {
      AdvanceEnds(w, c);
      TraceAhead(w, a, c.(k := c.k + 1));
    }
  }

  lemma FollowingIs(w: World, c: Cursor, count: nat, total: Option<Total>)
    requires Active(c)
    ensures var s, i := c.scopes[c.k], TypeIndex(c.scopes[c.k].ratingType);
      Following(w, c, count, total) ==
        MoreRatings(w, c.k, s.filter.value, i + 1, count, total) + Trace(w, c.(k := c.k + 1))
    ensures var s, i := c.scopes[c.k], TypeIndex(c.scopes[c.k].ratingType);
      MoreRatings(w, c.k, s.filter.value, i + 1, s.rowsCount, total) ==
        if ShouldAdvance(w, c.k, s, total, i) then Ratings(w, c.k, s.filter.value, i + 1, s.rowsCount, total) else []
  {
    hide Ratings;
    hide Trace;
  }

  lemma AdvanceEnds(w: World, c: Cursor)
    requires Active(c) && !ShouldAdvance(w, c.k, c.scopes[c.k], c.total, TypeIndex(c.scopes[c.k].ratingType))
    ensures Alike(Advance(w, c), c.(k := c.k + 1))
  {
  }

  lemma RatingsStep(w: World, k: nat, filter: int, i: nat, count: nat, total: Option<Total>)
    requires i < |RATING_TYPES|
    ensures var rows := Bucket(w, filter, RATING_TYPES[i], 0);
      Ratings(w, k, filter, i, count, total) ==
        rows + MoreRatings(w, k, filter, i + 1, count + |rows|, TotalAfter(w, filter, RATING_TYPES[i], 0, total))
  {
    hide Bucket;
    hide TotalAfter;
    hide MoreRatings;
  }

  lemma AdvanceAhead(w: World, c: Cursor)
    requires Active(c) && ShouldAdvance(w, c.k, c.scopes[c.k], c.total, TypeIndex(c.scopes[c.k].ratingType))
    ensures var a, s, i := Advance(w, c), c.scopes[c.k], TypeIndex(c.scopes[c.k].ratingType);
      && i + 1 < |RATING_TYPES| && Active(a) && a.k == c.k && a.total == c.total
      && a.scopes[a.k] == s.(ratingType := RATING_TYPES[i + 1], nextOffset := 0)
      && TypeIndex(RATING_TYPES[i + 1]) == i + 1 && RatingsLeft(w, a) < RatingsLeft(w, c)
      && Alike(a.(k := c.k + 1), c.(k := c.k + 1))
  {
  }

  lemma AllFirst()
    ensures |RATING_TYPES| == 6 && RATING_TYPES[0] == 0 && TypeIndex(0) == 0
  {
  }

  lemma ScopeEntered(w: World, c: Cursor, filter: int)
    requires Active(c) && c.scopes[c.k] == Scope(Some(filter), 0, 0, 0, false, true)
    ensures Trace(w, c) == Ratings(w, c.k, filter, 0, 0, c.total) + Trace(w, c.(k := c.k + 1))
  {
    hide *;
    AllFirst();
    ActiveIs(c);
    var rows, total := Bucket(w, filter, 0, 0), TotalAfter(w, filter, 0, 0, c.total);
    TraceOfBucket(w, c);
    FollowingIs(w, c, |rows|, total);
    RatingsStep(w, c.k, filter, 0, 0, c.total);
  }

  lemma MoreIsWithoutTotal(w: World, k: nat, filter: int, i: nat, count: nat, total: Option<Total>)
    requires k in {1, 2}
    ensures MoreRatings(w, k, filter, i, count, total) ==
              if i < |RATING_TYPES| && Short(count, ScopeTarget(w, k, None)) then Ratings(w, k, filter, i, count, total) else []
    ensures |RATING_TYPES| == 6
  {
    hide Ratings;
  }

  // The total is no target of the special scopes.
  lemma {:induction false} TotalIsNoTarget(w: World, k: nat, filter: int, i: nat, count: nat, a: Option<Total>, b: Option<Total>)
    requires k in {1, 2} && i < |RATING_TYPES|
    ensures Ratings(w, k, filter, i, count, a) == Ratings(w, k, filter, i, count, b)
    decreases |RATING_TYPES| - i
  {
    hide *;
    var rows := Bucket(w, filter, RATING_TYPES[i], 0);
    var a', b' := TotalAfter(w, filter, RATING_TYPES[i], 0, a), TotalAfter(w, filter, RATING_TYPES[i], 0, b);
    RatingsStep(w, k, filter, i, count, a);
    RatingsStep(w, k, filter, i, count, b);
    MoreIsWithoutTotal(w, k, filter, i + 1, count + |rows|, a');
    MoreIsWithoutTotal(w, k, filter, i + 1, count + |rows|, b');
    if i + 1 < |RATING_TYPES| {
      TotalIsNoTarget(w, k, filter, i + 1, count + |rows|, a', b');
    }
  }

  // A special scope is crawled if probing finds its filter, and skipped otherwise.
  lemma SpecialScope(w: World, c: Cursor, found: Option<int>)
    requires |c.scopes| == 3 && 1 <= c.k < 3
    requires Enter(w, c).scopes[c.k] == Scope(found, 0, 0, 0, found.None?, found.Some?)
    ensures Trace(w, c) == (if found.None? then [] else Ratings(w, c.k, found.value, 0, 0, w.total))
                         + Trace(w, Enter(w, c).(k := c.k + 1))
  {
    AllFirst();
    var e := Enter(w, c);
    if found.None? {
      TraceSkip(w, c);
    } else {
      TraceEnter(w, c);
      ScopeEntered(w, e, found.value);
      TotalIsNoTarget(w, c.k, found.value, 0, 0, e.total, w.total);
    }
    hide Trace;
    hide Ratings;
  }

  // The cursor when the crawl comes to its second scope, and to its third.
  function Second(w: World): Cursor { Begin(w).(k := 1) }

  function Third(w: World): (c: Cursor)
    ensures |c.scopes| == 3 && c.k == 2
  {
    Enter(w, Second(w)).(k := 2)
  }

  lemma FromThird(w: World)
    ensures Trace(w, Third(w)) == ScopeRows(w, 2)
  {
    var c := Third(w);
    assert Enter(w, c).scopes[2] == Scope(w.mediaFilter, 0, 0, 0, w.mediaFilter.None?, w.mediaFilter.Some?);
    hide *;
    SpecialScope(w, c, w.mediaFilter);
    TraceAtEnd(w, Enter(w, c).(k := 3));
    ScopesAre(w);
  }

  lemma FromSecond(w: World)
    ensures |Second(w).scopes| == 3 && Trace(w, Second(w)) == ScopeRows(w, 1) + ScopeRows(w, 2)
  {
    var c := Second(w);
    assert Enter(w, c).scopes[1] == Scope(w.commentFilter, 0, 0, 0, w.commentFilter.None?, w.commentFilter.Some?);
    assert c.k == 1 && |c.scopes| == 3 && Enter(w, c).(k := 2) == Third(w);
    hide *;
    SpecialScope(w, c, w.commentFilter);
    FromThird(w);
    ScopesAre(w);
  }

  /** An uninterrupted crawl is simply this: the buckets of all reviews, then those of the reviews
      with comments, then those with media, each scope's rating by rating until its target is
      reached, and the special scopes only if they are found. The target of all reviews is the
      product page's total or, failing that, the first total that a page gives. */
  lemma WholeByScopes(w: World)
    ensures Whole(w) == ScopeRows(w, 0) + (ScopeRows(w, 1) + ScopeRows(w, 2))
  {
    var c := Begin(w);
    assert Active(c) && c.k == 0 && c.scopes[0] == Scope(Some(0), 0, 0, 0, false, true) && c.total == w.total;
    assert c.(k := 1) == Second(w) && Whole(w) == Trace(w, c) by { hide Trace; }
    hide *;
    ScopeEntered(w, c, 0);
    FromSecond(w);
    ScopesAre(w);
  }

  lemma TraceAtEnd(w: World, c: Cursor)
    requires |c.scopes| == 3 && c.k == 3
    ensures Trace(w, c) == []
  {
  }

  lemma ScopesAre(w: World)
    ensures ScopeRows(w, 0) == Ratings(w, 0, 0, 0, 0, w.total) && |RATING_TYPES| == 6
    ensures ScopeRows(w, 1) == if w.commentFilter.None? then [] else Ratings(w, 1, w.commentFilter.value, 0, 0, w.total)
    ensures ScopeRows(w, 2) == if w.mediaFilter.None? then [] else Ratings(w, 2, w.mediaFilter.value, 0, 0, w.total)
  {
    hide Ratings;
  }

  // ---- When resuming is right ---------------------------------------------------------------

  // Resuming from the checkpoint of the page at this cursor fetches what the crawl would.
  predicate Resumes(w: World, c: Cursor)
    requires Active(c)
  {
    Fetch(w, c) != [] ==> Trace(w, c) == Fetch(w, c) + Trace(w, Record(w, c))
  }

  // After the page at this cursor the scope has no further rating to go to.
  predicate Met(w: World, c: Cursor)
    requires Active(c)
  {
    var r := Record(w, c);
    !ShouldAdvance(w, c.k, r.scopes[c.k], r.total, TypeIndex(r.scopes[c.k].ratingType))
  }

  /** Where the scope has no further rating, resuming after a short page is right exactly when that
      page was the last of its bucket: what comes after it is fetched by the resumed crawl alone. */
  lemma ResumesExactlyWhenMet(w: World, c: Cursor)
    requires Active(c) && Met(w, c)
    ensures Resumes(w, c) <==> EndsBucket(w, c)
  {
    if EndsBucket(w, c) {
      if Fetch(w, c) != [] { TraceRecord(w, c); }
    } else {
      var r := Record(w, c);
      var s := r.scopes[r.k];
      assert |Fetch(w, c)| > 0 && Turn(w, c) == Advance(w, r);
      AdvanceEnds(w, r);
      assert Fetch(w, r) != [];
      hide *;
      RecordAhead(w, c);
      ActiveIs(r);
      TurnIs(w, r);
      TraceTurn(w, c);
      TraceOfBucket(w, r);
      BucketStep(w, s.filter.value, s.ratingType, s.nextOffset, r.total);
      var rest := Bucket(w, s.filter.value, s.ratingType, s.nextOffset);
      FollowingIs(w, r, s.rowsCount + |rest|, TotalAfter(w, s.filter.value, s.ratingType, s.nextOffset, r.total));
      TraceAhead(w, Advance(w, r), r.(k := r.k + 1));
      NotResumed(w, c);
    }
  }

  lemma NotResumed(w: World, c: Cursor)
    requires Active(c) && Fetch(w, c) != [] && Trace(w, c) != Fetch(w, c) + Trace(w, Record(w, c))
    ensures !Resumes(w, c)
  {
  }

  /** All along the crawl from this cursor, a crash after any page is made good by resuming. */
  predicate ResumesAlong(w: World, c: Cursor)
    requires |c.scopes| == 3
    decreases if c.k < 3 then 3 - c.k else 0, RatingsLeft(w, c), ItemsLeft(w, c)
  {
    c.k >= 3 ||
    var e := Enter(w, c);
    if Skipped(e.scopes[e.k]) then ResumesAlong(w, e.(k := e.k + 1))
    else
      TurnDecreases(w, e);
      Resumes(w, e) && ResumesAlong(w, Turn(w, e))
  }

  // Along the crawl, a short page leaves its scope no further rating to go to.
  predicate MetAlong(w: World, c: Cursor)
    requires |c.scopes| == 3
    decreases if c.k < 3 then 3 - c.k else 0, RatingsLeft(w, c), ItemsLeft(w, c)
  {
    c.k >= 3 ||
    var e := Enter(w, c);
    if Skipped(e.scopes[e.k]) then MetAlong(w, e.(k := e.k + 1))
    else
      TurnDecreases(w, e);
      (0 < |Fetch(w, e)| < PAGE_SIZE ==> Met(w, e)) && MetAlong(w, Turn(w, e))
  }

  /** A crawl can be resumed after each of its pages if its short pages end their buckets; and only
      if, where they leave their scopes no further rating. */
  lemma {:induction false} ResumesExactlyWhen(w: World, c: Cursor)
    requires |c.scopes| == 3
    ensures Tidy(w, c) ==> ResumesAlong(w, c)
    ensures MetAlong(w, c) ==> (Tidy(w, c) <==> ResumesAlong(w, c))
    decreases if c.k < 3 then 3 - c.k else 0, RatingsLeft(w, c), ItemsLeft(w, c)
  {
    if c.k < 3 {
      var e := Enter(w, c);
      if Skipped(e.scopes[e.k]) {
        hide Resumes;
        ResumesExactlyWhen(w, e.(k := e.k + 1));
      } else {
        EnteredOnce(w, c);
        TurnDecreases(w, e);
        if EndsBucket(w, e) && Fetch(w, e) != [] { TraceRecord(w, e); }
        if Met(w, e) { ResumesExactlyWhenMet(w, e); }
        hide Resumes;
        hide Met;
        hide Turn;
        ResumesExactlyWhen(w, Turn(w, e));
      }
    }
  }

  // ---- What a checkpoint owes ---------------------------------------------------------------

  function Whole(w: World): seq<Row> { Trace(w, Begin(w)) }

  /** What is still to be fetched from this cursor is the end of the uninterrupted crawl, the rows
      before it are already in `keys`, and `keys` holds nothing else. */
  ghost predicate Owes(w: World, c: Cursor, keys: set<Key>) {
    && |c.scopes| == 3 && Tidy(w, c)
    && |Trace(w, c)| <= |Whole(w)|
    && Whole(w)[|Whole(w)| - |Trace(w, c)|..] == Trace(w, c)
    && KeysOf(Whole(w)[..|Whole(w)| - |Trace(w, c)|]) <= keys <= KeysOf(Whole(w))
  }

  lemma OwesFetched(w: World, c: Cursor, page: seq<Row>, c': Cursor, keys: set<Key>, sent: set<Key>)
    requires Owes(w, c, keys) && |c'.scopes| == 3 && Tidy(w, c') && Trace(w, c) == page + Trace(w, c')
    requires KeysOf(page) <= keys + sent && sent <= KeysOf(page)
    ensures Owes(w, c', keys + sent)
  {
    hide KeyOf;
    hide Trace;
    hide Tidy;
    var all, rest, rest' := Whole(w), Trace(w, c), Trace(w, c');
    assert all[|all| - |rest'|..] == rest[|page|..] == rest';
    assert all[..|all| - |rest'|] == all[..|all| - |rest|] + page;
    assert KeysOf(all[..|all| - |rest'|]) == KeysOf(all[..|all| - |rest|]) + KeysOf(page);
    forall key | key in sent ensures key in KeysOf(all) {
      var i :| 0 <= i < |page| && KeyOf(page[i]) == key;
      assert all[|all| - |rest| + i] == rest[i] == page[i];
    }
  }

  lemma OwesSame(w: World, c: Cursor, c': Cursor, keys: set<Key>)
    requires Owes(w, c, keys) && |c'.scopes| == 3 && Tidy(w, c') && Trace(w, c) == Trace(w, c')
    ensures Owes(w, c', keys)
  {
  }

  lemma OwesMore(w: World, c: Cursor, keys: set<Key>, keys': set<Key>)
    requires Owes(w, c, keys) && keys <= keys' <= KeysOf(Whole(w))
    ensures Owes(w, c, keys')
  {
  }

  lemma OwesNothing(w: World, c: Cursor, keys: set<Key>)
    requires Owes(w, c, keys) && c.k >= 3
    ensures keys == KeysOf(Whole(w))
  {
    assert Whole(w)[..|Whole(w)|] == Whole(w);
  }

  // A page on, if the rows sent for it and those already held cover it.
  lemma OwesRecorded(w: World, c: Cursor, keys: set<Key>, sent: set<Key>)
    requires Owes(w, c, keys) && Active(c) && Fetch(w, c) != []
    requires KeysOf(Fetch(w, c)) <= keys + sent && sent <= KeysOf(Fetch(w, c))
    ensures Owes(w, Record(w, c), keys + sent)
  {
    TidyTurn(w, c);
    TidyRecord(w, c);
    TraceRecord(w, c);
    hide *;
    OwesFetched(w, c, Fetch(w, c), Record(w, c), keys, sent);
  }

  // ---- The extension's dedup ----------------------------------------------------------------

  function FingerprintsOf(rows: seq<Row>): set<string> { set r | r in rows :: Fingerprint(r) }

  /** Among these reviews a fingerprint says which key is meant. */
  ghost predicate OneKeyEach(rows: seq<Row>) {
    forall a, b :: a in rows && b in rows && Fingerprint(a) == Fingerprint(b) ==> KeyOf(a) == KeyOf(b)
  }

  /** Reviews as the extension sends them that are unambiguous on sight are such. */
  lemma UnambiguousHaveOneKey(rows: seq<Row>, times: Fingerprints.Times)
    requires Fingerprints.Proper(times)
    requires forall r :: r in rows ==> Fingerprints.Sent(r, times) && Fingerprints.Unambiguous(r, times)
    ensures OneKeyEach(rows)
  {
    hide Fingerprints.Sent;
    hide Fingerprints.Unambiguous;
    hide Fingerprints.Proper;
    forall a, b | a in rows && b in rows && Fingerprint(a) == Fingerprint(b) ensures KeyOf(a) == KeyOf(b) {
      Fingerprints.FixedBySight(a, b, times);
    }
    hide *;
  }

  function WithReview(unique: map<string, Row>, r: Row): map<string, Row> {
    var key := Fingerprint(r);
    unique[key := if key in unique then MergeReview(unique[key], r) else r]
  }

  /** What the extension collects from a sequence of reviews, by fingerprint. */
  function Collecting(unique: map<string, Row>, rows: seq<Row>): map<string, Row> {
    if rows == [] then unique else WithReview(Collecting(unique, rows[..|rows| - 1]), rows[|rows| - 1])
  }

  function KeysHeld(unique: map<string, Row>): set<Key> { set f | f in unique :: KeyOf(unique[f]) }

  // What is collected under a fingerprint has the key of every review with it.
  ghost predicate Stands(all: seq<Row>, f: string, u: Row) {
    forall r :: r in all && Fingerprint(r) == f ==> KeyOf(r) == KeyOf(u)
  }

  /** The reviews collected so far stand for those of their fingerprints. */
  ghost predicate Collected(all: seq<Row>, unique: map<string, Row>) {
    forall f :: f in unique ==> Stands(all, f, unique[f])
  }

  ghost predicate Held(unique: map<string, Row>, keys: set<Key>) {
    forall f :: f in unique ==> KeyOf(unique[f]) in keys
  }

  lemma CollectedNext(all: seq<Row>, unique: map<string, Row>, r: Row)
    requires OneKeyEach(all) && r in all && Collected(all, unique)
    ensures Collected(all, WithReview(unique, r)) && KeyOf(WithReview(unique, r)[Fingerprint(r)]) == KeyOf(r)
    ensures forall f :: f in unique ==> KeyOf(WithReview(unique, r)[f]) == KeyOf(unique[f])
  {
    var key := Fingerprint(r);
    hide Fingerprint;
    hide KeyOf;
    hide MergeReview;
    assert Stands(all, key, r);
    if key in unique {
      assert Stands(all, key, unique[key]);
      MergeReviewKeepsKey(unique[key], r);
      assert Stands(all, key, MergeReview(unique[key], r));
    }
    var next := WithReview(unique, r);
    forall f | f in next ensures Stands(all, f, next[f]) {
      if f != key { assert Stands(all, f, unique[f]); }
    }
  }

  lemma {:induction false} CollectedAll(all: seq<Row>, rows: seq<Row>)
    requires OneKeyEach(all) && forall r :: r in rows ==> r in all
    ensures Collected(all, Collecting(map[], rows)) && KeysHeld(Collecting(map[], rows)) == KeysOf(rows)
  {
    if rows != [] {
      var front, r := rows[..|rows| - 1], rows[|rows| - 1];
      assert rows == front + [r];
      CollectingStep(rows);
      hide *;
      CollectedAll(all, front);
      var u := Collecting(map[], front);
      CollectedNext(all, u, r);
      KeysOfNext(front, r);
      HeldNext(u, WithReview(u, r), Fingerprint(r), r);
    } else {
      hide OneKeyEach;
    }
  }

  lemma KeysOfNext(rows: seq<Row>, r: Row)
    ensures KeysOf(rows + [r]) == KeysOf(rows) + {KeyOf(r)}
  {
    hide KeyOf;
  }

  lemma CollectingStep(rows: seq<Row>)
    requires rows != []
    ensures var u, r := Collecting(map[], rows[..|rows| - 1]), rows[|rows| - 1];
      Collecting(map[], rows) == WithReview(u, r) && WithReview(u, r).Keys == u.Keys + {Fingerprint(r)}
  {
    hide Fingerprint;
    hide MergeReview;
  }

  lemma HeldNext(u: map<string, Row>, v: map<string, Row>, key: string, r: Row)
    requires v.Keys == u.Keys + {key} && KeyOf(v[key]) == KeyOf(r)
    requires forall f :: f in u ==> KeyOf(v[f]) == KeyOf(u[f])
    ensures KeysHeld(v) == KeysHeld(u) + {KeyOf(r)}
  {
    hide KeyOf;
    forall f | f in u ensures KeyOf(u[f]) in KeysHeld(v) {
      assert f in v;
    }
    assert key in v;
  }

  /** When the extension's dedup is sound: from whichever of these reviews, in whatever order and
      however often, it collects exactly their keys, if and only if among them a fingerprint says
      which key is meant. Of two reviews with one fingerprint and two keys it collects one. */
  lemma DedupIsSoundExactlyWhen(all: seq<Row>)
    ensures OneKeyEach(all) <==>
      forall rows: seq<Row> :: (forall r :: r in rows ==> r in all) ==> KeysHeld(Collecting(map[], rows)) == KeysOf(rows)
  {
    if OneKeyEach(all) {
      forall rows: seq<Row> | forall r :: r in rows ==> r in all
        ensures KeysHeld(Collecting(map[], rows)) == KeysOf(rows)
      {
        CollectedAll(all, rows);
      }
    } else {
      var a, b :| a in all && b in all && Fingerprint(a) == Fingerprint(b) && KeyOf(a) != KeyOf(b);
      OneOfTwo(a, b);
      assert forall r :: r in [a, b] ==> r in all;
    }
  }

  lemma OneOfTwo(a: Row, b: Row)
    requires Fingerprint(a) == Fingerprint(b) && KeyOf(a) != KeyOf(b)
    ensures KeysHeld(Collecting(map[], [a, b])) != KeysOf([a, b])
  {
    hide Fingerprint;
    hide KeyOf;
    hide MergeReview;
    var key, m := Fingerprint(a), MergeReview(a, b);
    assert [a, b][..1] == [a] && [a][..0] == [];
    assert Collecting(map[], []) == map[] && Collecting(map[], [a]) == map[key := a];
    assert Collecting(map[], [a, b]) == map[key := m];
    assert KeysHeld(map[key := m]) == {KeyOf(m)};
    assert a in [a, b] && b in [a, b];
    assert KeyOf(a) in KeysOf([a, b]) && KeyOf(b) in KeysOf([a, b]);
  }

  // One review of a page: merged into the one already collected, or collected and to be sent.
  method Collect(ghost all: seq<Row>, unique: map<string, Row>, added: seq<string>, r: Row)
    returns (unique': map<string, Row>, added': seq<string>)
    requires OneKeyEach(all) && r in all && Collected(all, unique)
    ensures unique' == WithReview(unique, r) && Collected(all, unique')
    ensures added' == if Fingerprint(r) in unique then added else added + [Fingerprint(r)]
    ensures KeyOf(unique'[Fingerprint(r)]) == KeyOf(r)
    ensures forall f :: f in unique ==> KeyOf(unique'[f]) == KeyOf(unique[f])
  {
    CollectedNext(all, unique, r);
    var key := Fingerprint(r);
    hide Fingerprint;
    hide KeyOf;
    hide MergeReview;
    hide Collected;
    if key in unique {
      unique', added' := unique[key := MergeReview(unique[key], r)], added;
    } else {
      unique', added' := unique[key := r], added + [key];
    }
  }

  /** A page collected into `before`: nothing changes identity, every review of the page is there
      under its fingerprint, and `added` are the fingerprints the page brought. */
  ghost predicate PageCollected(before: map<string, Row>, after: map<string, Row>, added: seq<string>, page: seq<Row>) {
    && (forall f :: f in before ==> f in after && KeyOf(after[f]) == KeyOf(before[f]))
    && (forall i :: 0 <= i < |page| ==> Fingerprint(page[i]) in after && KeyOf(after[Fingerprint(page[i])]) == KeyOf(page[i]))
    && (forall f :: f in after ==> f in before || f in added)
    && (forall f :: f in added ==> f in after && exists i :: 0 <= i < |page| && Fingerprint(page[i]) == f)
  }

  // A whole page.
  method CollectPage(ghost all: seq<Row>, unique: map<string, Row>, page: seq<Row>)
    returns (unique': map<string, Row>, added: seq<string>)
    requires OneKeyEach(all) && (forall r :: r in page ==> r in all) && Collected(all, unique)
    ensures unique' == Collecting(unique, page) && Collected(all, unique')
    ensures PageCollected(unique, unique', added, page)
  {
    hide Fingerprint;
    hide KeyOf;
    hide MergeReview;
    hide OneKeyEach;
    hide Collected;
    unique' := unique;
    added := [];
    for n := 0 to |page|
      invariant unique' == Collecting(unique, page[..n]) && Collected(all, unique')
      invariant PageCollected(unique, unique', added, page[..n])
    {
      ghost var u, a := unique', added;
      unique', added := Collect(all, unique', added, page[n]);
      assert page[..n + 1][..n] == page[..n];
      PageExtends(unique, u, a, unique', added, page, n);
    }
    assert page[..|page|] == page;
  }

  lemma PageExtends(before: map<string, Row>, u: map<string, Row>, a: seq<string>,
                    u': map<string, Row>, a': seq<string>, page: seq<Row>, n: nat)
    requires n < |page| && PageCollected(before, u, a, page[..n])
    requires u'.Keys == u.Keys + {Fingerprint(page[n])}
    requires a' == if Fingerprint(page[n]) in u then a else a + [Fingerprint(page[n])]
    requires KeyOf(u'[Fingerprint(page[n])]) == KeyOf(page[n])
    requires forall f :: f in u ==> KeyOf(u'[f]) == KeyOf(u[f])
    ensures PageCollected(before, u', a', page[..n + 1])
  {
    hide Fingerprint;
    hide KeyOf;
    var p, p' := page[..n], page[..n + 1];
    assert p' == p + [page[n]];
    forall f | f in a' ensures f in u' && exists i :: 0 <= i < |p'| && Fingerprint(p'[i]) == f {
      if f in a {
        var i :| 0 <= i < |p| && Fingerprint(p[i]) == f;
        assert Fingerprint(p'[i]) == f;
      } else {
        assert Fingerprint(p'[n]) == f;
      }
    }
  }

  // What is sent refers to the collected reviews: each as it is after the whole page is merged.
  function RowsAt(unique: map<string, Row>, added: seq<string>): (rows: seq<Row>)
    requires forall f :: f in added ==> f in unique
    ensures |rows| == |added| && forall i :: 0 <= i < |rows| ==> rows[i] == unique[added[i]]
  {
    seq(|added|, i requires 0 <= i < |added| => unique[added[i]])
  }

  /** What is sent, with what the helper already holds, covers the page; and it is no more than the
      page. The reviews withheld as duplicates are not missed. */
  lemma SentCoversPage(before: map<string, Row>, after: map<string, Row>, added: seq<string>, page: seq<Row>, keys: set<Key>)
    requires PageCollected(before, after, added, page) && Held(before, keys)
    ensures KeysOf(page) <= keys + KeysOf(RowsAt(after, added))
    ensures KeysOf(RowsAt(after, added)) <= KeysOf(page)
    ensures Held(after, keys + KeysOf(RowsAt(after, added)))
  {
    hide Fingerprint;
    hide KeyOf;
    var rows := RowsAt(after, added);
    forall f | f in after ensures KeyOf(after[f]) in keys + KeysOf(rows) {
      if f !in before {
        var j :| 0 <= j < |added| && added[j] == f;
        assert rows[j] in rows;
      }
    }
    forall key | key in KeysOf(page) ensures key in keys + KeysOf(rows) {
      var i :| 0 <= i < |page| && KeyOf(page[i]) == key;
      assert Fingerprint(page[i]) in after;
    }
    forall key | key in KeysOf(rows) ensures key in KeysOf(page) {
      var j :| 0 <= j < |rows| && KeyOf(rows[j]) == key;
      var i :| 0 <= i < |page| && Fingerprint(page[i]) == added[j];
      assert KeyOf(page[i]) == key;
    }
  }

  // ---- What the helper's position must not lose ---------------------------------------------

  /** Resuming at this position would complete the crawl. */
  ghost predicate Recoverable(w: World, p: Position, keys: set<Key>) {
    Owes(w, Resume(w, p), keys) && (p.scopes == [] ==> p.total == None)
  }

  // The position `p'` that a checkpoint sent at cursor `c` leaves, over position `p`.
  predicate SavedAt(c: Cursor, p: Position, p': Position) {
    p'.activeScope == c.k && p'.scopes == c.scopes && p'.total == (if c.total.Some? then c.total else p.total)
  }

  /** A message without a total leaves the helper its own, so it must not have one; if the product
      page gives the total, all messages carry it. */
  predicate NoStaleTotal(page: Option<Total>, sent: Option<nat>, held: Option<nat>) {
    page.Some? || Known(sent) || !Known(held)
  }

  // The total a run works with is the product page's if there is one, and the helper has no other.
  predicate Sane(w: World, c: Cursor, p: Position) {
    (w.total.Some? ==> c.total == w.total) && NoStaleTotal(w.total, c.total, p.total)
  }

  lemma SavedResumes(w: World, c: Cursor, p: Position, p': Position)
    requires |c.scopes| == 3 && Sane(w, c, p) && SavedAt(c, p, p')
    ensures Resume(w, p') == c && p'.scopes != []
  {
  }

  // The resumed cursor can save over the helper's position if the loaded total allows it.
  lemma LoadedIsSane(w: World, loaded: Position, p: Position)
    requires NoStaleTotal(w.total, loaded.total, p.total) && (loaded.scopes == [] ==> loaded.total == None)
    ensures Sane(w, Resume(w, loaded), p)
  {
  }

  /** If a run loads this position while the helper stands at `p`, the helper can still be resumed
      from once the run has saved its first page. */
  ghost predicate SavesWell(w: World, loaded: Position, p: Position, keys: set<Key>) {
    var c := Resume(w, loaded);
    Recoverable(w, loaded, keys) && Recoverable(w, p, keys) && Active(c) && Fetch(w, c) != [] ==>
      forall p' :: SavedAt(Record(w, c), p, p') ==> Recoverable(w, p', keys + KeysOf(Fetch(w, c)))
  }

  lemma SaneSavesWell(w: World, loaded: Position, p: Position, keys: set<Key>)
    requires NoStaleTotal(w.total, loaded.total, p.total)
    ensures SavesWell(w, loaded, p, keys)
  {
    var c := Resume(w, loaded);
    if Recoverable(w, loaded, keys) && Active(c) && Fetch(w, c) != [] {
      LoadedIsSane(w, loaded, p);
      OwesRecorded(w, c, keys, KeysOf(Fetch(w, c)));
      assert Sane(w, Record(w, c), p);
      hide Owes;
      forall p' | SavedAt(Record(w, c), p, p') ensures Recoverable(w, p', keys + KeysOf(Fetch(w, c))) {
        SavedResumes(w, Record(w, c), p, p');
      }
    }
  }

  // A site without total on the product page, whose first pages do not give it either: `n` rows
  // without a rating, then six five-star rows that tell the total `n`, and one more.
  function Untold(a: Row, z: Row, n: nat): World
    requires n > 0
  {
    World((f, t, o: nat) => if t == 0 then seq(if o + 6 < n then 6 else if o < n then n - o else 0, i => a)
                            else if o == 6 then [z] else [a, a, a, a, a, a],
          (f, t, o) => if t == 0 then None else Some(n), (f, t) => if t == 0 then n else if t == 5 then 7 else 0,
          None, None, 0, 0, None)
  }

  // The helper after the first five-star page, and a position from the beginning of the crawl.
  function Ahead(n: nat): Position {
    START.(scopes := [Scope(Some(0), 5, 6, n + 6, false, true), FRESH_SCOPES[1], FRESH_SCOPES[2]], total := Some(n))
  }

  function Behind(total: Option<nat>): Position { START.(scopes := FRESH_SCOPES, total := total) }

  function Times(a: Row, n: nat): (rows: seq<Row>)
    ensures |rows| == n && forall i :: 0 <= i < n ==> rows[i] == a
  {
    seq(n, i => a)
  }

  lemma {:induction false} UntoldFirst(a: Row, z: Row, n: nat, o: nat, total: Option<Total>)
    requires 0 < n && o <= n
    ensures Bucket(Untold(a, z, n), 0, 0, o) == Times(a, n - o)
    ensures TotalAfter(Untold(a, z, n), 0, 0, o, total) == total
    decreases n - o
  {
    var w := Untold(a, z, n);
    var m := if o + 6 < n then 6 else n - o;
    BucketStep(w, 0, 0, o, total);
    assert Page(w, 0, 0, o) == Times(a, m);
    if m == 6 {
      UntoldFirst(a, z, n, o + 6, total);
      assert Times(a, 6) + Times(a, n - o - 6) == Times(a, n - o);
    }
  }

  lemma UntoldSecond(a: Row, z: Row, n: nat)
    requires 0 < n
    ensures Bucket(Untold(a, z, n), 0, 5, 6) == [z] && TotalAfter(Untold(a, z, n), 0, 5, 6, Some(n)) == Some(n)
    ensures Bucket(Untold(a, z, n), 0, 5, 0) == Times(a, 6) + [z]
    ensures TotalAfter(Untold(a, z, n), 0, 5, 0, None) == Some(n)
  {
    var w := Untold(a, z, n);
    assert Page(w, 0, 5, 6) == [z] && Page(w, 0, 5, 0) == Times(a, 6);
    BucketStep(w, 0, 5, 6, Some(n));
    BucketStep(w, 0, 5, 0, None);
  }

  lemma UntoldTidy(a: Row, z: Row, n: nat)
    requires 0 < n
    ensures forall f, t, o: nat :: EndsBucketAt(Untold(a, z, n), f, t, o)
  {
  }

  lemma UntoldScopes(a: Row, z: Row, n: nat)
    requires 0 < n
    ensures var w := Untold(a, z, n); ScopeRows(w, 0) == Ratings(w, 0, 0, 0, 0, None) && ScopeRows(w, 1) == ScopeRows(w, 2) == []
    ensures |RATING_TYPES| == 6 && RATING_TYPES[0] == 0 && RATING_TYPES[1] == 5
  {
    ScopesAre(Untold(a, z, n));
    hide Ratings;
  }

  lemma UntoldWhole(a: Row, z: Row, n: nat)
    requires 0 < n
    ensures Whole(Untold(a, z, n)) == Times(a, n) + (Times(a, 6) + [z])
  {
    hide *;
    var w := Untold(a, z, n);
    UntoldScopes(a, z, n);
    UntoldFirst(a, z, n, 0, None);
    UntoldSecond(a, z, n);
    WholeByScopes(w);
    RatingsStep(w, 0, 0, 0, 0, None);
    RatingsStep(w, 0, 0, 1, n, None);
    MoreOfAll(w, 1, n, None);
    MoreOfAll(w, 2, n + 7, Some(n));
  }

  lemma MoreOfAll(w: World, i: nat, count: nat, total: Option<Total>)
    ensures MoreRatings(w, 0, 0, i, count, total) ==
              if i < 6 && (total.None? || count < total.value) then Ratings(w, 0, 0, i, count, total) else []
  {
    hide Ratings;
  }

  // Where the crawl stands in its first scope, with the total `n`.
  function InFirst(ratingType: int, offset: nat, count: nat, n: nat): Cursor
    requires 0 < n
  {
    Cursor(0, [Scope(Some(0), ratingType, offset, count, false, true), FRESH_SCOPES[1], FRESH_SCOPES[2]], Some(n))
  }

  lemma InFirstIs(a: Row, z: Row, ratingType: int, offset: nat, count: nat, n: nat)
    requires 0 < n
    ensures var w, c := Untold(a, z, n), InFirst(ratingType, offset, count, n);
      && Active(c) && c.k == 0 && c.scopes[0] == Scope(Some(0), ratingType, offset, count, false, true) && c.total == Some(n)
      && Trace(w, c.(k := 1)) == [] && TypeIndex(0) == 0 && TypeIndex(5) == 1
  {
    NothingAfterAll(Untold(a, z, n), InFirst(ratingType, offset, count, n).(k := 1));
    hide Trace;
  }

  lemma UntoldRest(a: Row, z: Row, n: nat, offset: nat)
    requires 0 < n && offset <= n
    ensures Trace(Untold(a, z, n), InFirst(0, offset, offset, n)) == Times(a, n - offset)
    ensures Trace(Untold(a, z, n), InFirst(5, 6, n + 6, n)) == [z]
  {
    hide *;
    var w, c, d := Untold(a, z, n), InFirst(0, offset, offset, n), InFirst(5, 6, n + 6, n);
    InFirstIs(a, z, 0, offset, offset, n);
    InFirstIs(a, z, 5, 6, n + 6, n);
    UntoldFirst(a, z, n, offset, Some(n));
    UntoldSecond(a, z, n);
    TraceOfBucket(w, c);
    FollowingIs(w, c, n, Some(n));
    MoreOfAll(w, 1, n, Some(n));
    TraceOfBucket(w, d);
    FollowingIs(w, d, n + 7, Some(n));
    MoreOfAll(w, 2, n + 7, Some(n));
  }

  lemma UntoldKeys(a: Row, z: Row, n: nat)
    requires 0 < n
    ensures var all, keys := Times(a, n) + (Times(a, 6) + [z]), {KeyOf(a)};
      && |all| == n + 7 && all[n + 6..] == [z] && all[0..] == all && KeyOf(z) in KeysOf(all)
      && KeysOf(all[..0]) == {} && KeysOf(all[..n + 6]) == keys <= KeysOf(all)
  {
    hide KeyOf;
    var all := Times(a, n) + (Times(a, 6) + [z]);
    assert all[n + 6] == z;
    assert all[..n + 6] == Times(a, n + 6);
    KeysOfTimes(a, n + 6);
    assert all[0] == a;
  }

  lemma UntoldResumes(a: Row, z: Row, n: nat, l: Option<nat>)
    requires 0 < n && !Known(l)
    ensures var w := Untold(a, z, n);
      && Resume(w, Behind(l)) == Begin(w) && Resume(w, Ahead(n)) == InFirst(5, 6, n + 6, n)
      && |Begin(w).scopes| == |InFirst(5, 6, n + 6, n).scopes| == 3
      && Behind(l).scopes != [] && Ahead(n).scopes != [] && Whole(w) == Trace(w, Begin(w))
  {
    hide Trace;
  }

  lemma UntoldOwes(a: Row, z: Row, n: nat, l: Option<nat>)
    requires 0 < n && !Known(l)
    ensures var w, keys := Untold(a, z, n), {KeyOf(a)};
      && Tidy(w, Begin(w)) && Recoverable(w, Ahead(n), keys) && Recoverable(w, Behind(l), keys)
      && KeyOf(z) in KeysOf(Whole(w))
  {
    var w := Untold(a, z, n);
    UntoldResumes(a, z, n, l);
    UntoldTidy(a, z, n);
    hide Trace;
    hide Tidy;
    hide Whole;
    hide Untold;
    hide Begin;
    hide KeyOf;
    hide KeysOf;
    hide InFirst;
    hide Ahead;
    hide Behind;
    hide Resume;
    hide EndsBucketAt;
    UntoldWhole(a, z, n);
    UntoldKeys(a, z, n);
    UntoldRest(a, z, n, 0);
    TidySite(w, Begin(w));
    TidySite(w, InFirst(5, 6, n + 6, n));
  }

  lemma UntoldFirstSaved(a: Row, z: Row, n: nat, l: Option<nat>, p': Position)
    requires 0 < n && !Known(l)
    ensures var w := Untold(a, z, n); var c, m := Resume(w, Behind(l)), if 6 < n then 6 else n;
      && w.total.None? && Active(c) && Fetch(w, c) == Times(a, m)
      && (SavedAt(Record(w, c), Ahead(n), p') ==> Resume(w, p') == InFirst(0, m, m, n))
  {
  }

  /** A run from an earlier position without total, beside a helper that has one: its first message
      leaves the helper that total with regressed scopes. Here, with any total, resuming stops when
      the first rating is through, and the review `z` is never fetched. */
  lemma StaleTotalLosesRows(a: Row, z: Row, n: nat, l: Option<nat>, p': Position)
    requires 0 < n && !Known(l) && KeyOf(a) != KeyOf(z)
    ensures var w, keys := Untold(a, z, n), {KeyOf(a)}; var c := Resume(w, Behind(l));
      && w.total.None? && Tidy(w, Begin(w)) && Recoverable(w, Ahead(n), keys) && Recoverable(w, Behind(l), keys)
      && KeyOf(z) in KeysOf(Whole(w)) && KeyOf(z) !in keys
      && Active(c) && Fetch(w, c) != [] && KeysOf(Fetch(w, c)) == keys
      && (SavedAt(Record(w, c), Ahead(n), p') ==> |Resume(w, p').scopes| == 3 && KeysOf(Trace(w, Resume(w, p'))) <= keys)
  {
    hide *;
    var w, m := Untold(a, z, n), if 6 < n then 6 else n;
    UntoldOwes(a, z, n, l);
    UntoldFirstSaved(a, z, n, l, p');
    UntoldRest(a, z, n, m);
    InFirstIs(a, z, 0, m, m, n);
    ActiveIs(InFirst(0, m, m, n));
    KeysOfTimes(a, m);
    KeysOfTimes(a, n - m);
  }

  lemma KeysOfTimes(a: Row, n: nat)
    ensures KeysOf(Times(a, n)) == if n == 0 then {} else {KeyOf(a)}
  {
    hide KeyOf;
    if n > 0 { assert Times(a, n)[0] == a; }
  }

  // Nothing is missed where a position can be resumed from.
  lemma NothingMissed(w: World, p: Position, keys: set<Key>)
    requires Recoverable(w, p, keys)
    ensures KeysOf(Whole(w)) <= keys + KeysOf(Trace(w, Resume(w, p)))
  {
    hide KeyOf;
    hide Trace;
    hide Tidy;
    var all, rest := Whole(w), Trace(w, Resume(w, p));
    assert all == all[..|all| - |rest|] + rest;
  }

  lemma TwoReviews() returns (a: Row, z: Row)
    ensures KeyOf(a) != KeyOf(z)
  {
    var no := Value(false, "");
    a := Row(no, no, no, no, no, no, no, no, no, no, no, no, no, 0, 0);
    z := a.(noiDung := Value(true, "z"));
  }

  /** When a run may load a position: whatever the site and wherever the helper stands, the first
      message of the run leaves the helper resumable, exactly when the product page gives the
      total, or the loaded position has one, or the helper has none. */
  lemma LoadingIsSafeExactlyWhen(page: Option<Total>, l: Option<nat>, h: Option<nat>)
    ensures NoStaleTotal(page, l, h) <==>
      forall w: World, loaded: Position, p: Position, keys: set<Key> ::
        w.total == page && loaded.total == l && p.total == h && Tidy(w, Begin(w)) ==> SavesWell(w, loaded, p, keys)
  {
    if NoStaleTotal(page, l, h) {
      forall w: World, loaded: Position, p: Position, keys: set<Key>
        | w.total == page && loaded.total == l && p.total == h && Tidy(w, Begin(w))
        ensures SavesWell(w, loaded, p, keys)
      {
        SaneSavesWell(w, loaded, p, keys);
      }
    } else {
      var a, z := TwoReviews();
      StaleTotalIsUnsafe(a, z, h.value, l);
      var w := Untold(a, z, h.value);
      assert w.total == page && Behind(l).total == l && Ahead(h.value).total == h && Tidy(w, Begin(w));
    }
  }

  lemma StaleTotalIsUnsafe(a: Row, z: Row, n: nat, l: Option<nat>)
    requires 0 < n && !Known(l) && KeyOf(a) != KeyOf(z)
    ensures var w := Untold(a, z, n); w.total.None? && Tidy(w, Begin(w)) && !SavesWell(w, Behind(l), Ahead(n), {KeyOf(a)})
  {
    hide Trace;
    hide Tidy;
    hide Untold;
    hide Owes;
    hide KeyOf;
    hide KeysOf;
    hide Times;
    hide Fetch;
    hide Whole;
    hide Ahead;
    hide Behind;
    var w, keys := Untold(a, z, n), {KeyOf(a)};
    StaleTotalLosesRows(a, z, n, l, START);
    var c := Resume(w, Behind(l));
    var r := Record(w, c);
    var p' := Ahead(n).(activeScope := r.k, scopes := r.scopes, total := if r.total.Some? then r.total else Ahead(n).total);
    StaleTotalLosesRows(a, z, n, l, p');
    if Recoverable(w, p', keys + KeysOf(Fetch(w, c))) {
      NothingMissed(w, p', keys + KeysOf(Fetch(w, c)));
      assert false;
    }
    assert SavedAt(r, Ahead(n), p') && !Recoverable(w, p', keys + KeysOf(Fetch(w, c)));
  }

  // ---- The extension's run ------------------------------------------------------------------

  /** A checkpoint message: its rows and the cursor it tells of. */
  datatype Message = Message(rows: seq<Row>, cursor: Cursor)

  /** What becomes of one step of a run: all goes well, the fetch fails (or the worker is killed),
      the message is lost or late, or only its acknowledgement is lost. */
  datatype Outcome = Well | FetchFails | MessageLost | AckLost

  function Faults(outcomes: seq<Outcome>): nat {
    if outcomes == [] then 0 else (if outcomes[0].Well? then 0 else 1) + Faults(outcomes[1..])
  }

  // Once the message has arrived, the helper owes what the message's cursor does.
  ghost predicate Owed(w: World, m: Message, keys: set<Key>) {
    Owes(w, m.cursor, keys + KeysOf(m.rows)) && (w.total.Some? ==> m.cursor.total == w.total)
  }

  lemma OwedMore(w: World, m: Message, keys: set<Key>, keys': set<Key>)
    requires Owed(w, m, keys) && keys <= keys' <= KeysOf(Whole(w))
    ensures Owed(w, m, keys')
  {
    hide Trace;
    hide Tidy;
    hide KeyOf;
    OwesMore(w, m.cursor, keys + KeysOf(m.rows), keys' + KeysOf(m.rows));
  }

  lemma RecoverableMore(w: World, p: Position, keys: set<Key>, keys': set<Key>)
    requires Recoverable(w, p, keys) && keys <= keys' <= KeysOf(Whole(w))
    ensures Recoverable(w, p, keys')
  {
    hide Trace;
    hide Tidy;
    OwesMore(w, Resume(w, p), keys, keys');
  }

  /** What lies outside the extension's run: the helper's checkpoint and every position it or the
      extension's own store has had, the messages sent to it, each of which may arrive at any time
      and more than once, and what will become of the steps to come (all goes well once these are
      used up). */
  class Link {
    const store: IngestCheckpoint
    const itemid: string
    const shopid: string
    const uiReference: string
    var past: seq<Position>
    var sent: seq<Message>
    var outcomes: seq<Outcome>

    constructor (itemid: string, shopid: string, uiReference: string, outcomes: seq<Outcome>)
      ensures fresh(store) && store.Valid() && store.rows == [] && store.position == START
      ensures past == [START] && sent == [] && this.outcomes == outcomes
    {
      store := new IngestCheckpoint();
      this.itemid, this.shopid, this.uiReference, this.outcomes := itemid, shopid, uiReference, outcomes;
      past, sent := [START], [];
    }

    /** The crawl can be completed from the helper's position and from any position kept, and still
        if any message arrives. */
    ghost predicate Sound(w: World)
      reads this, store
    {
      && store.Valid()
      && Recoverable(w, store.position, KeysOf(store.rows))
      && (forall p :: p in past ==> Recoverable(w, p, KeysOf(store.rows)))
      && (forall m :: m in sent ==> Owed(w, m, KeysOf(store.rows)))
    }

    method NextOutcome() returns (o: Outcome)
      modifies this`outcomes
      ensures o == if old(outcomes) == [] then Well else old(outcomes)[0]
      ensures Faults(outcomes) == if o.Well? then old(Faults(outcomes)) else old(Faults(outcomes)) - 1
    {
      if outcomes == [] { return Well; }
      o, outcomes := outcomes[0], outcomes[1..];
    }

    // A message arrives.
    method Deliver(w: World, m: Message)
      requires Sound(w) && Owed(w, m, KeysOf(store.rows)) && Sane(w, m.cursor, store.position)
      modifies store, this`past
      ensures Sound(w) && SavedAt(m.cursor, old(store.position), store.position)
      ensures KeysOf(store.rows) == old(KeysOf(store.rows)) + KeysOf(m.rows)
    {
      hide KeyOf;
      hide Represents;
      hide Trace;
      hide Tidy;
      ghost var keys, p := KeysOf(store.rows), store.position;
      var c := m.cursor;
      assert |c.scopes| == 3 && keys + KeysOf(m.rows) <= KeysOf(Whole(w));
      var s := if c.k < |c.scopes| then c.scopes[c.k] else Scope(None, 0, 0, 0, false, false);
      var _ := store.Save(Update(m.rows, Some(2), Some(c.k), Some(c.scopes), Some(s.nextOffset), Some(s.nextOffset),
                                 Some(s.ratingType), c.total, Some(itemid), Some(shopid), Some(uiReference)));
      past := past + [store.position];
      SavedResumes(w, c, p, store.position);
      hide Owes;
      forall q | q in past ensures Recoverable(w, q, KeysOf(store.rows)) {
        if q in old(past) { RecoverableMore(w, q, keys, KeysOf(store.rows)); }
      }
      forall n | n in sent ensures Owed(w, n, KeysOf(store.rows)) {
        OwedMore(w, n, keys, KeysOf(store.rows));
      }
    }
  }

  /** What a run keeps besides: the cursor owes what the helper lacks, and nothing collected has
      been withheld from the helper. */
  ghost predicate Running(w: World, c: Cursor, p: Position, keys: set<Key>, unique: map<string, Row>) {
    && Owes(w, c, keys) && Sane(w, c, p)
    && Collected(Whole(w), unique) && Held(unique, keys) && unique.Keys <= FingerprintsOf(Whole(w))
  }

  lemma RunningAdvance(w: World, c: Cursor, p: Position, keys: set<Key>, unique: map<string, Row>)
    requires Running(w, c, p, keys, unique) && Active(c) && Fetch(w, c) == []
    ensures Running(w, Advance(w, c), p, keys, unique)
  {
    hide Held;
    hide Collected;
    TraceTurn(w, c);
    TidyTurn(w, c);
    assert Trace(w, c) == Trace(w, Advance(w, c));
    OwesSame(w, c, Advance(w, c), keys);
    hide Owes;
  }

  lemma RunningSaved(w: World, c: Cursor, p: Position, p': Position, keys: set<Key>, unique: map<string, Row>)
    requires Running(w, c, p, keys, unique) && SavedAt(c, p, p')
    ensures Running(w, c, p', keys, unique)
  {
    hide Held;
    hide Collected;
    hide Owes;
  }

  // An earlier message may arrive while a run goes on if the totals allow it.
  predicate Timely(w: World, m: Message, p: Position, c: Cursor) {
    w.total.Some? || if m.cursor.total.Some? then c.total.Some? else !Known(p.total)
  }

  lemma RunningArrival(w: World, c: Cursor, m: Message, p: Position, p': Position, keys: set<Key>, unique: map<string, Row>)
    requires Running(w, c, p, keys, unique) && Owed(w, m, keys) && Timely(w, m, p, c) && SavedAt(m.cursor, p, p')
    ensures Running(w, c, p', keys + KeysOf(m.rows), unique)
  {
    assert keys + KeysOf(m.rows) <= KeysOf(Whole(w)) by { hide KeyOf; hide Trace; hide Tidy; }
    OwesMore(w, c, keys, keys + KeysOf(m.rows));
    hide Owes;
    hide KeysOf;
    hide KeyOf;
  }

  // Messages of earlier runs arrive, any number of them.
  method Arrivals(w: World, link: Link, c: Cursor, ghost unique: map<string, Row>)
    requires link.Sound(w) && Running(w, c, link.store.position, KeysOf(link.store.rows), unique)
    modifies link`past, link.store
    ensures link.Sound(w) && Running(w, c, link.store.position, KeysOf(link.store.rows), unique)
    ensures old(KeysOf(link.store.rows)) <= KeysOf(link.store.rows)
  {
    hide *;
    var n: int := *;
    while n > 0
      invariant link.Sound(w) && Running(w, c, link.store.position, KeysOf(link.store.rows), unique)
      invariant old(KeysOf(link.store.rows)) <= KeysOf(link.store.rows)
    {
      n := n - 1;
      var i: int := *;
      if 0 <= i < |link.sent| && Timely(w, link.sent[i], link.store.position, c) {
        ghost var p, keys := link.store.position, KeysOf(link.store.rows);
        SentIsOwed(w, link, i, c, unique);
        link.Deliver(w, link.sent[i]);
        RunningArrival(w, c, link.sent[i], p, link.store.position, keys, unique);
      }
    }
  }

  lemma SentIsOwed(w: World, link: Link, i: nat, c: Cursor, unique: map<string, Row>)
    requires link.Sound(w) && i < |link.sent| && Timely(w, link.sent[i], link.store.position, c)
    ensures Owed(w, link.sent[i], KeysOf(link.store.rows)) && Sane(w, link.sent[i].cursor, link.store.position)
  {
    assert Owed(w, link.sent[i], KeysOf(link.store.rows));
    hide Owes;
  }

  lemma PageInWhole(w: World, c: Cursor, keys: set<Key>)
    requires Owes(w, c, keys) && Active(c)
    ensures FingerprintsOf(Fetch(w, c)) <= FingerprintsOf(Whole(w)) && forall r :: r in Fetch(w, c) ==> r in Whole(w)
  {
    hide Fingerprint;
    hide Tidy;
    TraceTurn(w, c);
    var all, rest := Whole(w), Trace(w, c);
    forall r | r in Fetch(w, c) ensures r in all {
      var i :| 0 <= i < |Fetch(w, c)| && Fetch(w, c)[i] == r;
      assert all[|all| - |rest|..][i] == r;
    }
  }

  /** A page sent: once it is saved, the run goes on from the recorded cursor. */
  lemma RunningPage(w: World, c: Cursor, p: Position, p': Position, keys: set<Key>,
                    unique: map<string, Row>, unique': map<string, Row>, added: seq<string>)
    requires Running(w, c, p, keys, unique) && Active(c) && Fetch(w, c) != []
    requires Collected(Whole(w), unique') && PageCollected(unique, unique', added, Fetch(w, c))
    ensures Owed(w, Message(RowsAt(unique', added), Record(w, c)), keys) && Sane(w, Record(w, c), p)
    ensures SavedAt(Record(w, c), p, p') ==> Running(w, Record(w, c), p', keys + KeysOf(RowsAt(unique', added)), unique')
  {
    hide KeyOf;
    hide Fingerprint;
    var sent := KeysOf(RowsAt(unique', added));
    SentCoversPage(unique, unique', added, Fetch(w, c), keys);
    OwesRecorded(w, c, keys, sent);
    PageInWhole(w, c, keys);
    assert unique'.Keys <= FingerprintsOf(Whole(w)) by {
      forall f | f in unique' && f !in unique ensures f in FingerprintsOf(Fetch(w, c)) {
        assert f in added;
      }
    }
    hide Owes;
    hide Held;
  }

  // The request may be lost, or its acknowledgement, and then the run fails.
  method SendCheckpoint(w: World, link: Link, c: Cursor, rows: seq<Row>, outcome: Outcome) returns (delivered: bool, acked: bool)
    requires link.Sound(w) && Sane(w, c, link.store.position)
    requires Owed(w, Message(rows, c), KeysOf(link.store.rows))
    modifies link`sent, link`past, link.store
    ensures link.Sound(w) && delivered == !outcome.MessageLost? && acked == (delivered && !outcome.AckLost?)
    ensures !delivered ==> link.store.position == old(link.store.position) && link.store.rows == old(link.store.rows)
    ensures delivered ==> SavedAt(c, old(link.store.position), link.store.position)
    ensures delivered ==> KeysOf(link.store.rows) == old(KeysOf(link.store.rows)) + KeysOf(rows)
  {
    hide KeysOf;
    hide Owed;
    hide Recoverable;
    hide SavedAt;
    hide Sane;
    link.sent := link.sent + [Message(rows, c)];
    if outcome.MessageLost? { return false, false; }
    link.Deliver(w, Message(rows, c));
    return true, !outcome.AckLost?;
  }

  /** What a failed fetch leaves: the extension keeps its own position, which no checkpoint message
      need have carried, and may report it with its failure, which is a checkpoint without rows. */
  method LastWords(w: World, link: Link, c: Cursor, ghost unique: map<string, Row>)
    requires link.Sound(w) && Active(c) && Running(w, c, link.store.position, KeysOf(link.store.rows), unique)
    modifies link`past, link`sent
    ensures link.Sound(w) && link.sent == old(link.sent) + [Message([], c)]
    ensures |link.past| == |old(link.past)| + 1 && old(link.past) < link.past
    ensures Resume(w, link.past[|old(link.past)|]) == c
  {
    var s := c.scopes[c.k];
    var own := Position(2, c.k, c.scopes, s.nextOffset, s.ratingType, c.total,
                        Some(link.itemid), Some(link.shopid), Some(link.uiReference));
    OwnPosition(w, c, link.store.position, KeysOf(link.store.rows), unique, own);
    RunningOwed(w, c, link.store.position, KeysOf(link.store.rows), unique);
    hide Owed;
    hide Recoverable;
    hide Running;
    hide KeysOf;
    hide Resume;
    link.past, link.sent := link.past + [own], link.sent + [Message([], c)];
  }

  lemma OwnPosition(w: World, c: Cursor, p: Position, keys: set<Key>, unique: map<string, Row>, own: Position)
    requires Active(c) && Running(w, c, p, keys, unique)
    requires own.activeScope == c.k && own.scopes == c.scopes && own.total == c.total
    ensures Resume(w, own) == c && Recoverable(w, own, keys)
  {
    assert Resume(w, own) == c;
    hide Owes;
  }

  /** The fingerprints of the reviews that the crawl comes to say which keys are meant. */
  ghost predicate Recognizable(w: World) { OneKeyEach(Whole(w)) }

  // The next rating of the scope, or the end of the scope.
  method NextBucket(w: World, c: Cursor) returns (more: bool, c': Cursor)
    requires Active(c)
    ensures c' == Advance(w, c) && |c'.scopes| == 3
    ensures if more then c'.k == c.k && Active(c') else c'.k == c.k + 1
  {
    var s, typeIndex := c.scopes[c.k], TypeIndex(c.scopes[c.k].ratingType);
    if ShouldAdvance(w, c.k, s, c.total, typeIndex) {
      return true, c.(scopes := c.scopes[c.k := s.(ratingType := RATING_TYPES[typeIndex + 1], nextOffset := 0)]);
    }
    return false, c.(k := c.k + 1, scopes := c.scopes[c.k := s.(completed := true)]);
  }

  // One page of one scope. `more` says whether the scope has more to fetch.
  method CrawlPage(w: World, link: Link, c: Cursor, unique: map<string, Row>)
    returns (alive: bool, more: bool, c': Cursor, unique': map<string, Row>)
    requires Recognizable(w) && link.Sound(w) && Active(c)
    requires Running(w, c, link.store.position, KeysOf(link.store.rows), unique)
    modifies link, link.store
    ensures link.Sound(w) && KeysOf(old(link.store.rows)) <= KeysOf(link.store.rows)
    ensures Faults(link.outcomes) + (if alive then 0 else 1) <= old(Faults(link.outcomes))
    ensures alive ==> Running(w, c', link.store.position, KeysOf(link.store.rows), unique') && c' == Turn(w, c)
    ensures alive ==> |c'.scopes| == 3 && if more then c'.k == c.k && Active(c') else c'.k == c.k + 1
  {
    hide KeyOf;
    hide KeysOf;
    hide Fingerprint;
    hide Recognizable;
    hide OneKeyEach;
    hide Collecting;
    hide Advance;
    hide PageCollected;
    hide FingerprintsOf;
    hide Owes;
    hide Owed;
    hide Held;
    hide Collected;
    hide SavedAt;
    hide Recoverable;
    hide Faults;
    hide Sane;
    Arrivals(w, link, c, unique);
    var outcome := link.NextOutcome();
    if outcome.FetchFails? {
      LastWords(w, link, c, unique);
      return false, false, c, unique;
    }
    var s := c.scopes[c.k];
    var offset, ratingType := s.nextOffset, s.ratingType;
    var batch := Page(w, s.filter.value, ratingType, offset);
    c', unique' := c, unique;
    var delivered, acked;
    ghost var p, keys := link.store.position, KeysOf(link.store.rows);
    if batch == [] {
      RunningAdvance(w, c, p, keys, unique);
      more, c' := NextBucket(w, c);
      if !more { return true, false, c', unique'; }
      RunningOwed(w, c', p, keys, unique);
      delivered, acked := SendCheckpoint(w, link, c', [], outcome);
      if delivered { RunningSaved(w, c', p, link.store.position, keys, unique); }
      return acked, true, c', unique';
    }
    var added;
    PageRecognized(w, c, p, keys, unique);
    unique', added := CollectPage(Whole(w), unique, batch);
    assert forall f :: f in added ==> f in unique' by { AddedAreCollected(unique, unique', added, batch); }
    c' := c.(scopes := c.scopes[c.k := s.(rowsCount := s.rowsCount + |batch|, nextOffset := offset + |batch|)],
             total := if c.total.None? then w.pageTotal(s.filter.value, ratingType, offset) else c.total);
    RunningPage(w, c, p, p, keys, unique, unique', added);
    delivered, acked := SendCheckpoint(w, link, c', RowsAt(unique', added), outcome);
    if !acked { return false, true, c', unique'; }
    RunningPage(w, c, p, link.store.position, keys, unique, unique', added);
    if |batch| < PAGE_SIZE {
      RunningEndsBucket(w, c, p, keys, unique);
      RunningAdvance(w, c', link.store.position, KeysOf(link.store.rows), unique');
      more, c' := NextBucket(w, c');
      return true, more, c', unique';
    }
    return true, true, c', unique';
  }

  lemma PageRecognized(w: World, c: Cursor, p: Position, keys: set<Key>, unique: map<string, Row>)
    requires Running(w, c, p, keys, unique) && Active(c) && Recognizable(w)
    ensures OneKeyEach(Whole(w)) && (forall r :: r in Fetch(w, c) ==> r in Whole(w)) && Collected(Whole(w), unique)
  {
    PageInWhole(w, c, keys);
    hide Owes;
    hide OneKeyEach;
    hide Collected;
  }

  lemma RunningEndsBucket(w: World, c: Cursor, p: Position, keys: set<Key>, unique: map<string, Row>)
    requires Running(w, c, p, keys, unique) && Active(c)
    ensures EndsBucket(w, c)
  {
    TidyTurn(w, c);
  }

  // A message without rows.
  lemma RunningOwed(w: World, c: Cursor, p: Position, keys: set<Key>, unique: map<string, Row>)
    requires Running(w, c, p, keys, unique)
    ensures Owed(w, Message([], c), keys) && Sane(w, c, p) && keys + KeysOf([]) == keys
  {
    hide Owes;
    assert keys + KeysOf([]) == keys;
  }

  lemma AddedAreCollected(before: map<string, Row>, after: map<string, Row>, added: seq<string>, page: seq<Row>)
    requires PageCollected(before, after, added, page)
    ensures forall f :: f in added ==> f in after
  {
  }

  lemma CollectedWithinWhole(w: World, c: Cursor, p: Position, keys: set<Key>, unique: map<string, Row>)
    requires Running(w, c, p, keys, unique)
    ensures |unique| <= |FingerprintsOf(Whole(w))|
  {
    assert |unique| == |unique.Keys|;
    FewerElements(unique.Keys, FingerprintsOf(Whole(w)));
  }

  /** The review limit does not cut the crawl short. */
  ghost predicate WithinLimit(w: World) { |FingerprintsOf(Whole(w))| < MAX_REVIEWS }

  // The paging loop of one scope.
  method CrawlScope(w: World, link: Link, c: Cursor, unique: map<string, Row>)
    returns (alive: bool, c': Cursor, unique': map<string, Row>)
    requires Recognizable(w) && link.Sound(w) && Active(c)
    requires Running(w, c, link.store.position, KeysOf(link.store.rows), unique)
    modifies link, link.store
    ensures link.Sound(w) && KeysOf(old(link.store.rows)) <= KeysOf(link.store.rows)
    ensures Faults(link.outcomes) + (if alive then 0 else 1) <= old(Faults(link.outcomes))
    ensures alive && WithinLimit(w) ==> Running(w, c', link.store.position, KeysOf(link.store.rows), unique')
    ensures alive ==> c'.k == c.k + 1 && |c'.scopes| == 3
  {
    hide Running;
    hide Recoverable;
    hide Owed;
    hide FingerprintsOf;
    hide KeyOf;
    hide KeysOf;
    hide Turn;
    hide RatingsLeft;
    hide ItemsLeft;
    hide Trace;
    hide Faults;
    c', unique' := c, unique;
    CollectedWithinWhole(w, c', link.store.position, KeysOf(link.store.rows), unique');
    while |unique'| < MAX_REVIEWS
      invariant Active(c') && c'.k == c.k && link.Sound(w) && KeysOf(old(link.store.rows)) <= KeysOf(link.store.rows)
      invariant Running(w, c', link.store.position, KeysOf(link.store.rows), unique')
      invariant |unique'| <= |FingerprintsOf(Whole(w))| && Faults(link.outcomes) <= old(Faults(link.outcomes))
      decreases RatingsLeft(w, c'), ItemsLeft(w, c')
    {
      var more;
      TurnDecreases(w, c');
      alive, more, c', unique' := CrawlPage(w, link, c', unique');
      if !alive || !more { return; }
      CollectedWithinWhole(w, c', link.store.position, KeysOf(link.store.rows), unique');
    }
    return true, c'.(k := c.k + 1, scopes := c'.scopes[c.k := c'.scopes[c.k].(completed := true)]), unique';
  }

  lemma RunningEnter(w: World, c: Cursor, p: Position, keys: set<Key>, unique: map<string, Row>)
    requires Running(w, c, p, keys, unique) && c.k < 3
    ensures Running(w, Enter(w, c), p, keys, unique)
    ensures Skipped(Enter(w, c).scopes[c.k]) ==> Running(w, Enter(w, c).(k := c.k + 1), p, keys, unique)
  {
    hide Held;
    hide Collected;
    TraceEnter(w, c);
    TidyEnter(w, c);
    OwesSame(w, c, Enter(w, c), keys);
    if Skipped(Enter(w, c).scopes[c.k]) {
      OwesSame(w, c, Enter(w, c).(k := c.k + 1), keys);
    }
    hide Owes;
  }

  lemma RunningStarts(w: World, loaded: Position, p: Position, keys: set<Key>)
    requires Recoverable(w, loaded, keys) && NoStaleTotal(w.total, loaded.total, p.total)
    ensures Running(w, Resume(w, loaded), p, keys, map[])
  {
    LoadedIsSane(w, loaded, p);
    hide Owes;
  }

  lemma RunningEnds(w: World, c: Cursor, p: Position, keys: set<Key>, unique: map<string, Row>)
    requires Running(w, c, p, keys, unique)
    ensures |c.scopes| == 3 && keys <= KeysOf(Whole(w)) && (c.k >= 3 ==> keys == KeysOf(Whole(w)))
  {
    if c.k >= 3 { OwesNothing(w, c, keys); }
  }

  /** One run of the extension from a loaded position, cut short at any step or not, with messages
      of earlier runs arriving meanwhile. Whatever happens the helper can be resumed from. A run in
      which nothing goes wrong finishes, and one that finishes has brought the helper to exactly the
      keys of the uninterrupted crawl. */
  method ExtractReviews(w: World, link: Link, loaded: Position) returns (finished: bool)
    requires Recognizable(w) && WithinLimit(w) && link.Sound(w)
    requires Recoverable(w, loaded, KeysOf(link.store.rows))
    requires NoStaleTotal(w.total, loaded.total, link.store.position.total)
    modifies link, link.store
    ensures link.Sound(w) && KeysOf(old(link.store.rows)) <= KeysOf(link.store.rows)
    ensures Faults(link.outcomes) + (if finished then 0 else 1) <= old(Faults(link.outcomes))
    ensures finished ==> KeysOf(link.store.rows) == KeysOf(Whole(w))
  {
    hide FingerprintsOf;
    hide KeyOf;
    hide KeysOf;
    hide Owed;
    hide Recoverable;
    hide Running;
    hide Faults;
    hide Trace;
    hide WithinLimit;
    var outcome := link.NextOutcome();
    if outcome.FetchFails? { return false; }
    var unique: map<string, Row> := map[];
    var c := Resume(w, loaded);
    RunningStarts(w, loaded, link.store.position, KeysOf(link.store.rows));
    RunningEnds(w, c, link.store.position, KeysOf(link.store.rows), unique);
    while c.k < 3
      invariant link.Sound(w) && KeysOf(old(link.store.rows)) <= KeysOf(link.store.rows)
      invariant Running(w, c, link.store.position, KeysOf(link.store.rows), unique) && |c.scopes| == 3
      invariant Faults(link.outcomes) <= old(Faults(link.outcomes))
      decreases 3 - c.k
    {
      RunningEnter(w, c, link.store.position, KeysOf(link.store.rows), unique);
      c := Enter(w, c);
      if Skipped(c.scopes[c.k]) {
        c := c.(k := c.k + 1);
        continue;
      }
      var alive;
      alive, c, unique := CrawlScope(w, link, c, unique);
      if !alive { return false; }
    }
    RunningEnds(w, c, link.store.position, KeysOf(link.store.rows), unique);
    return true;
  }

  // Between two runs.
  method Idle(w: World, link: Link)
    requires link.Sound(w)
    modifies link`past, link.store
    ensures link.Sound(w) && old(KeysOf(link.store.rows)) <= KeysOf(link.store.rows)
  {
    hide *;
    var n: int := *;
    while n > 0
      invariant link.Sound(w) && old(KeysOf(link.store.rows)) <= KeysOf(link.store.rows)
    {
      n := n - 1;
      var i: int := *;
      if 0 <= i < |link.sent| && NoStaleTotal(w.total, link.sent[i].cursor.total, link.store.position.total) {
        SentIsSane(w, link, i);
        link.Deliver(w, link.sent[i]);
      }
    }
  }

  lemma SentIsSane(w: World, link: Link, i: nat)
    requires link.Sound(w) && i < |link.sent|
    requires NoStaleTotal(w.total, link.sent[i].cursor.total, link.store.position.total)
    ensures Owed(w, link.sent[i], KeysOf(link.store.rows)) && Sane(w, link.sent[i].cursor, link.store.position)
  {
    assert Owed(w, link.sent[i], KeysOf(link.store.rows));
    hide Owes;
  }

  // A run starts from the helper's position, or from one it or the extension has kept.
  method Load(w: World, link: Link) returns (loaded: Position)
    requires link.Sound(w)
    ensures Recoverable(w, loaded, KeysOf(link.store.rows))
    ensures NoStaleTotal(w.total, loaded.total, link.store.position.total)
  {
    hide Recoverable;
    hide KeysOf;
    hide Owed;
    loaded := link.store.position;
    var i: int := *;
    if 0 <= i < |link.past| && NoStaleTotal(w.total, link.past[i].total, link.store.position.total) {
      loaded := link.past[i];
    }
  }

  /** Whatever goes wrong, and wherever, as long as it does so finitely often: the crawl, resumed
      after each failure from the helper's position, from an earlier one or from the extension's own, comes to an end, and the
      helper then holds exactly the keys that a crawl without failures leaves. Messages that arrive
      after that do not alter them. */
  method CrawlWithCrashes(w: World, outcomes: seq<Outcome>, itemid: string, shopid: string, uiReference: string)
    returns (link: Link)
    requires Tidy(w, Begin(w)) && Recognizable(w) && WithinLimit(w)
    ensures link.Sound(w) && KeysOf(link.store.rows) == KeysOf(Whole(w))
  {
    hide KeyOf;
    hide Owes;
    hide WithinLimit;
    hide Recognizable;
    link := new Link(itemid, shopid, uiReference, outcomes);
    FreshStart(w);
    assert KeysOf(link.store.rows) == {};
    hide *;
    var finished := false;
    while !finished
      invariant link.Sound(w) && fresh(link) && fresh(link.store)
      invariant finished ==> KeysOf(link.store.rows) == KeysOf(Whole(w))
      decreases Faults(link.outcomes), !finished
    {
      Idle(w, link);
      var loaded := Load(w, link);
      finished := ExtractReviews(w, link, loaded);
    }
    Idle(w, link);
    SoundWithin(w, link);
  }

  lemma SoundWithin(w: World, link: Link)
    requires link.Sound(w)
    ensures KeysOf(link.store.rows) <= KeysOf(Whole(w))
  {
  }

  lemma FreshStart(w: World)
    requires Tidy(w, Begin(w))
    ensures Recoverable(w, START, {})
  {
    assert KeysOf(Whole(w)[..0]) == {};
  }
}
