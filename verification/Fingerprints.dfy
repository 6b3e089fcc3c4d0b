/** When the extension's fingerprint of a review says which key the helper gives it.

    The fingerprint of a review without an id joins seven fields with U+001F, which the fields may
    contain themselves. Here every way to read a fingerprint is considered, and it is said exactly
    which reviews share theirs with none of another key. */
module Fingerprints {
  import opened Reviews
  import opened Separators

  /** What the extension's normalisation gives: an identifier is copied to `cmid`, and `comment` and
      `time` are never sent. */
  predicate Normal(r: Row) {
    && (r.id.truthy ==> r.cmid == r.id && Strip(r.id.text) != "")
    && (!r.id.truthy ==> !r.cmid.truthy)
    && !r.comment.truthy && !r.time.truthy
  }

  /** Which texts are times. The extension formats them itself: they are not blank, and have no
      separator. */
  type Times = string -> bool

  ghost predicate Proper(times: Times) { forall t :: times(t) ==> US !in t && Strip(t) != "" }

  /** A review as the extension sends it. */
  predicate Sent(r: Row, times: Times) { Normal(r) && times(Str(r.thoiGian)) }

  /** Every review that can be sent with the fingerprint of this one has its key. */
  ghost predicate FixesKey(r: Row, times: Times) {
    forall s :: Sent(s, times) && Fingerprint(s) == Fingerprint(r) ==> KeyOf(s) == KeyOf(r)
  }

  /** Merging any review that can be sent with the fingerprint of this one into it keeps it. */
  ghost predicate KeepsFingerprint(e: Row, times: Times) {
    forall r :: Sent(r, times) && Fingerprint(r) == Fingerprint(e) ==> Fingerprint(MergeReview(e, r)) == Fingerprint(e)
  }

  // ---- Reading a fingerprint ----------------------------------------------------------------

  function Fields(r: Row): seq<string> {
    [Str(r.user), Str(r.thoiGian), Str(r.sao), Str(r.noiDung), Str(r.phanLoai), Str(r.anhUrls), Str(r.videoUrls)]
  }

  function Text(s: string): Value { Value(s != "", s) }

  /** The review with these seven fields. */
  function RowOf(fs: seq<string>): Row
    requires |fs| == 7
  {
    var no := Value(false, "");
    Row(no, no, no, Text(fs[0]), Text(fs[2]), Text(fs[3]), no, Text(fs[1]), no, Text(fs[4]), Text(fs[5]), Text(fs[6]), no, 0, 0)
  }

  function KeyOfFields(fs: seq<string>): Key
    requires |fs| == 7
  {
    Fp(Strip(fs[0]), Strip(fs[1]), Strip(fs[3]), Strip(fs[4]), Strip(fs[2]))
  }

  lemma FingerprintJoins(r: Row)
    requires Normal(r) && !r.id.truthy
    ensures Fingerprint(r) == Join(Fields(r)) && KeyOf(r) == KeyOfFields(Fields(r))
  {
    var fs := Fields(r);
    assert fs[1..][1..] == fs[2..] && fs[2..][1..] == fs[3..] && fs[3..][1..] == fs[4..]
        && fs[4..][1..] == fs[5..] && fs[5..][1..] == fs[6..];
    assert Join(fs[6..]) == fs[6];
    assert Join(fs[5..]) == fs[5] + [US] + fs[6];
    assert Join(fs[4..]) == fs[4] + [US] + Join(fs[5..]);
    assert Join(fs[3..]) == fs[3] + [US] + Join(fs[4..]);
    assert Join(fs[2..]) == fs[2] + [US] + Join(fs[3..]);
    assert Join(fs[1..]) == fs[1] + [US] + Join(fs[2..]);
    assert Strip("") == "";
  }

  lemma RowOfFields(fs: seq<string>)
    requires |fs| == 7
    ensures Normal(RowOf(fs)) && Fingerprint(RowOf(fs)) == Join(fs) && KeyOf(RowOf(fs)) == KeyOfFields(fs)
  {
    var r := RowOf(fs);
    assert Fields(r) == fs;
    FingerprintJoins(r);
  }

  /** A separator inside a keyed field, with more than white space behind it: read as the end of the
      field, it moves what is behind it to the next field, and the key is another. Behind the time
      that leaves the time as it was. */
  lemma MovedSeparator(fs: seq<string>, i: nat, x: string, y: string)
    requires |fs| == 7 && i <= 4 && fs[i] == x + [US] + y && Strip(y) != ""
    ensures var a, b := RowOf(fs), RowOf(fs[i := x][i + 1 := y + [US] + fs[i + 1]]);
      && Normal(a) && Normal(b) && Fingerprint(a) == Fingerprint(b) == Join(fs) && KeyOf(a) != KeyOf(b)
      && (i >= 2 ==> b.user == a.user && b.thoiGian == a.thoiGian)
  {
    hide *;
    var gs := fs[i := x][i + 1 := y + [US] + fs[i + 1]];
    RowOfFields(fs);
    RowOfFields(gs);
    StripLonger(x, y);
    OtherKey(fs, gs, i);
    JoinMoved(fs, i, x, y);
    if i >= 2 { SameTime(fs, gs); }
  }

  lemma SameTime(fs: seq<string>, gs: seq<string>)
    requires |fs| == |gs| == 7 && fs[0] == gs[0] && fs[1] == gs[1]
    ensures RowOf(fs).user == RowOf(gs).user && RowOf(fs).thoiGian == RowOf(gs).thoiGian
    ensures Str(RowOf(fs).thoiGian) == fs[1]
  {
  }

  lemma OtherKey(fs: seq<string>, gs: seq<string>, i: nat)
    requires |fs| == |gs| == 7 && i <= 4 && Strip(fs[i]) != Strip(gs[i])
    ensures KeyOfFields(fs) != KeyOfFields(gs)
  {
    hide Strip;
  }

  lemma JoinMoved(fs: seq<string>, i: nat, x: string, y: string)
    requires |fs| == 7 && i <= 4 && fs[i] == x + [US] + y
    ensures Join(fs[i := x][i + 1 := y + [US] + fs[i + 1]]) == Join(fs)
  {
    hide *;
    var gs := fs[i := x][i + 1 := y + [US] + fs[i + 1]];
    JoinPair(fs, i);
    JoinPair(gs, i);
    assert gs[..i] == fs[..i] && gs[i + 2..] == fs[i + 2..];
    assert fs[i] + [US] + fs[i + 1] == gs[i] + [US] + gs[i + 1];
  }

  // A joined string, by two neighbouring fields.
  lemma JoinPair(fs: seq<string>, i: nat)
    requires |fs| == 7 && i <= 4
    ensures Join(fs) == (if i == 0 then "" else Join(fs[..i]) + [US]) + (fs[i] + [US] + fs[i + 1]) + ([US] + Join(fs[i + 2..]))
  {
    var pair, rest := [fs[i], fs[i + 1]], fs[i + 2..];
    JoinConcat(pair, rest);
    assert pair[1..] == [fs[i + 1]];
    if i == 0 {
      assert fs == pair + rest;
    } else {
      JoinConcat(fs[..i], pair + rest);
      assert fs == fs[..i] + (pair + rest);
    }
  }

  // ---- Reading the time ---------------------------------------------------------------------

  // The fingerprint can be read with a user of this length: a time comes next, and fields enough.
  predicate ReadsAt(f: string, i: nat, times: Times) {
    i < |f| && f[i] == US
    && var t := Head(f[i + 1..]);
    i + 1 + |t| < |f| && times(t) && Seps(f[i + 2 + |t|..]) >= 4
  }

  // What follows the time.
  function Behind(r: Row): string { Join(Fields(r)[2..]) }

  lemma ReadIs(u: string, t: string, g: string, times: Times)
    requires US !in t && times(t) && Seps(g) >= 4
    ensures var f := u + [US] + (t + [US] + g);
      && |u| + 2 + |t| <= |f| && f[..|u|] == u && Head(f[|u| + 1..]) == t && f[|u| + 2 + |t|..] == g
      && ReadsAt(f, |u|, times)
  {
    hide *;
    HeadOf(t, g);
    HeadIs(t);
    Joined(u, t + [US] + g);
    Joined(t, g);
    var f := u + [US] + (t + [US] + g);
    DropDrop(f, |u| + 1, |t| + 1);
    ReadsIf(f, |u|, t, g, times);
  }

  lemma ReadsIf(f: string, i: nat, t: string, g: string, times: Times)
    requires i + 1 + |t| < |f| && f[i] == US && Head(f[i + 1..]) == t && f[i + 2 + |t|..] == g
    requires times(t) && Seps(g) >= 4
    ensures ReadsAt(f, i, times)
  {
    hide Head;
    hide Seps;
  }

  lemma Joined(u: string, x: string)
    ensures var f := u + [US] + x; |f| == |u| + 1 + |x| && f[..|u|] == u && f[|u|] == US && f[|u| + 1..] == x
  {
  }

  lemma ReadSplits(f: string, i: nat, times: Times) returns (t: string, g: string)
    requires ReadsAt(f, i, times)
    ensures t == Head(f[i + 1..]) && i + 1 + |t| < |f| && g == f[i + 2 + |t|..] && US !in t
    ensures f == f[..i] + [US] + (t + ([US] + g)) && times(t) && Seps(g) >= 4 && f[i + 1 + |t|] == US
  {
    var x := f[i + 1..];
    t, g := Head(x), f[i + 2 + |Head(x)|..];
    hide *;
    HeadSplits(x);
    FirstSplit(f, i);
    DropDrop(f, i + 1, |t| + 1);
  }

  lemma HeadSplits(x: string)
    requires |Head(x)| < |x|
    ensures US !in Head(x) && x[|Head(x)|] == US && x == Head(x) + ([US] + x[|Head(x)| + 1..])
  {
    HeadIs(x);
    HeadEnds(x);
    FirstSplit(x, |Head(x)|);
  }

  lemma DropDrop(f: string, a: nat, b: nat)
    requires a + b <= |f|
    ensures f[a..][b..] == f[a + b..]
  {
  }

  lemma FirstSplit(x: string, n: nat)
    requires n < |x| && x[n] == US
    ensures x == x[..n] + [US] + x[n + 1..] == x[..n] + ([US] + x[n + 1..])
  {
  }

  lemma {:induction false} HeadEnds(x: string)
    ensures |Head(x)| <= |x| && (|Head(x)| < |x| ==> x[|Head(x)|] == US)
  {
    if x != "" && x[0] != US { HeadEnds(x[1..]); }
  }

  lemma SentReads(r: Row, times: Times)
    requires Proper(times) && Sent(r, times) && !r.id.truthy
    ensures Fingerprint(r) == Str(r.user) + [US] + (Str(r.thoiGian) + [US] + Behind(r))
    ensures ReadsAt(Fingerprint(r), |Str(r.user)|, times) && Seps(Behind(r)) >= 4 && US !in Str(r.thoiGian)
  {
    FingerprintJoins(r);
    var fs := Fields(r);
    assert fs[1..][1..] == fs[2..];
    SepsAtLeast(fs[2..]);
    assert Fingerprint(r) == Str(r.user) + [US] + (Str(r.thoiGian) + [US] + Behind(r)) by {
      assert Join(fs[1..]) == fs[1] + [US] + Join(fs[2..]);
    }
    hide Fingerprint;
    hide Fields;
    hide Behind;
    ReadIs(Str(r.user), Str(r.thoiGian), Behind(r), times);
  }

  // The review read at this place.
  lemma ReadRow(f: string, i: nat, times: Times) returns (s: Row, fs: seq<string>)
    requires ReadsAt(f, i, times)
    ensures |fs| == 7 && s == RowOf(fs) && Sent(s, times) && !s.id.truthy && Fingerprint(s) == f
    ensures Str(s.user) == f[..i] && Join(fs[2..]) == f[i + 2 + |Head(f[i + 1..])|..]
    ensures forall k :: 2 <= k < 6 ==> US !in fs[k]
  {
    hide *;
    var t, g := ReadSplits(f, i, times);
    var gs := Cut(g, 4);
    fs := WithTime(f[..i], t, gs);
    WithTimeAll(f[..i], t, gs);
    s := RowOf(fs);
    JoinWithTime(f[..i], t, gs);
    RowOfFields(fs);
    RowOfTexts(fs);
    SentWith(s, times, fs);
  }

  lemma RowOfTexts(fs: seq<string>)
    requires |fs| == 7
    ensures Str(RowOf(fs).user) == fs[0] && Str(RowOf(fs).thoiGian) == fs[1] && !RowOf(fs).id.truthy
  {
  }

  function WithTime(u: string, t: string, gs: seq<string>): seq<string> { [u, t] + gs }

  lemma WithTimeAll(u: string, t: string, gs: seq<string>)
    ensures var fs := WithTime(u, t, gs);
      |fs| == |gs| + 2 && fs[0] == u && fs[1] == t && fs[2..] == gs && forall k :: 2 <= k < |fs| ==> fs[k] == gs[k - 2]
  {
  }

  // Two places to read a time give two users.
  lemma OtherUser(f: string, i: nat, j: nat, times: Times)
    requires Proper(times) && i < j && ReadsAt(f, i, times) && ReadsAt(f, j, times)
    ensures Strip(f[..j]) != Strip(f[..i])
  {
    hide Strip;
    var t, g := ReadSplits(f, i, times);
    assert Strip(t) != "";
    HeadOnTheWay(f, i, j);
    var y := f[i + 1..j];
    assert t <= y;
    if Blank(y) {
      assert forall k :: 0 <= k < |t| ==> t[k] == y[k];
      StripBlank(t);
      assert false;
    }
    StripBlank(y);
    StripLonger(f[..i], y);
    assert f[..j] == f[..i] + [US] + y;
  }

  // The next separator is not beyond any other.
  lemma HeadOnTheWay(f: string, i: nat, j: nat)
    requires i < j < |f| && f[j] == US
    ensures i + 1 + |Head(f[i + 1..])| <= j && Head(f[i + 1..]) <= f[i + 1..j]
  {
    var x, h := f[i + 1..], Head(f[i + 1..]);
    HeadIs(x);
    assert x[j - i - 1] == US;
    assert forall k :: 0 <= k < |h| ==> h[k] in h && x[k] != US;
  }

  // ---- Exactly which fingerprints fix the key -----------------------------------------------

  // An identified review could have this fingerprint.
  predicate LikeId(f: string) { |f| >= 3 && f[..3] == "id:" && Strip(f[3..]) != "" }

  // The time can be read only where it is.
  predicate OneTime(r: Row, times: Times) {
    forall i :: 0 <= i < |Fingerprint(r)| && ReadsAt(Fingerprint(r), i, times) ==> i == |Str(r.user)|
  }

  /** What can be seen from a review. With an id: its fingerprint does not read like one without.
      Without: it does not read like one with an id, the time can be read only where it is, and
      behind the time no field contains a separator, or only white space is in the fields that would
      be moved. */
  predicate Unambiguous(r: Row, times: Times) {
    var f := Fingerprint(r);
    if r.id.truthy then forall i :: 0 <= i < |f| ==> !ReadsAt(f, i, times)
    else !LikeId(f) && OneTime(r, times) && (Seps(Behind(r)) == 4 || OnlyFirst(Behind(r)))
  }

  lemma SameBehind(r: Row, s: Row, times: Times)
    requires Proper(times) && Sent(r, times) && Sent(s, times) && !r.id.truthy && !s.id.truthy
    requires Fingerprint(s) == Fingerprint(r) && |Str(s.user)| == |Str(r.user)|
    ensures Str(s.user) == Str(r.user) && Str(s.thoiGian) == Str(r.thoiGian) && Behind(s) == Behind(r)
  {
    SentReads(r, times);
    SentReads(s, times);
    hide *;
    var f := Fingerprint(r);
    ReadIs(Str(r.user), Str(r.thoiGian), Behind(r), times);
    ReadIs(Str(s.user), Str(s.thoiGian), Behind(s), times);
  }

  // The last five fields, joined, say the three keys among them.
  lemma KeysBehind(rs: seq<string>, ss: seq<string>)
    requires |rs| == |ss| == 5 && Join(rs) == Join(ss) && (Seps(Join(rs)) == 4 || OnlyFirst(Join(rs)))
    ensures Strip(rs[0]) == Strip(ss[0]) && Strip(rs[1]) == Strip(ss[1]) && Strip(rs[2]) == Strip(ss[2])
  {
    hide *;
    if Seps(Join(rs)) == 4 {
      CutOneWay(rs, ss);
    } else {
      OnlyFirstHead(rs);
      OnlyFirstHead(ss);
      OnlyFirstInside(rs, 1);
      OnlyFirstInside(ss, 1);
      OnlyFirstInside(rs, 2);
      OnlyFirstInside(ss, 2);
      StripBlank(rs[1]);
      StripBlank(ss[1]);
      StripBlank(rs[2]);
      StripBlank(ss[2]);
    }
  }

  lemma KeyBehind(r: Row, s: Row)
    requires Normal(r) && Normal(s) && !r.id.truthy && !s.id.truthy
    requires Str(s.user) == Str(r.user) && Str(s.thoiGian) == Str(r.thoiGian) && Behind(s) == Behind(r)
    requires Seps(Behind(r)) == 4 || OnlyFirst(Behind(r))
    ensures KeyOf(s) == KeyOf(r)
  {
    FingerprintJoins(r);
    FingerprintJoins(s);
    hide Fingerprint;
    hide KeyOf;
    hide Strip;
    hide Join;
    hide OnlyFirst;
    hide Seps;
    KeysBehind(Fields(r)[2..], Fields(s)[2..]);
  }

  /** A review that is unambiguous on sight shares its fingerprint only with reviews of its key. */
  lemma FixedBySight(r: Row, s: Row, times: Times)
    requires Proper(times) && Sent(r, times) && Unambiguous(r, times)
    requires Sent(s, times) && Fingerprint(s) == Fingerprint(r)
    ensures KeyOf(s) == KeyOf(r)
  {
    hide Strip;
    hide ReadsAt;
    hide OnlyFirst;
    hide Seps;
    hide Behind;
    var f := Fingerprint(r);
    if r.id.truthy && s.id.truthy {
      assert r.id.text == f[3..] && s.id.text == f[3..];
    } else if r.id.truthy {
      SentReads(s, times);
      assert false;
    } else if s.id.truthy {
      assert false;
    } else {
      hide Fingerprint;
      hide KeyOf;
      SentReads(s, times);
      SentReads(r, times);
      assert |Str(s.user)| == |Str(r.user)|;
      SameBehind(r, s, times);
      KeyBehind(r, s);
    }
  }

  // Otherwise there are two readings with different keys.
  lemma TwoReadings(r: Row, times: Times) returns (a: Row, b: Row)
    requires Proper(times) && Sent(r, times) && !r.id.truthy && Seps(Behind(r)) > 4 && !OnlyFirst(Behind(r))
    ensures Sent(a, times) && Sent(b, times) && Fingerprint(a) == Fingerprint(b) == Fingerprint(r) && KeyOf(a) != KeyOf(b)
  {
    SentReads(r, times);
    assert times(Str(r.thoiGian));
    hide *;
    var u, t := Str(r.user), Str(r.thoiGian);
    var front, y, back := TextBetween(Behind(r));
    var i := if Seps(front) < 2 then Seps(front) else 2;
    var ls := Cut(front, i);
    var rs := Cut(back, 3 - i);
    var x := ls[i];
    AroundIs(ls, y, rs);
    JoinAround(ls, y, rs);
    var fs := WithTime(u, t, Around(ls, y, rs));
    JoinWithTime(u, t, Around(ls, y, rs));
    WithTimeIs(u, t, Around(ls, y, rs), i);
    MovedSeparator(fs, i + 2, x, y);
    var gs := fs[i + 2 := x][i + 3 := y + [US] + fs[i + 3]];
    a, b := RowOf(fs), RowOf(gs);
    SentWith(a, times, fs);
    SentLike(a, b, times);
  }

  lemma WithTimeIs(u: string, t: string, gs: seq<string>, i: nat)
    requires i < |gs|
    ensures |WithTime(u, t, gs)| == |gs| + 2 && WithTime(u, t, gs)[i + 2] == gs[i] && WithTime(u, t, gs)[1] == t
  {
  }

  lemma JoinWithTime(u: string, t: string, gs: seq<string>)
    requires gs != []
    ensures WithTime(u, t, gs) != [] && Join(WithTime(u, t, gs)) == u + [US] + (t + [US] + Join(gs))
  {
    JoinConcat([u, t], gs);
    assert [u, t][1..] == [t];
  }

  lemma SentWith(a: Row, times: Times, fs: seq<string>)
    requires |fs| == 7 && a == RowOf(fs) && times(fs[1])
    ensures Sent(a, times)
  {
  }

  lemma SentLike(a: Row, b: Row, times: Times)
    requires Sent(a, times) && Normal(b) && b.thoiGian == a.thoiGian
    ensures Sent(b, times)
  {
  }

  lemma NotFixed(r: Row, a: Row, b: Row, times: Times)
    requires Sent(a, times) && Sent(b, times) && Fingerprint(a) == Fingerprint(b) == Fingerprint(r) && KeyOf(a) != KeyOf(b)
    ensures !FixesKey(r, times)
  {
  }

  // A fingerprint with an id that can be read as seven fields.
  lemma NotFixedId(r: Row, times: Times, i: nat)
    requires Sent(r, times) && r.id.truthy && ReadsAt(Fingerprint(r), i, times)
    ensures !FixesKey(r, times)
  {
    var s, fs := ReadRow(Fingerprint(r), i, times);
    RowOfFields(fs);
    assert KeyOf(s).Fp? && KeyOf(r).Id?;
    hide KeyOf;
  }

  // And one without that reads like one with an id.
  lemma NotFixedLikeId(r: Row, times: Times)
    requires Sent(r, times) && !r.id.truthy && LikeId(Fingerprint(r))
    ensures !FixesKey(r, times)
  {
    var f := Fingerprint(r);
    var s := Identified(f, r.thoiGian, Value(false, ""));
    IdentifiedIs(f, r.thoiGian, Value(false, ""));
    FingerprintJoins(r);
    assert KeyOf(s).Id? && KeyOf(r).Fp?;
    hide KeyOf;
  }

  // A review with an id that has this fingerprint.
  function Identified(f: string, thoiGian: Value, noiDung: Value): Row
    requires LikeId(f)
  {
    var id := Value(true, f[3..]);
    RowOf(["", "", "", "", "", "", ""]).(id := id, cmid := id, thoiGian := thoiGian, noiDung := noiDung)
  }

  lemma IdentifiedIs(f: string, thoiGian: Value, noiDung: Value)
    requires LikeId(f)
    ensures var s := Identified(f, thoiGian, noiDung);
      && Normal(s) && Fingerprint(s) == f && KeyOf(s).Id? && s.thoiGian == thoiGian && s.noiDung == noiDung && s.id.truthy
  {
    assert f == "id:" + f[3..];
  }

  // A second place to read a time.
  lemma NotFixedTime(r: Row, times: Times, i: nat)
    requires Proper(times) && Sent(r, times) && !r.id.truthy && ReadsAt(Fingerprint(r), i, times) && i != |Str(r.user)|
    ensures !FixesKey(r, times)
  {
    var f, n := Fingerprint(r), |Str(r.user)|;
    SentReads(r, times);
    var s, fs := ReadRow(f, i, times);
    var q, qs := ReadRow(f, n, times);
    if i < n { OtherUser(f, i, n, times); } else { OtherUser(f, n, i, times); }
    assert KeyOf(s) != KeyOf(q) by {
      FingerprintJoins(s);
      FingerprintJoins(q);
      hide Fingerprint;
    }
    hide *;
    NotFixed(r, s, q, times);
  }

  /** The fingerprint of a review says which key it has, whatever other review that can be sent
      shares it, exactly when the review is unambiguous on sight. */
  lemma FixesKeyExactlyWhen(r: Row, times: Times)
    requires Proper(times) && Sent(r, times)
    ensures Unambiguous(r, times) <==> FixesKey(r, times)
  {
    var f := Fingerprint(r);
    hide ReadsAt;
    hide OnlyFirst;
    if Unambiguous(r, times) {
      forall s | Sent(s, times) && Fingerprint(s) == f ensures KeyOf(s) == KeyOf(r) {
        FixedBySight(r, s, times);
      }
    } else if r.id.truthy {
      var i :| 0 <= i < |f| && ReadsAt(f, i, times);
      NotFixedId(r, times, i);
    } else if LikeId(f) {
      NotFixedLikeId(r, times);
    } else if !OneTime(r, times) {
      var i :| 0 <= i < |f| && ReadsAt(f, i, times) && i != |Str(r.user)|;
      NotFixedTime(r, times, i);
    } else {
      SentReads(r, times);
      hide *;
      var a, b := TwoReadings(r, times);
      NotFixed(r, a, b, times);
    }
  }

  // ---- The extension's merge ----------------------------------------------------------------

  /** With an id, or with a fingerprint that can be read in one way only. */
  predicate OneReading(e: Row, times: Times) {
    e.id.truthy || (!LikeId(Fingerprint(e)) && OneTime(e, times) && Seps(Behind(e)) == 4)
  }

  lemma Merged(e: Row, r: Row)
    ensures var m := MergeReview(e, r);
      && m.id == e.id && m.user == e.user && m.thoiGian == e.thoiGian && m.sao == e.sao
      && |Str(m.noiDung)| >= |Str(e.noiDung)| && |Str(m.noiDung)| >= |Str(r.noiDung)|
      && |Str(m.phanLoai)| >= |Str(e.phanLoai)|
      && (if r.soAnh > e.soAnh then m.anhUrls == r.anhUrls else |Str(m.anhUrls)| >= |Str(e.anhUrls)|)
      && (if r.soVideo > e.soVideo then m.videoUrls == r.videoUrls else |Str(m.videoUrls)| >= |Str(e.videoUrls)|)
  {
  }

  lemma MergedSame(e: Row, r: Row)
    requires !e.id.truthy && Fields(r) == Fields(e)
    ensures Fingerprint(MergeReview(e, r)) == Fingerprint(e)
  {
    var m, fs, gs := MergeReview(e, r), Fields(e), Fields(r);
    assert Str(r.noiDung) == gs[3] == fs[3] == Str(e.noiDung) && Str(r.phanLoai) == gs[4] == fs[4] == Str(e.phanLoai);
    assert Str(r.anhUrls) == gs[5] == fs[5] == Str(e.anhUrls) && Str(r.videoUrls) == gs[6] == fs[6] == Str(e.videoUrls);
  }

  // Fields that have become longer make another fingerprint.
  lemma LongerIsOther(e: Row, m: Row)
    requires !e.id.truthy && m.id == e.id && m.user == e.user && m.thoiGian == e.thoiGian && m.sao == e.sao
    requires |Str(m.noiDung)| >= |Str(e.noiDung)| && |Str(m.phanLoai)| >= |Str(e.phanLoai)|
    requires |Str(m.anhUrls)| >= |Str(e.anhUrls)| && |Str(m.videoUrls)| >= |Str(e.videoUrls)|
    requires |Str(m.noiDung)| + |Str(m.anhUrls)| + |Str(m.videoUrls)| > |Str(e.noiDung)| + |Str(e.anhUrls)| + |Str(e.videoUrls)|
    ensures Fingerprint(m) != Fingerprint(e)
  {
    assert |Fingerprint(m)| > |Fingerprint(e)|;
  }

  lemma Broken(e: Row, r: Row, times: Times)
    requires Sent(r, times) && Fingerprint(r) == Fingerprint(e) && Fingerprint(MergeReview(e, r)) != Fingerprint(e)
    ensures !KeepsFingerprint(e, times)
  {
  }

  lemma BrokenById(e: Row, times: Times)
    requires Sent(e, times) && !e.id.truthy && LikeId(Fingerprint(e))
    ensures !KeepsFingerprint(e, times)
  {
    var r := Identified(Fingerprint(e), e.thoiGian, Text(Str(e.noiDung) + "x"));
    IdentifiedIs(Fingerprint(e), e.thoiGian, Text(Str(e.noiDung) + "x"));
    Merged(e, r);
    assert r.soAnh == 0 && r.soVideo == 0;
    hide MergeReview;
    hide Fingerprint;
    LongerIsOther(e, MergeReview(e, r));
    Broken(e, r, times);
  }

  // The reading with the longest last field, if that is longer than this one's.
  lemma BrokenByLast(e: Row, times: Times, i: nat, hs: seq<string>)
    requires !e.id.truthy && ReadsAt(Fingerprint(e), i, times)
    requires |hs| >= 6 && hs[|hs| - 1] == Str(e.videoUrls)
    requires var f := Fingerprint(e); Join(hs) == f[i + 2 + |Head(f[i + 1..])|..]
    ensures !KeepsFingerprint(e, times)
  {
    hide *;
    var s, fs := ReadRow(Fingerprint(e), i, times);
    BehindTime(fs);
    LastLongest(fs[2..], hs);
    var r := s.(soVideo := e.soVideo + 1);
    Resized(s, fs, r, times);
    Merged(e, r);
    LongerIsOther(e, MergeReview(e, r));
    Broken(e, r, times);
  }

  lemma BehindTime(fs: seq<string>)
    requires |fs| == 7 && forall k :: 2 <= k < 6 ==> US !in fs[k]
    ensures |fs[2..]| == 5 && fs[2..][4] == fs[6] && forall k :: 0 <= k < 4 ==> US !in fs[2..][k]
  {
  }

  // The counts of pictures and videos are not in the fingerprint.
  lemma Resized(s: Row, fs: seq<string>, r: Row, times: Times)
    requires |fs| == 7 && s == RowOf(fs) && Sent(s, times) && r == s.(soAnh := r.soAnh, soVideo := r.soVideo)
    ensures Sent(r, times) && Fingerprint(r) == Fingerprint(s)
    ensures Str(r.anhUrls) == fs[5] && Str(r.videoUrls) == fs[6] && s.soAnh == 0 && s.soVideo == 0
  {
  }

  // A time read before the one that is there.
  lemma BrokenByTime(e: Row, times: Times, i: nat)
    requires Proper(times) && Sent(e, times) && !e.id.truthy && ReadsAt(Fingerprint(e), i, times) && i < |Str(e.user)|
    ensures !KeepsFingerprint(e, times)
  {
    SentReads(e, times);
    FieldsBehind(e);
    hide *;
    var z := TimeBefore(Str(e.user), Str(e.thoiGian), Behind(e), i, times);
    JoinOne(z, Fields(e)[2..]);
    BrokenByLast(e, times, i, [z] + Fields(e)[2..]);
  }

  lemma TimeBefore(u: string, t: string, g: string, i: nat, times: Times) returns (z: string)
    requires ReadsAt(u + [US] + (t + [US] + g), i, times) && i < |u|
    ensures var f := u + [US] + (t + [US] + g);
      i + 2 + |Head(f[i + 1..])| <= |f| && f[i + 2 + |Head(f[i + 1..])|..] == z + [US] + g
  {
    hide *;
    var f := u + [US] + (t + [US] + g);
    Joined(u, t + [US] + g);
    HeadOnTheWay(f, i, |u|);
    var h, _ := ReadSplits(f, i, times);
    z := Remainder(u, i + 1 + |h|, t, g);
  }

  lemma JoinOne(z: string, gs: seq<string>)
    requires gs != []
    ensures Join([z] + gs) == z + [US] + Join(gs)
  {
    assert ([z] + gs)[1..] == gs;
  }

  lemma FieldsBehind(e: Row)
    ensures |Fields(e)[2..]| == 5 && Fields(e)[2..][4] == Str(e.videoUrls) && Behind(e) == Join(Fields(e)[2..])
    ensures Fields(e)[2..][3] == Str(e.anhUrls)
  {
  }

  // What follows a separator of the user, up to the fields behind the time.
  lemma Remainder(u: string, j: nat, t: string, g: string) returns (z: string)
    requires j <= |u| && (u + [US] + (t + [US] + g))[j] == US
    ensures (u + [US] + (t + [US] + g))[j + 1..] == z + [US] + g
  {
    var x := t + [US] + g;
    if j == |u| {
      z := t;
      Joined(u, x);
    } else {
      z := u[j + 1..] + [US] + t;
      assert (u + [US] + x)[j + 1..] == u[j + 1..] + [US] + x;
      assert u[j + 1..] + [US] + x == z + [US] + g;
    }
  }

  // A separator in the last field.
  lemma BrokenByVideos(e: Row, times: Times)
    requires Proper(times) && Sent(e, times) && !e.id.truthy && US in Str(e.videoUrls)
    ensures !KeepsFingerprint(e, times)
  {
    NoSeps(Str(e.videoUrls));
    FingerprintJoins(e);
    var fs := Fields(e);
    assert fs[5] == Str(e.anhUrls) && fs[6] == Str(e.videoUrls) && fs[1] == Str(e.thoiGian) && |fs| == 7;
    assert times(fs[1]);
    hide *;
    var x, y := FirstSep(fs[6]);
    var gs := fs[5 := fs[5] + [US] + x][6 := y];
    LastMoved(fs, x, y);
    RowOfFields(gs);
    SentWith(RowOf(gs), times, gs);
    var s := RowOf(gs);
    var r := s.(soAnh := e.soAnh + 1);
    Resized(s, gs, r, times);
    Merged(e, r);
    LongerIsOther(e, MergeReview(e, r));
    Broken(e, r, times);
  }

  lemma LastMoved(fs: seq<string>, x: string, y: string)
    requires |fs| == 7 && fs[6] == x + [US] + y
    ensures var gs := fs[5 := fs[5] + [US] + x][6 := y]; Join(gs) == Join(fs) && gs[1] == fs[1]
  {
    var gs := fs[5 := fs[5] + [US] + x][6 := y];
    JoinConcat(fs[..5], fs[5..]);
    JoinConcat(gs[..5], gs[5..]);
    assert fs == fs[..5] + fs[5..] && gs == gs[..5] + gs[5..] && gs[..5] == fs[..5];
    assert fs[5..] == [fs[5], fs[6]] && gs[5..] == [gs[5], gs[6]];
    assert Join(fs[5..]) == fs[5] + [US] + (x + [US] + y) == (fs[5] + [US] + x) + [US] + y == Join(gs[5..]) by {
      assert fs[5..][1..] == [fs[6]] && gs[5..][1..] == [gs[6]];
    }
  }

  // A separator in another field behind the time.
  lemma BrokenByOthers(e: Row, times: Times)
    requires Proper(times) && Sent(e, times) && !e.id.truthy && Seps(Behind(e)) > 4 && US !in Str(e.videoUrls)
    ensures !KeepsFingerprint(e, times)
  {
    SentReads(e, times);
    FieldsBehind(e);
    hide *;
    var gs := Fields(e)[2..];
    ReadIs(Str(e.user), Str(e.thoiGian), Behind(e), times);
    NoSeps(gs[4]);
    LastApart(gs);
    SepsConcat(Join(gs[..4]) + [US], gs[4]);
    SepsConcat(Join(gs[..4]), [US]);
    OneSep();
    var front := Cut(Join(gs[..4]), 4);
    LastBack(front, gs[4]);
    BrokenByLast(e, times, |Str(e.user)|, front + [gs[4]]);
  }

  lemma LastApart(gs: seq<string>)
    requires |gs| == 5
    ensures Join(gs) == Join(gs[..4]) + [US] + gs[4]
  {
    JoinConcat(gs[..4], [gs[4]]);
    assert gs == gs[..4] + [gs[4]];
  }

  lemma LastBack(front: seq<string>, last: string)
    requires front != []
    ensures Join(front + [last]) == Join(front) + [US] + last
  {
    JoinConcat(front, [last]);
  }

  // With only four separators behind the time, none beyond it can be read as one.
  lemma NoLaterTime(e: Row, times: Times, i: nat)
    requires Proper(times) && Sent(e, times) && !e.id.truthy && ReadsAt(Fingerprint(e), i, times) && i > |Str(e.user)|
    ensures Seps(Behind(e)) > 4
  {
    SentReads(e, times);
    hide *;
    LaterTime(Str(e.user), Str(e.thoiGian), Behind(e), i, times);
  }

  lemma LaterTime(u: string, t: string, g: string, i: nat, times: Times)
    requires ReadsAt(u + [US] + (t + [US] + g), i, times) && i > |u| && US !in t
    ensures Seps(g) > 4
  {
    hide *;
    var f := u + [US] + (t + [US] + g);
    var h, rest := ReadSplits(f, i, times);
    HeadOf(t, g);
    HeadIs(t);
    Joined(u, t + [US] + g);
    Joined(t, g);
    HeadOnTheWay(f, |u|, i);
    SepsBehind(f, |u| + 2 + |t|, i + 1 + |h|, g, rest);
  }

  lemma SepsBehind(f: string, q: nat, j: nat, g: string, rest: string)
    requires q <= j < |f| && f[j] == US && f[q..] == g && f[j + 1..] == rest
    ensures Seps(g) > Seps(rest)
  {
    hide *;
    assert g[j - q] == US;
    FirstSplit(g, j - q);
    DropDrop(f, q, j - q + 1);
    SepsConcat(g[..j - q], [US] + rest);
    SepsConcat([US], rest);
    OneSep();
  }

  lemma FirstReadingKept(e: Row, times: Times)
    requires Proper(times) && Sent(e, times) && OneReading(e, times)
    ensures KeepsFingerprint(e, times)
  {
    hide ReadsAt;
    hide Seps;
    hide Behind;
    hide Strip;
    hide Join;
    forall r | Sent(r, times) && Fingerprint(r) == Fingerprint(e)
      ensures Fingerprint(MergeReview(e, r)) == Fingerprint(e)
    {
      if e.id.truthy {
        Merged(e, r);
        hide MergeReview;
      } else if r.id.truthy {
        assert false;
      } else {
        hide MergeReview;
        hide Fingerprint;
        SentReads(r, times);
        SentReads(e, times);
        assert |Str(r.user)| == |Str(e.user)|;
        SameBehind(e, r, times);
        SameFieldsBehind(e, r);
        MergedSame(e, r);
      }
    }
  }

  lemma SameFieldsBehind(e: Row, r: Row)
    requires Str(r.user) == Str(e.user) && Str(r.thoiGian) == Str(e.thoiGian) && Behind(r) == Behind(e)
    requires Seps(Behind(e)) == 4
    ensures Fields(r) == Fields(e)
  {
    hide Join;
    hide Seps;
    var es, rs := Fields(e)[2..], Fields(r)[2..];
    CutOneWay(es, rs);
    assert Fields(e) == Fields(e)[..2] + es && Fields(r) == Fields(r)[..2] + rs;
  }

  /** When the extension's merge keeps the fingerprint of the review it merges into, whatever review
      of that fingerprint comes: exactly if it has an id, or its fingerprint can be read in no other
      way. Its key is kept in any case. */
  lemma MergeKeepsFingerprintExactlyWhen(e: Row, times: Times)
    requires Proper(times) && Sent(e, times)
    ensures OneReading(e, times) <==> KeepsFingerprint(e, times)
  {
    var f := Fingerprint(e);
    hide ReadsAt;
    if OneReading(e, times) {
      FirstReadingKept(e, times);
    } else if LikeId(f) {
      BrokenById(e, times);
    } else if Seps(Behind(e)) != 4 {
      SentReads(e, times);
      if US in Str(e.videoUrls) { BrokenByVideos(e, times); } else { BrokenByOthers(e, times); }
    } else {
      var i :| 0 <= i < |f| && ReadsAt(f, i, times) && i != |Str(e.user)|;
      hide *;
      if i < |Str(e.user)| { BrokenByTime(e, times, i); } else { NoLaterTime(e, times, i); }
    }
  }
}
