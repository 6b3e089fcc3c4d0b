/** Strings joined by a separator that they may contain themselves, and the white space around
    them. */
module Separators {
  import opened Reviews

  // ---- Separators ---------------------------------------------------------------------------

  function Seps(s: string): nat {
    if s == "" then 0 else (if s[0] == US then 1 else 0) + Seps(s[1..])
  }

  lemma OneSep()
    ensures Seps([US]) == 1 && IsSpace(US) && Blank([US])
  {
  }

  lemma {:induction false} SepsConcat(a: string, b: string)
    ensures Seps(a + b) == Seps(a) + Seps(b)
  {
    if a == "" {
      assert a + b == b;
    } else {
      SepsConcat(a[1..], b);
      assert (a + b)[1..] == a[1..] + b;
    }
  }

  lemma {:induction false} NoSeps(s: string)
    ensures Seps(s) == 0 <==> US !in s
  {
    if s != "" {
      NoSeps(s[1..]);
      assert s == [s[0]] + s[1..];
    }
  }

  lemma {:induction false} FirstSep(s: string) returns (m: string, rest: string)
    requires Seps(s) > 0
    ensures s == m + [US] + rest && US !in m
  {
    if s[0] == US {
      m, rest := "", s[1..];
    } else {
      m, rest := FirstSep(s[1..]);
      m := [s[0]] + m;
    }
  }

  lemma {:induction false} LastSep(s: string) returns (front: string, m: string)
    requires Seps(s) > 0
    ensures s == front + [US] + m && US !in m
  {
    NoSeps(s[1..]);
    if Seps(s[1..]) == 0 {
      front, m := "", s[1..];
    } else {
      front, m := LastSep(s[1..]);
      front := [s[0]] + front;
    }
  }

  /** Strings joined by the separator. */
  function Join(fs: seq<string>): string
    requires fs != []
  {
    if |fs| == 1 then fs[0] else fs[0] + [US] + Join(fs[1..])
  }

  lemma {:induction false} JoinConcat(a: seq<string>, b: seq<string>)
    requires a != [] && b != []
    ensures Join(a + b) == Join(a) + [US] + Join(b)
  {
    assert (a + b)[1..] == a[1..] + b;
    if |a| > 1 {
      JoinConcat(a[1..], b);
      assert Join(a + b) == a[0] + [US] + (Join(a[1..]) + [US] + Join(b)) == (a[0] + [US] + Join(a[1..])) + [US] + Join(b);
    }
  }

  lemma {:induction false} SepsAtLeast(fs: seq<string>)
    requires fs != []
    ensures Seps(Join(fs)) >= |fs| - 1
  {
    if |fs| > 1 {
      SepsAtLeast(fs[1..]);
      SepsConcat(fs[0] + [US], Join(fs[1..]));
      SepsConcat(fs[0], [US]);
    }
  }

  // A string with separators enough can be read as so many fields, each but the last as short as can be.
  lemma {:induction false} Cut(s: string, n: nat) returns (fs: seq<string>)
    requires Seps(s) >= n
    ensures |fs| == n + 1 && Join(fs) == s && forall k :: 0 <= k < n ==> US !in fs[k]
    decreases n
  {
    if n == 0 {
      fs := [s];
    } else {
      var m, rest := FirstSep(s);
      SepsConcat(m + [US], rest);
      SepsConcat(m, [US]);
      NoSeps(m);
      fs := Cut(rest, n - 1);
      fs := [m] + fs;
    }
  }

  // If there are no separators to spare, in only one way.
  lemma {:induction false} CutOneWay(fs: seq<string>, gs: seq<string>)
    requires |fs| == |gs| > 0 && Join(fs) == Join(gs) && Seps(Join(fs)) == |fs| - 1
    ensures fs == gs
  {
    if |fs| > 1 {
      var f, g := Join(fs[1..]), Join(gs[1..]);
      SepsAtLeast(fs[1..]);
      SepsAtLeast(gs[1..]);
      SepsConcat(fs[0] + [US], f);
      SepsConcat(gs[0] + [US], g);
      SepsConcat(fs[0], [US]);
      SepsConcat(gs[0], [US]);
      NoSeps(fs[0]);
      NoSeps(gs[0]);
      SplitOnce(fs[0], f, gs[0], g);
      CutOneWay(fs[1..], gs[1..]);
      assert fs == [fs[0]] + fs[1..] && gs == [gs[0]] + gs[1..];
    }
  }

  // ---- Stripping ----------------------------------------------------------------------------

  predicate Blank(s: string) { forall i :: 0 <= i < |s| ==> IsSpace(s[i]) }

  predicate Bare(s: string) { s != "" ==> !IsSpace(s[0]) && !IsSpace(s[|s| - 1]) }

  lemma {:induction false} StripIs(a: string, m: string, b: string)
    requires Blank(a) && Bare(m) && Blank(b)
    ensures Strip(a + m + b) == m
    decreases |a| + |b|
  {
    var s := a + m + b;
    if a != "" {
      StripIs(a[1..], m, b);
      assert s[0] == a[0] && s[1..] == a[1..] + m + b;
    } else if b != "" {
      if m == "" {
        StripIs("", "", b[1..]);
        assert s == b && b[1..] == "" + "" + b[1..];
      } else {
        StripIs("", m, b[..|b| - 1]);
        assert s[0] == m[0] && s[|s| - 1] == b[|b| - 1] && s[..|s| - 1] == "" + m + b[..|b| - 1];
      }
    } else {
      assert s == m;
    }
  }

  lemma StripStep(s: string)
    ensures Strip(s) == if s == "" then s
                        else if IsSpace(s[0]) then Strip(s[1..])
                        else if IsSpace(s[|s| - 1]) then Strip(s[..|s| - 1]) else s
  {
    hide IsSpace;
  }

  lemma BareIs(s: string)
    ensures Blank("") && (s == "" || (!IsSpace(s[0]) && !IsSpace(s[|s| - 1])) ==> Bare(s))
  {
    hide IsSpace;
  }

  lemma BlankChar(c: char)
    requires IsSpace(c)
    ensures Blank([c])
  {
    hide IsSpace;
  }

  lemma {:induction false} StripParts(s: string) returns (a: string, b: string)
    ensures s == a + Strip(s) + b && Blank(a) && Bare(Strip(s)) && Blank(b)
    decreases |s|
  {
    hide *;
    StripStep(s);
    BareIs(s);
    a, b := "", "";
    if s != "" && IsSpace(s[0]) {
      a, b := StripParts(s[1..]);
      BlankChar(s[0]);
      assert s == [s[0]] + s[1..];
      BlankConcat([s[0]], a);
      Regrouped([s[0]], a, Strip(s), b);
      a := [s[0]] + a;
    } else if s != "" && IsSpace(s[|s| - 1]) {
      a, b := StripParts(s[..|s| - 1]);
      BlankChar(s[|s| - 1]);
      assert s == s[..|s| - 1] + [s[|s| - 1]];
      BlankConcat(b, [s[|s| - 1]]);
      assert a + Strip(s) + b + [s[|s| - 1]] == a + Strip(s) + (b + [s[|s| - 1]]);
      b := b + [s[|s| - 1]];
    }
  }

  lemma Regrouped(a: string, b: string, c: string, d: string)
    ensures a + (b + c + d) == (a + b) + c + d
  {
  }

  lemma StripBlank(s: string)
    ensures Blank(s) <==> Strip(s) == ""
  {
    hide Strip;
    if Blank(s) {
      StripIs(s, "", "");
      assert s + "" + "" == s;
    }
    var a, b := StripParts(s);
    if Strip(s) == "" { assert s == a + b; }
  }

  lemma StripTrailing(x: string, y: string)
    requires Blank(y)
    ensures Strip(x + y) == Strip(x)
  {
    hide Strip;
    hide IsSpace;
    var a, b := StripParts(x);
    StripIs(a, Strip(x), b + y);
    assert x + y == a + Strip(x) + (b + y);
  }

  lemma StripLonger(x: string, y: string)
    requires Strip(y) != ""
    ensures Strip(x + [US] + y) != Strip(x)
  {
    OneSep();
    hide *;
    var a, b := StripParts(x);
    var c, d := StripParts(y);
    if Strip(x) == "" {
      BlankConcat(a, b);
      BlankConcat(a + b, [US]);
      BlankConcat(a + b + [US], c);
      StripIs(a + b + [US] + c, Strip(y), d);
      assert x + [US] + y == (a + b + [US] + c) + Strip(y) + d;
    } else {
      var m := Strip(x) + (b + [US] + c) + Strip(y);
      BareAround(Strip(x), b + [US] + c, Strip(y));
      StripIs(a, m, d);
      assert x + [US] + y == a + m + d;
    }
  }

  lemma BlankConcat(a: string, b: string)
    requires Blank(a) && Blank(b)
    ensures Blank(a + b)
  {
  }

  lemma BareAround(a: string, m: string, b: string)
    requires Bare(a) && Bare(b) && a != "" && b != ""
    ensures Bare(a + m + b)
  {
  }

  // ---- White space between separators -------------------------------------------------------

  /** There is nothing but white space from the first separator to the last but one. */
  predicate OnlyFirst(f: string) {
    forall i :: 0 <= i < |f| && Seps(f[..i]) >= 1 && Seps(f[i..]) >= 2 ==> IsSpace(f[i])
  }

  // What comes before the first separator.
  function Head(f: string): string { if f == "" || f[0] == US then "" else [f[0]] + Head(f[1..]) }

  lemma {:induction false} HeadOf(x: string, rest: string)
    ensures Head(x + [US] + rest) <= x && Head(x + [US] + rest) == Head(x)
    ensures x[|Head(x)|..] != "" ==> x[|Head(x)|] == US
  {
    var s := x + [US] + rest;
    if x == "" {
      assert s[0] == US;
    } else {
      HeadOf(x[1..], rest);
      assert s[1..] == x[1..] + [US] + rest && s[0] == x[0];
    }
  }

  lemma {:induction false} HeadIs(x: string)
    ensures Head(x) <= x && US !in Head(x) && (US !in x ==> Head(x) == x)
  {
    if x != "" && x[0] != US {
      HeadIs(x[1..]);
      assert x == [x[0]] + x[1..];
    }
  }

  lemma CutInside(a: string, m: string, b: string, i: nat)
    requires i < |m|
    ensures var f, k := a + m + b, |a| + i;
      f[..k] == a + m[..i] && f[k..] == m[i..] + b && f[k] == m[i]
  {
    var f, k := a + m + b, |a| + i;
    assert m == m[..i] + m[i..];
    assert f == (a + m[..i]) + (m[i..] + b) && |a + m[..i]| == k;
  }

  lemma BlankInside(f: string, a: string, m: string, b: string)
    requires OnlyFirst(f) && f == a + m + b && Seps(a) >= 1 && Seps(b) >= 2
    ensures Blank(m)
  {
    forall i | 0 <= i < |m| ensures IsSpace(m[i]) {
      var k := |a| + i;
      SepsConcat(a, m[..i]);
      SepsConcat(m[i..], b);
      CutInside(a, m, b, i);
    }
  }

  lemma OnlyFirstInside(fs: seq<string>, k: nat)
    requires 1 <= k <= |fs| - 3 && OnlyFirst(Join(fs))
    ensures Blank(fs[k])
  {
    hide *;
    var before, after := fs[..k], fs[k + 1..];
    var a, b := Join(before) + [US], [US] + Join(after);
    JoinAt(fs, k);
    SepsConcat(Join(before), [US]);
    SepsConcat([US], Join(after));
    SepsAtLeast(after);
    OneSep();
    BlankInside(Join(fs), a, fs[k], b);
  }

  // A joined string, by one of its inner fields.
  lemma JoinAt(fs: seq<string>, k: nat)
    requires 1 <= k <= |fs| - 2
    ensures Join(fs) == (Join(fs[..k]) + [US]) + fs[k] + ([US] + Join(fs[k + 1..]))
  {
    var before, after := fs[..k], fs[k + 1..];
    assert Join([fs[k]]) == fs[k];
    hide *;
    SplitAt(fs, k);
    JoinConcat(before, [fs[k]] + after);
    JoinConcat([fs[k]], after);
    Grouped(Join(before) + [US], fs[k], [US], Join(after));
  }

  lemma SplitAt(fs: seq<string>, k: nat)
    requires k < |fs|
    ensures fs == fs[..k] + ([fs[k]] + fs[k + 1..])
  {
  }

  lemma Grouped(a: string, b: string, c: string, d: string)
    ensures a + (b + c + d) == a + b + (c + d)
  {
  }

  lemma OnlyFirstHead(fs: seq<string>)
    requires |fs| >= 3 && OnlyFirst(Join(fs))
    ensures Strip(fs[0]) == Strip(Head(Join(fs)))
  {
    var x, rest := fs[0], Join(fs[1..]);
    assert Join(fs) == x + [US] + rest;
    hide *;
    HeadOf(x, rest);
    SepsAtLeast(fs[1..]);
    if x != Head(x) {
      BehindHead(x);
      var m := x[|Head(x)| + 1..];
      BlankBehindHead(Join(fs), Head(x), m, rest);
      OneSep();
      BlankConcat([US], m);
      StripTrailing(Head(x), [US] + m);
    }
  }

  lemma BehindHead(x: string)
    requires Head(x) <= x && x[|Head(x)|..] != "" && x[|Head(x)|] == US
    ensures var h, m := Head(x), x[|Head(x)| + 1..]; x == h + [US] + m == h + ([US] + m)
  {
  }

  lemma BlankBehindHead(f: string, h: string, m: string, rest: string)
    requires OnlyFirst(f) && f == (h + [US] + m) + [US] + rest && Seps(rest) >= 1
    ensures Blank(m)
  {
    hide *;
    SepsConcat(h, [US]);
    SepsConcat([US], rest);
    OneSep();
    assert f == (h + [US]) + m + ([US] + rest);
    BlankInside(f, h + [US], m, [US] + rest);
  }

  // Otherwise there is text between two separators that could be at the end of a field or not.
  lemma TextBetween(f: string) returns (front: string, y: string, back: string)
    requires !OnlyFirst(f)
    ensures f == front + [US] + y + ([US] + back) && Strip(y) != ""
    ensures Seps(f) == Seps(front) + Seps(back) + 2 && Seps(back) >= 1
  {
    var t :| 0 <= t < |f| && Seps(f[..t]) >= 1 && Seps(f[t..]) >= 2 && !IsSpace(f[t]);
    hide *;
    var m, m';
    front, m := LastSep(f[..t]);
    m', back := FirstSep(f[t..]);
    y := m + m';
    MiddleNotBlank(f, t, m, m', back);
    SepsOfThree(front, m, m', back);
    MiddleRegroup(front, m, m', back);
    assert f == f[..t] + f[t..];
  }

  lemma MiddleRegroup(front: string, m: string, m': string, back: string)
    ensures (front + [US] + m) + (m' + [US] + back) == front + [US] + (m + m') + ([US] + back)
  {
  }

  lemma MiddleNotBlank(f: string, t: nat, m: string, m': string, back: string)
    requires t < |f| && f[t..] == m' + [US] + back && !IsSpace(f[t])
    ensures Strip(m + m') != ""
  {
    hide Strip;
    OneSep();
    assert f[t..][0] == f[t];
    assert m' != "";
    assert (m + m')[|m|] == f[t];
    StripBlank(m + m');
  }

  lemma SepsOfThree(front: string, m: string, m': string, back: string)
    requires US !in m && US !in m'
    ensures Seps(front + [US] + m) == Seps(front) + 1 && Seps(m' + [US] + back) == 1 + Seps(back)
    ensures Seps((front + [US] + m) + (m' + [US] + back)) == Seps(front) + Seps(back) + 2
  {
    OneSep();
    NoSeps(m);
    NoSeps(m');
    hide Seps;
    SepsConcat(front + [US], m);
    SepsConcat(front, [US]);
    SepsConcat(m' + [US], back);
    SepsConcat(m', [US]);
    SepsConcat(front + [US] + m, m' + [US] + back);
  }

  // Two lists of fields with a text between them, which goes to the last field of the first.
  function Around(ls: seq<string>, y: string, rs: seq<string>): seq<string>
    requires ls != [] && rs != []
  {
    ls[..|ls| - 1] + ([ls[|ls| - 1] + [US] + y] + rs)
  }

  lemma AroundIs(ls: seq<string>, y: string, rs: seq<string>)
    requires ls != [] && rs != []
    ensures var fs := Around(ls, y, rs);
      |fs| == |ls| + |rs| && fs[|ls| - 1] == ls[|ls| - 1] + [US] + y && fs != []
  {
  }

  lemma JoinAround(ls: seq<string>, y: string, rs: seq<string>)
    requires ls != [] && rs != [] && Around(ls, y, rs) != []
    ensures Join(Around(ls, y, rs)) == Join(ls) + [US] + y + ([US] + Join(rs))
  {
    var i := |ls| - 1;
    var init, last, p := ls[..i], ls[i], ls[i] + [US] + y;
    assert Join([p]) == p && Join([last]) == last && Around(ls, y, rs) == init + ([p] + rs) && ls == init + [last];
    hide *;
    JoinConcat([p], rs);
    if i == 0 {
      assert init + ([p] + rs) == [p] + rs && ls == [last];
    } else {
      JoinConcat(init, [p] + rs);
      JoinConcat(init, [last]);
      Regroup(Join(init), last, y, Join(rs));
    }
  }

  lemma Regroup(a: string, b: string, y: string, c: string)
    ensures a + [US] + ((b + [US] + y) + [US] + c) == (a + [US] + b) + [US] + y + ([US] + c)
  {
  }

  // ---- The last field -----------------------------------------------------------------------

  /** When all fields but the last are as short as can be, the last is the longest it can be. */
  lemma {:induction false} LastLongest(gs: seq<string>, fs: seq<string>)
    requires 0 < |gs| <= |fs| && Join(gs) == Join(fs) && forall k :: 0 <= k < |gs| - 1 ==> US !in gs[k]
    ensures |gs[|gs| - 1]| >= |fs[|fs| - 1]| && (|gs| < |fs| ==> |gs[|gs| - 1]| > |fs[|fs| - 1]|)
    decreases |gs|
  {
    if |gs| == 1 {
      LastWithin(fs);
    } else {
      var g, f := gs[0], fs[0];
      var gt, ft := Join(gs[1..]), Join(fs[1..]);
      assert US !in g && g + [US] + gt == f + [US] + ft;
      if US !in f {
        SplitOnce(g, gt, f, ft);
        LastLongest(gs[1..], fs[1..]);
      } else {
        var w := FirstLonger(g, gt, f, ft);
        var hs := [w] + fs[1..];
        assert hs[1..] == fs[1..];
        LastLongest(gs[1..], hs);
      }
    }
  }

  lemma {:induction false} LastWithin(fs: seq<string>)
    requires fs != []
    ensures |Join(fs)| >= |fs[|fs| - 1]| && (|fs| > 1 ==> |Join(fs)| > |fs[|fs| - 1]|)
  {
    if |fs| > 1 { LastWithin(fs[1..]); }
  }

  // A field with a separator in it begins with the whole of the shortest.
  lemma FirstLonger(g: string, gt: string, f: string, ft: string) returns (w: string)
    requires US !in g && US in f && g + [US] + gt == f + [US] + ft
    ensures f == g + [US] + w && gt == w + [US] + ft
  {
    NoSeps(f);
    var m, rest := FirstSep(f);
    assert f + [US] + ft == m + [US] + (rest + [US] + ft);
    SplitOnce(g, gt, m, rest + [US] + ft);
    w := rest;
  }
}
