/** Review rows, their identity, and the two merges that enrich them.

    A JSON value matters to this code only through its truthiness and its text (`str(v)`,
    `String(v)`), so that pair is what a field holds; a missing field is any falsy value.
    The identity of a row is computed twice: by the extension as a fingerprint string, and by the
    helper as a key. Crash recovery is sound where the first determines the second. */
module Reviews {

  datatype Value = Value(truthy: bool, text: string)

  datatype Row = Row(
    id: Value, cmid: Value, orderid: Value, user: Value, sao: Value,
    noiDung: Value, comment: Value, thoiGian: Value, time: Value, phanLoai: Value,
    anhUrls: Value, videoUrls: Value, mediaUrls: Value, soAnh: nat, soVideo: nat)

  datatype Key =
    | Id(id: string)
    | Fp(user: string, time: string, text: string, variant: string, stars: string)

  const BLANK := Fp("", "", "", "", "")

  // `a or b`
  function Or(a: Value, b: Value): Value { if a.truthy then a else b }

  // `str(v or "")`
  function Str(v: Value): string { if v.truthy then v.text else "" }

  predicate IsSpace(c: char) {
    var n := c as int;
    9 <= n <= 13 || 28 <= n <= 32 || n == 0x85 || n == 0xA0 || n == 0x1680 || 0x2000 <= n <= 0x200A
    || n == 0x2028 || n == 0x2029 || n == 0x202F || n == 0x205F || n == 0x3000
  }

  function Strip(s: string): string {
    if s == "" then s
    else if IsSpace(s[0]) then Strip(s[1..])
    else if IsSpace(s[|s| - 1]) then Strip(s[..|s| - 1])
    else s
  }

  /** The helper's identity of a row. */
  function KeyOf(r: Row): Key {
    var reviewId := Strip(Str(Or(r.cmid, r.id)));
    if reviewId != "" then Id(reviewId)
    else Fp(Strip(Str(r.user)), Strip(Str(Or(r.thoiGian, r.time))),
            Strip(Str(Or(r.noiDung, r.comment))), Strip(Str(r.phanLoai)), Strip(Str(r.sao)))
  }

  function KeysOf(rows: seq<Row>): set<Key> { set r | r in rows :: KeyOf(r) }

  function Longer(e: Value, r: Value): Value {
    if r.truthy && (!e.truthy || |r.text| > |e.text|) then r else e
  }

  function FirstSet(e: Value, r: Value): Value { if r.truthy && !e.truthy then r else e }

  /** The helper's merge of a repeated row into the stored one. */
  function MergeInto(e: Row, r: Row): Row {
    e.(anhUrls := Longer(e.anhUrls, r.anhUrls), videoUrls := Longer(e.videoUrls, r.videoUrls),
       mediaUrls := Longer(e.mediaUrls, r.mediaUrls), noiDung := Longer(e.noiDung, r.noiDung),
       comment := Longer(e.comment, r.comment), phanLoai := FirstSet(e.phanLoai, r.phanLoai),
       cmid := FirstSet(e.cmid, r.cmid), orderid := FirstSet(e.orderid, r.orderid))
  }

  /** Merging two rows of one identity never moves the stored row to another identity, although
      it rewrites four of the fields the identity is computed from. */
  lemma MergeKeepsKey(e: Row, r: Row)
    requires KeyOf(e) == KeyOf(r)
    ensures KeyOf(MergeInto(e, r)) == KeyOf(e)
  {
    var m := MergeInto(e, r);
    assert Strip(Str(Or(m.cmid, m.id))) == Strip(Str(Or(e.cmid, e.id)));
  }

  // ---- The extension's side -----------------------------------------------------------------

  const US: char := '\U{1F}'

  /** The extension's identity of a row. */
  function Fingerprint(r: Row): string {
    if r.id.truthy then "id:" + r.id.text
    else Str(r.user) + [US] + (Str(r.thoiGian) + [US] + (Str(r.sao) + [US] + (Str(r.noiDung) + [US] +
         (Str(r.phanLoai) + [US] + (Str(r.anhUrls) + [US] + Str(r.videoUrls))))))
  }

  predicate MoreText(e: Value, r: Value) { (r.truthy && !e.truthy) || |Str(r)| > |Str(e)| }

  /** The extension's merge of a repeated review. */
  function MergeReview(e: Row, r: Row): Row {
    var a := if (r.anhUrls.truthy && !e.anhUrls.truthy) || r.soAnh > e.soAnh
             then e.(soAnh := r.soAnh, anhUrls := r.anhUrls) else e;
    var b := if (r.videoUrls.truthy && !a.videoUrls.truthy) || r.soVideo > a.soVideo
             then a.(soVideo := r.soVideo, videoUrls := r.videoUrls) else a;
    b.(mediaUrls := Longer(b.mediaUrls, r.mediaUrls),
       noiDung := if MoreText(b.noiDung, r.noiDung) then r.noiDung else b.noiDung,
       phanLoai := FirstSet(b.phanLoai, r.phanLoai),
       cmid := FirstSet(b.cmid, r.cmid), orderid := FirstSet(b.orderid, r.orderid))
  }

  // The first separator splits a joined string in only one way.
  lemma SplitOnce(a: string, x: string, b: string, y: string)
    requires US !in a && US !in b
    requires a + [US] + x == b + [US] + y
    ensures a == b && x == y
  {
    var s := a + [US] + x;
    assert s[|a|] == US && s[|b|] == US;
    assert forall i :: 0 <= i < |a| ==> s[i] == a[i] && s[i] != US;
    assert forall i :: 0 <= i < |b| ==> s[i] == b[i] && s[i] != US;
    assert |a| == |b|;
    assert a == s[..|a|] && b == s[..|b|];
    assert x == s[|a| + 1..] && y == s[|b| + 1..];
  }

  /** Nor does the extension's merge move a review to another identity of the helper's: whatever it
      takes from a review of the same key leaves the key as it is. */
  lemma MergeReviewKeepsKey(e: Row, r: Row)
    requires KeyOf(e) == KeyOf(r)
    ensures KeyOf(MergeReview(e, r)) == KeyOf(e)
  {
    var m := MergeReview(e, r);
    assert m.id == e.id && m.user == e.user && m.thoiGian == e.thoiGian && m.time == e.time && m.sao == e.sao;
    assert Strip(Str(Or(m.cmid, m.id))) == Strip(Str(Or(e.cmid, e.id)));
    hide Strip;
  }
}
