/** Cutting a JSON text into upload chunks, in the extension's UTF-16 units, and the size the helper
    counts, in UTF-8 bytes. */
module Chunking {

  type Unit = n: nat | n < 0x1_0000
  type Text = seq<Unit>

  const CHUNK_UNITS := 65536

  predicate High(u: Unit) { 0xD800 <= u <= 0xDBFF }
  predicate Low(u: Unit) { 0xDC00 <= u <= 0xDFFF }

  predicate PairAt(s: Text, i: nat) { i + 1 < |s| && High(s[i]) && Low(s[i + 1]) }

  function Scalar(high: Unit, low: Unit): nat
    requires High(high) && Low(low)
  {
    0x1_0000 + (high - 0xD800) * 0x400 + (low - 0xDC00)
  }

  /** The bytes of one character, by section 3 of RFC 3629. */
  function CharBytes(c: nat): (b: seq<nat>)
    requires c < 0x11_0000
    ensures |b| == if c < 0x80 then 1 else if c < 0x800 then 2 else if c < 0x1_0000 then 3 else 4
  {
    if c < 0x80 then [c]
    else if c < 0x800 then [0xC0 + c / 0x40, 0x80 + c % 0x40]
    else if c < 0x1_0000 then [0xE0 + c / 0x1000, 0x80 + c / 0x40 % 0x40, 0x80 + c % 0x40]
    else [0xF0 + c / 0x4_0000, 0x80 + c / 0x1000 % 0x40, 0x80 + c / 0x40 % 0x40, 0x80 + c % 0x40]
  }

  /** The UTF-8 encoding of a text. */
  function Utf8(s: Text): seq<nat> {
    if s == [] then []
    else if PairAt(s, 0) then CharBytes(Scalar(s[0], s[1])) + Utf8(s[2..])
    else CharBytes(s[0]) + Utf8(s[1..])
  }

  // No surrogate outside a pair: what the helper's encoder accepts.
  predicate WellFormed(s: Text) {
    if s == [] then true
    else if PairAt(s, 0) then WellFormed(s[2..])
    else !High(s[0]) && !Low(s[0]) && WellFormed(s[1..])
  }

  // The helper's `len`, in characters.
  function Characters(s: Text): (n: nat)
    ensures n <= |s|
  {
    if s == [] then 0
    else if PairAt(s, 0) then 1 + Characters(s[2..]) else 1 + Characters(s[1..])
  }

  /** A cut between two texts that does not fall inside a surrogate pair. */
  predicate CleanCut(a: Text, b: Text) {
    !(a != [] && b != [] && High(a[|a| - 1]) && Low(b[0]))
  }

  lemma {:induction false} EncodingSplits(a: Text, b: Text)
    requires CleanCut(a, b)
    ensures Utf8(a + b) == Utf8(a) + Utf8(b)
  {
    hide CharBytes;
    hide Scalar;
    if a == [] {
      assert a + b == b;
    } else {
      assert PairAt(a + b, 0) == PairAt(a, 0);
      var n := if PairAt(a, 0) then 2 else 1;
      assert (a + b)[n..] == a[n..] + b;
      EncodingSplits(a[n..], b);
    }
  }

  lemma {:induction false} WellFormedSplits(a: Text, b: Text)
    requires CleanCut(a, b)
    ensures WellFormed(a + b) <==> WellFormed(a) && WellFormed(b)
  {
    if a == [] {
      assert a + b == b;
    } else {
      assert PairAt(a + b, 0) == PairAt(a, 0);
      var n := if PairAt(a, 0) then 2 else 1;
      assert (a + b)[n..] == a[n..] + b;
      WellFormedSplits(a[n..], b);
    }
  }

  function Join(chunks: seq<Text>): Text {
    if chunks == [] then [] else Join(chunks[..|chunks| - 1]) + chunks[|chunks| - 1]
  }

  function TotalBytes(chunks: seq<Text>): nat {
    if chunks == [] then 0 else TotalBytes(chunks[..|chunks| - 1]) + |Utf8(chunks[|chunks| - 1])|
  }

  /** A cutting of a text: whole, in order, within the limit, never inside a surrogate pair, and
      nothing cut shorter than it must be. */
  ghost predicate Cutting(text: Text, chunks: seq<Text>) {
    && Join(chunks) == text
    && (forall i :: 0 <= i < |chunks| ==> 0 < |chunks[i]| <= CHUNK_UNITS)
    && (forall i :: 0 <= i < |chunks| - 1 ==> CleanCut(chunks[i], chunks[i + 1]) && |chunks[i]| >= CHUNK_UNITS - 1)
  }

  lemma CuttingExtends(text: Text, chunks: seq<Text>, chunk: Text)
    requires Cutting(text, chunks) && 0 < |chunk| <= CHUNK_UNITS
    requires chunks != [] ==> |chunks[|chunks| - 1]| >= CHUNK_UNITS - 1 && CleanCut(chunks[|chunks| - 1], chunk)
    ensures Cutting(text + chunk, chunks + [chunk])
  {
    hide CleanCut;
    var more := chunks + [chunk];
    assert more[..|chunks|] == chunks;
    forall i | 0 <= i < |more| - 1 ensures CleanCut(more[i], more[i + 1]) && |more[i]| >= CHUNK_UNITS - 1 {
      if i < |chunks| - 1 {
        assert more[i] == chunks[i] && more[i + 1] == chunks[i + 1];
      }
    }
  }

  // Where the loop stands: what is cut, and that the cut at `offset` is a clean one.
  ghost predicate Standing(payload: Text, chunks: seq<Text>, offset: nat) {
    && offset <= |payload| && Cutting(payload[..offset], chunks)
    && (chunks != [] && offset < |payload| ==>
          |chunks[|chunks| - 1]| >= CHUNK_UNITS - 1 && CleanCut(chunks[|chunks| - 1], payload[offset..]))
  }

  lemma CutOne(payload: Text, chunks: seq<Text>, offset: nat, end: nat)
    requires Standing(payload, chunks, offset) && offset < end <= |payload| && end - offset <= CHUNK_UNITS
    requires end < |payload| ==> end - offset >= CHUNK_UNITS - 1 && !(High(payload[end - 1]) && Low(payload[end]))
    ensures Standing(payload, chunks + [payload[offset..end]], end)
  {
    var chunk := payload[offset..end];
    assert payload[..end] == payload[..offset] + chunk;
    assert chunk[0] == payload[offset..][0] && chunk[|chunk| - 1] == payload[end - 1];
    if end < |payload| { assert payload[end..][0] == payload[end]; }
    CuttingExtends(payload[..offset], chunks, chunk);
    hide Cutting;
  }

  /** The extension's loop. */
  method CutChunks(payload: Text) returns (chunks: seq<Text>)
    ensures Cutting(payload, chunks)
  {
    chunks := [];
    var offset := 0;
    assert Cutting(payload[..0], chunks);
    hide Cutting;
    assert payload[..|payload|] == payload;
    while offset < |payload|
      invariant offset <= |payload| && Standing(payload, chunks, offset)
    {
      var end := if offset + CHUNK_UNITS < |payload| then offset + CHUNK_UNITS else |payload|;
      var lastCode := payload[end - 1];
      if end < |payload| && High(lastCode) {
        end := end - 1;
      }
      CutOne(payload, chunks, offset, end);
      hide Standing;
      chunks := chunks + [payload[offset..end]];
      offset := end;
    }
  }

  lemma EmptyText()
    ensures Utf8([]) == [] && WellFormed([])
  {
  }

  lemma {:induction false} LastOfJoin(chunks: seq<Text>)
    requires chunks != [] && forall i :: 0 <= i < |chunks| ==> chunks[i] != []
    ensures Join(chunks) != [] && Join(chunks)[|Join(chunks)| - 1] == chunks[|chunks| - 1][|chunks[|chunks| - 1]| - 1]
  {
  }

  /** A cutting cuts the encoding too: the chunks' sizes add up to the payload's size, and each
      chunk of a well-formed payload is well formed. */
  lemma {:induction false} CuttingEncodes(payload: Text, chunks: seq<Text>)
    requires Cutting(payload, chunks)
    ensures TotalBytes(chunks) == |Utf8(payload)|
    ensures WellFormed(payload) <==> forall i :: 0 <= i < |chunks| ==> WellFormed(chunks[i])
    decreases |chunks|
  {
    hide Utf8;
    hide WellFormed;
    assert Utf8([]) == [] && WellFormed([]) by { EmptyText(); }
    if chunks != [] {
      var front, last := chunks[..|chunks| - 1], chunks[|chunks| - 1];
      CuttingEncodes(Join(front), front);
      if front != [] {
        LastOfJoin(front);
        assert CleanCut(chunks[|chunks| - 2], chunks[|chunks| - 2 + 1]);
      }
      EncodingSplits(Join(front), last);
      WellFormedSplits(Join(front), last);
      assert forall i :: 0 <= i < |chunks| ==> chunks[i] == if i < |front| then front[i] else last;
    }
  }
}
