/** Splitting a sorted list of media files into ZIP parts. */
module ZipSplit {

  datatype File = File(path: string, size: nat)

  function Total(files: seq<File>): nat { if files == [] then 0 else Total(files[..|files| - 1]) + files[|files| - 1].size }

  function Join(parts: seq<seq<File>>): seq<File> {
    if parts == [] then [] else Join(parts[..|parts| - 1]) + parts[|parts| - 1]
  }

  // Within the limit, or a single file that is not.
  predicate Allowed(part: seq<File>, maxBytes: int) { part != [] && (Total(part) <= maxBytes || |part| == 1) }

  /** A split of the files that keeps their order and the limit. */
  ghost predicate Split(parts: seq<seq<File>>, files: seq<File>, maxBytes: int) {
    Join(parts) == files && forall i :: 0 <= i < |parts| ==> Allowed(parts[i], maxBytes)
  }

  /** No part has room for the file that follows it. */
  predicate Tight(parts: seq<seq<File>>, maxBytes: int) {
    forall i {:trigger NoRoom(parts, i, maxBytes)} :: 0 < i < |parts| ==> NoRoom(parts, i, maxBytes)
  }

  predicate NoRoom(parts: seq<seq<File>>, i: nat, maxBytes: int)
    requires 0 < i < |parts|
  {
    parts[i] != [] && Total(parts[i - 1]) + parts[i][0].size > maxBytes
  }

  // Where the first `k` parts end.
  function End(parts: seq<seq<File>>, k: nat): nat
    requires k <= |parts|
  {
    |Join(parts[..k])|
  }

  lemma EndOfAll(parts: seq<seq<File>>)
    ensures End(parts, |parts|) == |Join(parts)|
  {
    assert parts[..|parts|] == parts;
  }

  lemma {:induction false} JoinSplits(a: seq<seq<File>>, b: seq<seq<File>>)
    ensures Join(a + b) == Join(a) + Join(b)
  {
    if b == [] {
      assert a + b == a;
    } else {
      assert (a + b)[..|a + b| - 1] == a + b[..|b| - 1];
      JoinSplits(a, b[..|b| - 1]);
    }
  }

  /** Part `k` is the files from where the parts before it end. */
  lemma PartIsSlice(parts: seq<seq<File>>, k: nat)
    requires k < |parts|
    ensures End(parts, k + 1) == End(parts, k) + |parts[k]| <= |Join(parts)|
    ensures Span(Join(parts), End(parts, k), End(parts, k + 1)) == Total(parts[k])
    ensures parts[k] != [] ==> Join(parts)[End(parts, k)] == parts[k][0]
  {
    var front, rest := parts[..k + 1], parts[k + 1..];
    assert front[..k] == parts[..k] && parts == front + rest;
    JoinSplits(front, rest);
    assert Join(parts)[End(parts, k)..End(parts, k + 1)] == parts[k];
  }

  // The size of the files from `a` up to `b`.
  function Span(files: seq<File>, a: nat, b: nat): nat
    requires a <= b <= |files|
  {
    Total(files[a..b])
  }

  lemma {:induction false} TotalSplits(a: seq<File>, b: seq<File>)
    ensures Total(a + b) == Total(a) + Total(b)
  {
    if b == [] {
      assert a + b == a;
    } else {
      assert (a + b)[..|a + b| - 1] == a + b[..|b| - 1];
      TotalSplits(a, b[..|b| - 1]);
    }
  }

  lemma SpanWithin(files: seq<File>, c: nat, a: nat, b: nat, d: nat)
    requires c <= a <= b <= d <= |files|
    ensures Span(files, a, b) <= Span(files, c, d)
  {
    assert files[c..d] == files[c..a] + (files[a..b] + files[b..d]);
    TotalSplits(files[c..a], files[a..b] + files[b..d]);
    TotalSplits(files[a..b], files[b..d]);
  }

  lemma SpanGrows(files: seq<File>, a: nat, b: nat)
    requires a <= b < |files|
    ensures Span(files, a, b + 1) == Span(files, a, b) + files[b].size
  {
    assert files[a..b + 1][..b - a] == files[a..b];
  }

  /** A tight part together with the file after it is over the limit. */
  lemma TightPartIsFull(parts: seq<seq<File>>, maxBytes: int, k: nat)
    requires Tight(parts, maxBytes) && 0 < k < |parts|
    ensures End(parts, k - 1) <= End(parts, k) < |Join(parts)|
    ensures Span(Join(parts), End(parts, k - 1), End(parts, k) + 1) > maxBytes
  {
    assert NoRoom(parts, k, maxBytes);
    hide Join;
    hide End;
    hide Span;
    hide Total;
    hide Tight;
    PartIsSlice(parts, k - 1);
    PartIsSlice(parts, k);
    SpanGrows(Join(parts), End(parts, k - 1), End(parts, k));
  }

  // A part of any split that starts no later cannot reach past a full one.
  lemma FullStaysAhead(files: seq<File>, c: nat, a: nat, b: nat, d: nat, maxBytes: int)
    requires c <= a < b < |files| && c <= d <= |files|
    requires Span(files, a, b + 1) > maxBytes && (Span(files, c, d) <= maxBytes || d == c + 1)
    ensures d <= b
  {
    hide Span;
    if d > b { SpanWithin(files, c, a, b + 1, d); }
  }

  lemma PartAllowed(parts: seq<seq<File>>, files: seq<File>, maxBytes: int, i: nat)
    requires Split(parts, files, maxBytes) && i < |parts|
    ensures Join(parts) == files && parts[i] != [] && (Total(parts[i]) <= maxBytes || |parts[i]| == 1)
  {
    assert Allowed(parts[i], maxBytes);
  }

  /** Part for part, a tight split reaches at least as far as any other. */
  lemma {:induction false} GreedyStaysAhead(parts: seq<seq<File>>, other: seq<seq<File>>, files: seq<File>,
                                            maxBytes: int, k: nat)
    requires Split(parts, files, maxBytes) && Tight(parts, maxBytes) && Split(other, files, maxBytes)
    requires k <= |parts| && k <= |other|
    ensures End(parts, k) >= End(other, k)
  {
    if k > 0 {
      hide *;
      PartAllowed(parts, files, maxBytes, k - 1);
      PartAllowed(other, files, maxBytes, k - 1);
      GreedyStaysAhead(parts, other, files, maxBytes, k - 1);
      PartIsSlice(parts, k - 1);
      PartIsSlice(other, k - 1);
      if k == |parts| {
        EndOfAll(parts);
      } else {
        TightPartIsFull(parts, maxBytes, k);
        FullStaysAhead(files, End(other, k - 1), End(parts, k - 1), End(parts, k), End(other, k), maxBytes);
      }
    }
  }

  /** A tight split has the fewest parts of all splits. */
  lemma TightIsMinimal(parts: seq<seq<File>>, other: seq<seq<File>>, files: seq<File>, maxBytes: int)
    requires Split(parts, files, maxBytes) && Tight(parts, maxBytes) && Split(other, files, maxBytes)
    ensures |parts| <= |other|
  {
    if |other| < |parts| {
      var k := |other|;
      GreedyStaysAhead(parts, other, files, maxBytes, k);
      assert other[..k] == other;
      PartIsSlice(parts, k);
    }
  }

  // Closing the current part keeps the split so far.
  lemma PartCloses(parts: seq<seq<File>>, part: seq<File>, files: seq<File>, maxBytes: int)
    requires Split(parts, files, maxBytes) && Tight(parts, maxBytes) && Allowed(part, maxBytes)
    requires parts != [] ==> Total(parts[|parts| - 1]) + part[0].size > maxBytes
    ensures Split(parts + [part], files + part, maxBytes) && Tight(parts + [part], maxBytes)
  {
    hide Total;
    var more := parts + [part];
    assert more[..|parts|] == parts;
    forall i | 0 < i < |more| ensures NoRoom(more, i, maxBytes) {
      assert i < |parts| ==> NoRoom(parts, i, maxBytes);
    }
  }

  /** Where the loop stands: the closed parts hold the files before the current part, which is
      never empty once a file has been seen, and which the last closed part had no room for. */
  ghost predicate Standing(parts: seq<seq<File>>, closed: seq<File>, current: seq<File>, files: seq<File>, maxBytes: int) {
    && Split(parts, closed, maxBytes) && Tight(parts, maxBytes) && closed + current == files
    && (files == [] ==> parts == [])
    && (files != [] ==> Allowed(current, maxBytes))
    && (parts != [] ==> current != [] && Total(parts[|parts| - 1]) + current[0].size > maxBytes)
  }

  lemma StandingAfter(parts: seq<seq<File>>, closed: seq<File>, current: seq<File>, files: seq<File>, maxBytes: int, f: File)
    requires Standing(parts, closed, current, files, maxBytes)
    ensures if current != [] && Total(current) + f.size > maxBytes
      then Standing(parts + [current], closed + current, [f], files + [f], maxBytes)
      else Standing(parts, closed, current + [f], files + [f], maxBytes)
    ensures Total(current + [f]) == Total(current) + f.size && Total([f]) == f.size
  {
    assert (current + [f])[..|current|] == current && [f][..0] == [];
    if current != [] && Total(current) + f.size > maxBytes {
      PartCloses(parts, current, closed, maxBytes);
    }
    hide Split;
    hide Tight;
  }

  /** The splitting loop: its parts are the files in order, none is empty, each is within the limit
      unless it is a single file over it, and no such split has fewer parts. */
  method SplitParts(files: seq<File>, maxBytes: int) returns (parts: seq<seq<File>>)
    ensures Split(parts, files, maxBytes)
    ensures forall other :: Split(other, files, maxBytes) ==> |parts| <= |other|
  {
    parts := [];
    var currentPart: seq<File>, currentBytes := [], 0;
    ghost var closed: seq<File> := [];
    assert Standing(parts, closed, currentPart, files[..0], maxBytes);
    for i := 0 to |files|
      invariant Standing(parts, closed, currentPart, files[..i], maxBytes) && currentBytes == Total(currentPart)
    {
      hide *;
      var f := files[i];
      assert files[..i + 1] == files[..i] + [f];
      StandingAfter(parts, closed, currentPart, files[..i], maxBytes, f);
      if currentPart != [] && currentBytes + f.size > maxBytes {
        closed := closed + currentPart;
        parts := parts + [currentPart];
        currentPart, currentBytes := [f], f.size;
      } else {
        currentPart, currentBytes := currentPart + [f], currentBytes + f.size;
      }
    }
    assert files[..|files|] == files && closed + [] == closed;
    hide Total;
    hide Join;
    if currentPart != [] {
      PartCloses(parts, currentPart, closed, maxBytes);
      parts := parts + [currentPart];
    }
    hide Split;
    hide Tight;
    forall other | Split(other, files, maxBytes) ensures |parts| <= |other| {
      TightIsMinimal(parts, other, files, maxBytes);
    }
  }
}
