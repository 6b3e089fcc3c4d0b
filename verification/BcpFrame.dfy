/** The browser control plane's frames: a big-endian length, a kind byte and a payload. The JSON
    text of a payload stands as its bytes. */
module BcpFrame {
  import opened Wrappers
  import opened Bytes

  datatype Frame = Json(text: seq<Byte>) | Binary(attachment: seq<Byte>, raw: seq<Byte>)

  datatype Parse = Incomplete | Parsed(frame: Frame, rest: seq<Byte>) | Failed(error: string)

  const ATTACHMENT_SIZE := 16

  // `struct.pack(">I", n)`
  function Packed(n: nat): Result<seq<Byte>, string> {
    assert Power(4) == 0x1_0000_0000 by { Powers(); }
    if n < 0x1_0000_0000 then Ok(BigEndian(n, 4)) else Err("argument out of range")
  }

  function EncodeJsonFrame(text: seq<Byte>): Result<seq<Byte>, string> {
    var head := Packed(|text| + 1);
    if head.Err? then head else Ok(head.value + [0] + text)
  }

  function EncodeBinaryFrame(attachment: seq<Byte>, raw: seq<Byte>): Result<seq<Byte>, string> {
    if |attachment| != ATTACHMENT_SIZE then Err("attachment_id must be exactly 16 bytes")
    else
      var head := Packed(1 + 16 + |raw|);
      if head.Err? then head else Ok(head.value + [1] + (attachment + raw))
  }

  function Encode(f: Frame): Result<seq<Byte>, string> {
    match f case Json(text) => EncodeJsonFrame(text) case Binary(a, raw) => EncodeBinaryFrame(a, raw)
  }

  function Least(a: nat, b: nat): nat { if a < b then a else b }

  function ParseFrame(buffer: seq<Byte>): Parse {
    if |buffer| < 4 then Incomplete
    else
      var length := Number(buffer[..4]);
      if |buffer| < 4 + length then Incomplete
      else if |buffer| == 4 then Failed("index out of range")
      else
        var kind, payload, rest := buffer[4], if length == 0 then [] else buffer[5..4 + length], buffer[4 + length..];
        if kind == 0 then Parsed(Json(payload), rest)
        else if kind == 1 then
          var n := Least(|payload|, ATTACHMENT_SIZE);
          Parsed(Binary(payload[..n], payload[n..]), rest)
        else Failed("Unknown frame kind")
  }

  // ---- One frame ----------------------------------------------------------------------------

  /** The length field counts the kind byte and the payload exactly; a frame is refused only when
      that count does not fit in 32 bits, or an attachment id is not 16 bytes long. */
  lemma LengthIsExact(f: Frame)
    ensures Encode(f).Ok? <==>
      match f case Json(text) => |text| + 1 < 0x1_0000_0000
              case Binary(a, raw) => |a| == 16 && 17 + |raw| < 0x1_0000_0000
    ensures Encode(f).Ok? ==> |Encode(f).value| >= 5 && Number(Encode(f).value[..4]) == |Encode(f).value| - 4
  {
    Powers();
    if Encode(f).Ok? {
      var n := match f case Json(text) => |text| + 1 case Binary(a, raw) => 1 + 16 + |raw|;
      NumberOfBigEndian(n, 4);
      assert Encode(f).value[..4] == BigEndian(n, 4);
    }
  }

  /** A whole encoded frame at the front of the buffer is parsed, and nothing after it is touched. */
  lemma ParseOfEncode(f: Frame, rest: seq<Byte>)
    requires Encode(f).Ok?
    ensures ParseFrame(Encode(f).value + rest) == Parsed(f, rest)
  {
    LengthIsExact(f);
    var e := Encode(f).value;
    var b := e + rest;
    assert b[..4] == e[..4] && b[4] == e[4] && b[|e|..] == rest && b[5..|e|] == e[5..];
    hide Number;
    match f
    case Json(text) => assert e[5..] == text;
    case Binary(a, raw) => assert e[5..] == a + raw && (a + raw)[..16] == a && (a + raw)[16..] == raw;
  }

  /** Anything less than the whole frame is incomplete: nothing is consumed. */
  lemma PrefixIsIncomplete(f: Frame, n: nat)
    requires Encode(f).Ok? && n < |Encode(f).value|
    ensures ParseFrame(Encode(f).value[..n]) == Incomplete
  {
    LengthIsExact(f);
    if n >= 4 {
      assert Encode(f).value[..n][..4] == Encode(f).value[..4];
    }
  }

  /** What is parsed is what was encoded, and only that: but for length fields too small for their
      kind, the buffer splits into a frame and a rest in the one way the encoders made it. */
  lemma ParsedIsEncoded(b: seq<Byte>, f: Frame, rest: seq<Byte>)
    ensures ParseFrame(b) == Parsed(f, rest) && Number(b[..4]) >= (if f.Json? then 1 else 17) <==>
            Encode(f).Ok? && b == Encode(f).value + rest
  {
    if Encode(f).Ok? && b == Encode(f).value + rest {
      LengthIsExact(f);
      ParseOfEncode(f, rest);
      assert b[..4] == Encode(f).value[..4];
    }
    if ParseFrame(b) == Parsed(f, rest) && Number(b[..4]) >= (if f.Json? then 1 else 17) {
      ParsedSplits(b, f, rest);
    }
    hide *;
  }

  function Payload(f: Frame): seq<Byte> { if f.Json? then f.text else f.attachment + f.raw }

  lemma ParsedSplits(b: seq<Byte>, f: Frame, rest: seq<Byte>)
    requires ParseFrame(b) == Parsed(f, rest) && Number(b[..4]) >= (if f.Json? then 1 else 17)
    ensures Encode(f).Ok? && b == Encode(f).value + rest
  {
    var length := Number(b[..4]);
    ParsedShape(b, f, rest);
    Powers();
    assert length < Power(|b[..4]|);
    BigEndianOfNumber(b[..4]);
    hide ParseFrame;
    hide Number;
    hide BigEndian;
    assert Encode(f) == Ok(b[..4] + [b[4]] + Payload(f));
    hide *;
    InFour(b, 4 + length);
  }

  lemma InFour(b: seq<Byte>, m: nat)
    requires 5 <= m <= |b|
    ensures b == b[..4] + [b[4]] + b[5..m] + b[m..]
  {
  }

  lemma ParsedShape(b: seq<Byte>, f: Frame, rest: seq<Byte>)
    requires ParseFrame(b) == Parsed(f, rest) && Number(b[..4]) >= (if f.Json? then 1 else 17)
    ensures var length := Number(b[..4]);
      && 5 <= 4 + length <= |b| && rest == b[4 + length..] && b[5..4 + length] == Payload(f)
      && b[4] == (if f.Json? then 0 else 1) && (f.Binary? ==> |f.attachment| == 16)
      && length == 1 + |Payload(f)|
  {
    hide Number;
  }

  /** More bytes at the end change nothing in front. */
  lemma MoreBytes(b: seq<Byte>, more: seq<Byte>)
    requires ParseFrame(b).Parsed?
    ensures ParseFrame(b + more) == ParseFrame(b).(rest := ParseFrame(b).rest + more)
  {
    assert (b + more)[..4] == b[..4];
    var length := Number(b[..4]);
    assert (b + more)[4 + length..] == b[4 + length..] + more;
    if length > 0 { assert (b + more)[5..4 + length] == b[5..4 + length]; }
  }

  /** A length field of zero takes the next frame's first byte for its kind. */
  lemma EmptyFrameBorrowsItsKind(next: seq<Byte>)
    requires next != [] && next[0] == 1
    ensures ParseFrame([0, 0, 0, 0] + next) == Parsed(Binary([], []), next)
  {
    var b: seq<Byte> := [0, 0, 0, 0] + next;
    assert b[..4] == [0, 0, 0, 0] && b[4..] == next;
    ZeroLength(b[..4]);
  }

  lemma {:induction false} ZeroLength(b: seq<Byte>)
    requires forall i :: 0 <= i < |b| ==> b[i] == 0
    ensures Number(b) == 0
  {
    if b != [] { ZeroLength(b[..|b| - 1]); }
  }

  // ---- The stream ---------------------------------------------------------------------------

  /** What `json.loads` makes of a text: nothing, a value that is not `None`, or an error. */
  datatype Loaded = Null | Something | Undecodable

  type Decoder = seq<Byte> -> Loaded

  predicate IsNull(f: Frame, dec: Decoder) { f.Json? && dec(f.text) == Null }

  // A frame whose text is no JSON is raised as an error by the parser.
  function Read(buffer: seq<Byte>, dec: Decoder): Parse {
    match ParseFrame(buffer)
    case Parsed(f, rest) => if f.Json? && dec(f.text) == Undecodable then Failed("Expecting value") else Parsed(f, rest)
    case p => p
  }

  datatype End = Short | Halted | Broken

  datatype Drained = Drained(frames: seq<Frame>, rest: seq<Byte>, end: End)

  /** The inner loop: parsing until there is no whole frame, or until a frame is read as `None`, or
      until one cannot be parsed. */
  function Drain(buffer: seq<Byte>, dec: Decoder): Drained
    decreases |buffer|
  {
    match Read(buffer, dec)
    case Incomplete => Drained([], buffer, Short)
    case Failed(_) => Drained([], buffer, Broken)
    case Parsed(f, rest) =>
      if IsNull(f, dec) then Drained([], rest, Halted)
      else var d := Drain(rest, dec); Drained([f] + d.frames, d.rest, d.end)
  }

  /** All that is in a buffer: the frames that are not null, how many are, what is left, and whether
      that cannot be parsed. */
  datatype Content = Content(frames: seq<Frame>, nulls: nat, rest: seq<Byte>, broken: bool)

  function All(buffer: seq<Byte>, dec: Decoder): Content
    decreases |buffer|
  {
    match Read(buffer, dec)
    case Incomplete => Content([], 0, buffer, false)
    case Failed(_) => Content([], 0, buffer, true)
    case Parsed(f, rest) => With(f, All(rest, dec), dec)
  }

  function With(f: Frame, c: Content, dec: Decoder): Content {
    if IsNull(f, dec) then c.(nulls := c.nulls + 1) else c.(frames := [f] + c.frames)
  }

  lemma DrainStep(b: seq<Byte>, dec: Decoder)
    ensures match Read(b, dec)
            case Incomplete => Drain(b, dec) == Drained([], b, Short) && All(b, dec) == Content([], 0, b, false)
            case Failed(_) => Drain(b, dec) == Drained([], b, Broken) && All(b, dec) == Content([], 0, b, true)
            case Parsed(f, rest) =>
              && |rest| < |b| && All(b, dec) == With(f, All(rest, dec), dec)
              && Drain(b, dec) == if IsNull(f, dec) then Drained([], rest, Halted)
                                  else Drained([f] + Drain(rest, dec).frames, Drain(rest, dec).rest, Drain(rest, dec).end)
  {
  }

  lemma ReadMore(b: seq<Byte>, more: seq<Byte>, dec: Decoder)
    requires ParseFrame(b).Parsed?
    ensures Read(b + more, dec) == if Read(b, dec).Parsed? then Read(b, dec).(rest := Read(b, dec).rest + more) else Read(b, dec)
  {
    MoreBytes(b, more);
    hide ParseFrame;
  }

  lemma ParsedAtAll(b: seq<Byte>, dec: Decoder)
    requires Read(b, dec).Parsed?
    ensures ParseFrame(b).Parsed?
  {
    hide ParseFrame;
  }

  // All that is in one content and then in another.
  function Then(frames: seq<Frame>, nulls: nat, c: Content): Content {
    Content(frames + c.frames, nulls + c.nulls, c.rest, c.broken)
  }

  /** However a buffer is drained and whatever comes after it: what was taken, and what is in the
      rest with what comes after, is all there is. Only null frames are skipped, and a drain that
      does not halt at one has skipped none and left no whole frame. */
  lemma {:induction false} DrainInPieces(a: seq<Byte>, b: seq<Byte>, dec: Decoder)
    requires Drain(a, dec).end != Broken
    ensures var d := Drain(a, dec);
      && All(a + b, dec) == Then(d.frames, if d.end == Halted then 1 else 0, All(d.rest + b, dec))
      && (d.end == Short ==> Read(d.rest, dec) == Incomplete)
    decreases |a|
  {
    hide ParseFrame;
    hide Drain;
    hide All;
    hide Read;
    DrainStep(a, dec);
    var p := Read(a, dec);
    if p.Parsed? {
      ParsedAtAll(a, dec);
      ReadMore(a, b, dec);
      DrainStep(a + b, dec);
      if !IsNull(p.frame, dec) {
        DrainInPieces(p.rest, b, dec);
        var d := Drain(p.rest, dec);
        var c := All(d.rest + b, dec);
        assert [p.frame] + (d.frames + c.frames) == ([p.frame] + d.frames) + c.frames;
      }
    }
  }

  lemma {:induction false} DrainBroken(a: seq<Byte>, dec: Decoder)
    requires Drain(a, dec).end == Broken
    ensures All(a, dec).broken
    decreases |a|
  {
    hide ParseFrame;
    hide Drain;
    hide All;
    hide Read;
    DrainStep(a, dec);
    if Read(a, dec).Parsed? { DrainBroken(Read(a, dec).rest, dec); }
  }

  function BytesOf(f: Frame): seq<Byte> { if Encode(f).Ok? then Encode(f).value else [] }

  /** The bytes of a sequence of frames. */
  function Stream(frames: seq<Frame>): seq<Byte> {
    if frames == [] then [] else BytesOf(frames[0]) + Stream(frames[1..])
  }

  predicate Sendable(f: Frame, dec: Decoder) { Encode(f).Ok? && (f.Json? ==> dec(f.text) != Undecodable) }

  function NotNull(frames: seq<Frame>, dec: Decoder): (r: seq<Frame>)
    ensures |r| <= |frames|
  {
    if frames == [] then [] else (if IsNull(frames[0], dec) then [] else [frames[0]]) + NotNull(frames[1..], dec)
  }

  lemma ReadOfEncode(f: Frame, rest: seq<Byte>, dec: Decoder)
    requires Sendable(f, dec)
    ensures Read(Encode(f).value + rest, dec) == Parsed(f, rest)
  {
    ParseOfEncode(f, rest);
    hide ParseFrame;
    hide Encode;
  }

  lemma {:induction false} AllOfStream(frames: seq<Frame>, tail: seq<Byte>, dec: Decoder)
    requires (forall f :: f in frames ==> Sendable(f, dec)) && ParseFrame(tail) == Incomplete
    ensures All(Stream(frames) + tail, dec) == Content(NotNull(frames, dec), |frames| - |NotNull(frames, dec)|, tail, false)
  {
    if frames == [] {
      assert Stream(frames) + tail == tail;
      AllOfTail(tail, dec);
      hide *;
    } else {
      FirstSendable(frames, dec);
      hide Encode;
      hide ParseFrame;
      hide All;
      StreamStep(frames, tail);
      WithNext(frames, tail, dec);
      var rest := Stream(frames[1..]) + tail;
      hide *;
      ReadOfEncode(frames[0], rest, dec);
      DrainStep(Encode(frames[0]).value + rest, dec);
      AllOfStream(frames[1..], tail, dec);
    }
  }

  lemma AllOfTail(tail: seq<Byte>, dec: Decoder)
    requires ParseFrame(tail) == Incomplete
    ensures All(tail, dec) == Content(NotNull([], dec), 0, tail, false) && |NotNull([], dec)| == 0
  {
    hide ParseFrame;
  }

  lemma FirstSendable(frames: seq<Frame>, dec: Decoder)
    requires frames != [] && forall f :: f in frames ==> Sendable(f, dec)
    ensures Sendable(frames[0], dec) && Encode(frames[0]).Ok? && forall f :: f in frames[1..] ==> Sendable(f, dec)
  {
    assert Sendable(frames[0], dec);
    hide Encode;
  }

  lemma WithNext(frames: seq<Frame>, tail: seq<Byte>, dec: Decoder)
    requires frames != []
    ensures var later := NotNull(frames[1..], dec);
      |later| < |frames|
      && With(frames[0], Content(later, |frames| - 1 - |later|, tail, false), dec)
         == Content(NotNull(frames, dec), |frames| - |NotNull(frames, dec)|, tail, false)
  {
    hide IsNull;
    var later := NotNull(frames[1..], dec);
    if IsNull(frames[0], dec) {
      assert NotNull(frames, dec) == [] + later == later;
    } else {
      assert NotNull(frames, dec) == [frames[0]] + later;
    }
  }

  lemma StreamStep(frames: seq<Frame>, tail: seq<Byte>)
    requires frames != [] && Encode(frames[0]).Ok?
    ensures Stream(frames) + tail == Encode(frames[0]).value + (Stream(frames[1..]) + tail)
  {
    hide Encode;
  }

  lemma {:induction false} NoneNull(frames: seq<Frame>, dec: Decoder)
    requires forall f :: f in frames ==> !IsNull(f, dec)
    ensures NotNull(frames, dec) == frames
  {
    if frames != [] {
      NoneNull(frames[1..], dec);
      assert frames == [frames[0]] + frames[1..];
    }
  }

  function Concat(pieces: seq<seq<Byte>>): seq<Byte> {
    if pieces == [] then [] else Concat(pieces[..|pieces| - 1]) + pieces[|pieces| - 1]
  }

  // Whatever comes next: these frames, and then what is in the buffer with it.
  ghost predicate Carries(received: seq<Byte>, frames: seq<Frame>, nulls: nat, buffer: seq<Byte>, dec: Decoder) {
    forall y :: All(received + y, dec) == Then(frames, nulls, All(buffer + y, dec))
  }

  lemma CarriesNow(received: seq<Byte>, frames: seq<Frame>, nulls: nat, buffer: seq<Byte>, dec: Decoder, y: seq<Byte>)
    requires Carries(received, frames, nulls, buffer, dec)
    ensures All(received + y, dec) == Then(frames, nulls, All(buffer + y, dec))
  {
    hide All;
  }

  lemma CarriesOn(received: seq<Byte>, frames: seq<Frame>, nulls: nat, buffer: seq<Byte>, dec: Decoder, piece: seq<Byte>)
    requires Carries(received, frames, nulls, buffer, dec) && Drain(buffer + piece, dec).end != Broken
    ensures var d := Drain(buffer + piece, dec);
      Carries(received + piece, frames + d.frames, nulls + (if d.end == Halted then 1 else 0), d.rest, dec)
  {
    var d := Drain(buffer + piece, dec);
    var skipped := if d.end == Halted then 1 else 0;
    forall y ensures All(received + piece + y, dec) == Then(frames + d.frames, nulls + skipped, All(d.rest + y, dec)) {
      CarriesStep(received, frames, nulls, buffer, dec, piece, y);
    }
    hide Drain;
    hide All;
  }

  lemma CarriesStep(received: seq<Byte>, frames: seq<Frame>, nulls: nat, buffer: seq<Byte>, dec: Decoder,
                    piece: seq<Byte>, y: seq<Byte>)
    requires Carries(received, frames, nulls, buffer, dec) && Drain(buffer + piece, dec).end != Broken
    ensures var d := Drain(buffer + piece, dec);
      All(received + piece + y, dec) ==
        Then(frames + d.frames, nulls + (if d.end == Halted then 1 else 0), All(d.rest + y, dec))
  {
    hide *;
    var d := Drain(buffer + piece, dec);
    CarriesNow(received, frames, nulls, buffer, dec, piece + y);
    DrainInPieces(buffer + piece, y, dec);
    ThenThen(frames, nulls, d.frames, if d.end == Halted then 1 else 0, All(d.rest + y, dec));
    Grouped(received, piece, y);
    Grouped(buffer, piece, y);
  }

  lemma Grouped(a: seq<Byte>, b: seq<Byte>, c: seq<Byte>)
    ensures a + b + c == a + (b + c)
  {
  }

  lemma ThenThen(a: seq<Frame>, m: nat, b: seq<Frame>, n: nat, c: Content)
    ensures Then(a, m, Then(b, n, c)) == Then(a + b, m + n, c)
  {
    assert a + (b + c.frames) == (a + b) + c.frames;
  }

  lemma CarriesFirst(dec: Decoder)
    ensures Carries([], [], 0, [], dec) && Read([], dec) == Incomplete
  {
    forall y: seq<Byte> ensures All([] + y, dec) == Then([], 0, All([] + y, dec)) {
      var c := All([] + y, dec);
      assert [] + c.frames == c.frames;
    }
    hide All;
  }

  /** The agent's loop around the parser. What it has taken and what is still in its buffer is all
      there is in what it has received; frames wait in the buffer only if a null frame came; and it
      stops only where what it has received so far cannot be parsed. */
  method Receive(pieces: seq<seq<Byte>>, dec: Decoder) returns (frames: seq<Frame>, buffer: seq<Byte>, failed: bool)
    ensures !failed ==> exists nulls: nat :: All(Concat(pieces), dec) == Then(frames, nulls, All(buffer, dec))
    ensures !failed && All(Concat(pieces), dec).nulls == 0 ==> Read(buffer, dec) == Incomplete
    ensures failed ==> exists n :: 0 <= n <= |pieces| && All(Concat(pieces[..n]), dec).broken
  {
    hide Read;
    hide All;
    hide Drain;
    hide Carries;
    frames, buffer, failed := [], [], false;
    ghost var nulls: nat := 0;
    CarriesFirst(dec);
    for n := 0 to |pieces|
      invariant !failed && Carries(Concat(pieces[..n]), frames, nulls, buffer, dec)
      invariant nulls == 0 ==> Read(buffer, dec) == Incomplete
    {
      assert pieces[..n + 1][..n] == pieces[..n];
      ghost var d := Drain(buffer + pieces[n], dec);
      if d.end == Broken {
        CarriesNow(Concat(pieces[..n]), frames, nulls, buffer, dec, pieces[n]);
        DrainBroken(buffer + pieces[n], dec);
      } else {
        CarriesOn(Concat(pieces[..n]), frames, nulls, buffer, dec, pieces[n]);
        DrainInPieces(buffer + pieces[n], [], dec);
      }
      var more, end;
      more, buffer, end := DrainBuffer(buffer + pieces[n], dec);
      frames := frames + more;
      if end == Broken { return frames, buffer, true; }
      if end == Halted { nulls := nulls + 1; }
    }
    assert pieces[..|pieces|] == pieces;
    CarriesNow(Concat(pieces), frames, nulls, buffer, dec, []);
    assert Concat(pieces) + [] == Concat(pieces) && buffer + [] == buffer;
  }

  method DrainBuffer(buffer: seq<Byte>, dec: Decoder) returns (frames: seq<Frame>, rest: seq<Byte>, end: End)
    ensures Drained(frames, rest, end) == Drain(buffer, dec)
  {
    frames, rest := [], buffer;
    while true
      invariant Drain(buffer, dec) == Drained(frames + Drain(rest, dec).frames, Drain(rest, dec).rest, Drain(rest, dec).end)
      decreases |rest|
    {
      match Read(rest, dec)
      case Incomplete => return frames, rest, Short;
      case Failed(_) => return frames, rest, Broken;
      case Parsed(f, more) =>
        if IsNull(f, dec) { return frames, more, Halted; }
        assert frames + ([f] + Drain(more, dec).frames) == (frames + [f]) + Drain(more, dec).frames;
        frames, rest := frames + [f], more;
    }
  }

  /** What comes behind a null frame in one piece waits for the next. */
  lemma NullHoldsBack(text: seq<Byte>, f: Frame, dec: Decoder)
    requires dec(text) == Null && Encode(Json(text)).Ok? && Encode(f).Ok?
    ensures Drain(Encode(Json(text)).value + Encode(f).value, dec) == Drained([], Encode(f).value, Halted)
  {
    ReadOfEncode(Json(text), Encode(f).value, dec);
    hide Encode;
    hide Read;
  }

  /** No beginning of a stream of encoded frames ever fails to parse. */
  lemma {:induction false} StreamNeverFails(frames: seq<Frame>, n: nat, dec: Decoder)
    requires (forall f :: f in frames ==> Sendable(f, dec)) && n <= |Stream(frames)|
    ensures !All(Stream(frames)[..n], dec).broken
  {
    if frames != [] {
      assert Sendable(frames[0], dec);
      var f, e, s := frames[0], Encode(frames[0]).value, Stream(frames);
      DrainStep(s[..n], dec);
      if n < |e| {
        PrefixIsIncomplete(f, n);
        assert s[..n] == e[..n];
      } else {
        var rest := Stream(frames[1..])[..n - |e|];
        assert s[..n] == e + rest;
        ReadOfEncode(f, rest, dec);
        StreamNeverFails(frames[1..], n - |e|, dec);
      }
      hide ParseFrame;
      hide Encode;
      hide All;
    }
  }

  lemma {:induction false} ConcatPrefix(pieces: seq<seq<Byte>>, n: nat)
    requires n <= |pieces|
    ensures Concat(pieces[..n]) <= Concat(pieces)
  {
    if n < |pieces| {
      ConcatPrefix(pieces[..|pieces| - 1], n);
      assert pieces[..|pieces| - 1][..n] == pieces[..n];
    } else {
      assert pieces[..n] == pieces;
    }
  }

  lemma {:induction false} StreamAppends(frames: seq<Frame>, f: Frame)
    ensures Stream(frames + [f]) == Stream(frames) + BytesOf(f)
  {
    hide BytesOf;
    if frames == [] {
      assert frames + [f] == [f];
    } else {
      StreamAppends(frames[1..], f);
      assert (frames + [f])[1..] == frames[1..] + [f];
    }
  }

  /** However a stream of frames is cut into pieces, even within a frame, and wherever it stops
      short within the next one: the loop never fails, what it yields and what waits in its buffer
      are the frames that are not null, in order, and at the end of its buffer are the bytes of the
      one that is not whole. Nothing waits if no frame is null. */
  method ReceiveStream(pieces: seq<seq<Byte>>, dec: Decoder, ghost sent: seq<Frame>, ghost next: Frame, ghost n: nat)
    returns (frames: seq<Frame>, buffer: seq<Byte>, failed: bool)
    requires (forall f :: f in sent ==> Sendable(f, dec)) && Sendable(next, dec) && n < |Encode(next).value|
    requires Concat(pieces) == Stream(sent) + Encode(next).value[..n]
    ensures !failed && frames + All(buffer, dec).frames == NotNull(sent, dec)
    ensures All(buffer, dec).rest == Encode(next).value[..n] && !All(buffer, dec).broken
    ensures (forall f :: f in sent ==> !IsNull(f, dec)) ==> frames == sent && buffer == Encode(next).value[..n]
  {
    PrefixIsIncomplete(next, n);
    AllOfStream(sent, Encode(next).value[..n], dec);
    hide Encode;
    hide Drain;
    hide Stream;
    hide Read;
    hide All;
    hide NotNull;
    hide IsNull;
    frames, buffer, failed := Receive(pieces, dec);
    if failed {
      ghost var k :| 0 <= k <= |pieces| && All(Concat(pieces[..k]), dec).broken;
      ConcatPrefix(pieces, k);
      PartNeverFails(Concat(pieces[..k]), Concat(pieces), sent, next, n, dec);
      assert false;
    }
    if forall f :: f in sent ==> !IsNull(f, dec) {
      NoneNull(sent, dec);
      DrainStep(buffer, dec);
      assert frames + [] == frames;
    }
  }

  lemma PartNeverFails(part: seq<Byte>, whole: seq<Byte>, sent: seq<Frame>, next: Frame, n: nat, dec: Decoder)
    requires (forall f :: f in sent ==> Sendable(f, dec)) && Sendable(next, dec) && n < |Encode(next).value|
    requires part <= whole && whole == Stream(sent) + Encode(next).value[..n]
    ensures !All(part, dec).broken
  {
    StreamAppends(sent, next);
    assert forall f :: f in sent + [next] ==> Sendable(f, dec);
    assert BytesOf(next) == Encode(next).value;
    hide *;
    var all := Stream(sent + [next]);
    assert whole <= all;
    assert part == all[..|part|];
    StreamNeverFails(sent + [next], |part|, dec);
  }
}
