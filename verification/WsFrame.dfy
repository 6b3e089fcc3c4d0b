/** WebSocket frames over a socket that delivers in pieces: the gateway's reader of masked client
    frames and its encoder of server frames, against section 5.2 of RFC 6455. */
module WsFrame {
  import opened Wrappers
  import opened Bytes

  const MAX_MESSAGE_BYTES := 8 * 1024 * 1024

  type Opcode = n: nat | n < 16

  // ---- The format ---------------------------------------------------------------------------

  /** The three ways to write a payload length. */
  datatype Form = Seven | Sixteen | SixtyFour

  predicate Fits(n: nat, form: Form) {
    match form case Seven => n < 126 case Sixteen => n < 0x1_0000 case SixtyFour => n < 0x1_0000_0000_0000_0000
  }

  // The second byte of the head and the extended length; `bit` is 128 where a mask follows.
  function Length(n: nat, form: Form, bit: nat): (b: seq<Byte>)
    requires Fits(n, form) && bit in {0, 128}
    ensures |b| == match form case Seven => 1 case Sixteen => 3 case SixtyFour => 9
  {
    assert Power(2) == 0x1_0000 && Power(8) == 0x1_0000_0000_0000_0000 by { Powers(); }
    match form
    case Seven => [(bit + n) as Byte]
    case Sixteen => [(bit + 126) as Byte] + BigEndian(n, 2)
    case SixtyFour => [(bit + 127) as Byte] + BigEndian(n, 8)
  }

  function Masked(payload: seq<Byte>, mask: seq<Byte>): (m: seq<Byte>)
    requires |mask| == 4
    ensures |m| == |payload| && forall i :: 0 <= i < |m| ==> m[i] == Xor(payload[i], mask[i % 4])
  {
    seq(|payload|, i requires 0 <= i < |payload| => Xor(payload[i], mask[i % 4]))
  }

  lemma MaskedTwice(payload: seq<Byte>, mask: seq<Byte>)
    requires |mask| == 4
    ensures Masked(Masked(payload, mask), mask) == payload
  {
    forall i | 0 <= i < |payload| ensures Masked(Masked(payload, mask), mask)[i] == payload[i] {
      XorTwice(payload[i], mask[i % 4]);
    }
  }

  predicate Control(opcode: Opcode) { opcode in {8, 9, 10} }

  /** A client's frame: final, without extensions, masked. */
  datatype ClientFrame = ClientFrame(opcode: Opcode, payload: seq<Byte>, mask: seq<Byte>, form: Form)

  predicate Sendable(f: ClientFrame, max: nat) {
    |f.mask| == 4 && Fits(|f.payload|, f.form) && |f.payload| <= max && (Control(f.opcode) ==> f.form == Seven)
  }

  function Wire(f: ClientFrame): seq<Byte>
    requires |f.mask| == 4 && Fits(|f.payload|, f.form)
  {
    [(128 + f.opcode) as Byte] + Length(|f.payload|, f.form, 128) + f.mask + Masked(f.payload, f.mask)
  }

  // ---- The reader, on values ----------------------------------------------------------------

  datatype Read = Frame(opcode: Opcode, payload: seq<Byte>, rest: seq<Byte>) | Refused(error: string) | Closed

  function Extended(second: Byte): nat { if second % 128 == 126 then 2 else if second % 128 == 127 then 8 else 0 }

  // What the first two bytes are refused for.
  function HeadError(first: Byte, second: Byte): Option<string> {
    if first / 16 % 8 != 0 then Some("RSV bits must be 0")
    else if first < 128 then Some("Fragmented frames not supported")
    else if second < 128 then Some("Client frames must be masked")
    else if Control((first % 16) as int) && second % 128 > 125 then Some("Control frames payload must be 125 bytes or less")
    else None
  }

  // The payload length, of a head that is all there.
  function SizeOf(s: seq<Byte>): nat
    requires |s| >= 2 && |s| >= 2 + Extended(s[1])
  {
    var ext := Extended(s[1]);
    if ext == 0 then (s[1] % 128) as int else Number(s[2..2 + ext])
  }

  function ParseFrame(s: seq<Byte>, max: nat): Read {
    if |s| < 2 then Closed
    else if HeadError(s[0], s[1]).Some? then Refused(HeadError(s[0], s[1]).value)
    else if |s| < 2 + Extended(s[1]) then Closed
    else if SizeOf(s) > max then Refused("Payload size exceeds limit")
    else
      var at, size := 2 + Extended(s[1]), SizeOf(s);
      if |s| < at + 4 + size then Closed
      else Frame((s[0] % 16) as int, Masked(s[at + 4..at + 4 + size], s[at..at + 4]), s[at + 4 + size..])
  }

  lemma HeadOfWire(f: ClientFrame, rest: seq<Byte>, max: nat)
    requires Sendable(f, max)
    ensures var s := Wire(f) + rest; var at := 1 + |Length(|f.payload|, f.form, 128)|;
      && |s| >= at + 4 + |f.payload| && s[0] == (128 + f.opcode) as Byte && at == 2 + Extended(s[1])
      && s[1] >= 128 && (Control(f.opcode) ==> s[1] % 128 <= 125) && SizeOf(s) == |f.payload|
  {
    Powers();
    var s, n := Wire(f) + rest, |f.payload|;
    var length := Length(n, f.form, 128);
    assert s[1..1 + |length|] == length;
    assert s[1] == length[0];
    match f.form
    case Seven =>
    case Sixteen => assert s[2..4] == length[1..] == BigEndian(n, 2); NumberOfBigEndian(n, 2);
    case SixtyFour => assert s[2..10] == length[1..] == BigEndian(n, 8); NumberOfBigEndian(n, 8);
  }

  /** A client frame at the front of the stream is read exactly, and nothing after it is touched,
      whatever form its length is written in. */
  lemma ParseOfWire(f: ClientFrame, rest: seq<Byte>, max: nat)
    requires Sendable(f, max)
    ensures ParseFrame(Wire(f) + rest, max) == Frame(f.opcode, f.payload, rest)
  {
    HeadOfWire(f, rest, max);
    MaskedTwice(f.payload, f.mask);
    hide Masked;
    hide SizeOf;
    hide Extended;
    var length := Length(|f.payload|, f.form, 128);
    assert Wire(f) == [(128 + f.opcode) as Byte] + length + f.mask + Masked(f.payload, f.mask);
    hide Length;
    hide Wire;
    Fields((128 + f.opcode) as Byte, length, f.mask, Masked(f.payload, f.mask), rest);
  }

  lemma Fields(first: Byte, length: seq<Byte>, mask: seq<Byte>, masked: seq<Byte>, rest: seq<Byte>)
    ensures var s := [first] + length + mask + masked + rest; var at := 1 + |length|;
      && s[at..at + |mask|] == mask
      && s[at + |mask|..at + |mask| + |masked|] == masked
      && s[at + |mask| + |masked|..] == rest
  {
  }

  // The frame at the front of a stream that has one.
  function FrontFrame(s: seq<Byte>): ClientFrame
    requires |s| >= 2 && |s| >= 2 + Extended(s[1]) && |s| >= 2 + Extended(s[1]) + 4 + SizeOf(s)
  {
    var at, size := 2 + Extended(s[1]), SizeOf(s);
    var mask := s[at..at + 4];
    ClientFrame((s[0] % 16) as int, Masked(s[at + 4..at + 4 + size], mask), mask,
                if at == 2 then Seven else if at == 4 then Sixteen else SixtyFour)
  }

  /** And only client frames are read: what was consumed is the one frame that was returned. */
  lemma ParsedIsWire(s: seq<Byte>, max: nat) returns (f: ClientFrame)
    requires ParseFrame(s, max).Frame? && max < 0x1_0000_0000_0000_0000
    ensures Sendable(f, max) && ParseFrame(s, max) == Frame(f.opcode, f.payload, ParseFrame(s, max).rest)
    ensures s == Wire(f) + ParseFrame(s, max).rest
  {
    f := FrontFrame(s);
    LengthOfHead(s);
    assert ParseFrame(s, max) == Frame(f.opcode, f.payload, s[2 + Extended(s[1]) + 4 + SizeOf(s)..]);
    assert Control(f.opcode) ==> f.form == Seven;
    hide ParseFrame;
    hide HeadError;
    FrontIsWire(s);
  }

  lemma FrontIsWire(s: seq<Byte>)
    requires |s| >= 2 && |s| >= 2 + Extended(s[1]) && |s| >= 2 + Extended(s[1]) + 4 + SizeOf(s)
    requires s[1] >= 128 && s[0] >= 128 && s[0] / 16 % 8 == 0
    ensures var f := FrontFrame(s);
      Fits(|f.payload|, f.form) && s == Wire(f) + s[2 + Extended(s[1]) + 4 + SizeOf(s)..]
  {
    var f, at, size := FrontFrame(s), 2 + Extended(s[1]), SizeOf(s);
    LengthOfHead(s);
    MaskedTwice(s[at + 4..at + 4 + size], f.mask);
    assert s[0] == (128 + f.opcode) as Byte;
    assert f.mask == s[at..at + 4] && s[1..at] == Length(|f.payload|, f.form, 128);
    hide Length;
    hide SizeOf;
    hide Extended;
    InFive(s, at, size);
  }

  lemma InFive(s: seq<Byte>, at: nat, size: nat)
    requires 2 <= at && at + 4 + size <= |s|
    ensures s == [s[0]] + s[1..at] + s[at..at + 4] + s[at + 4..at + 4 + size] + s[at + 4 + size..]
  {
  }

  lemma LengthOfHead(s: seq<Byte>)
    requires |s| >= 2 && |s| >= 2 + Extended(s[1]) && s[1] >= 128
    ensures var form := if Extended(s[1]) == 0 then Seven else if Extended(s[1]) == 2 then Sixteen else SixtyFour;
      Fits(SizeOf(s), form) && s[1..2 + Extended(s[1])] == Length(SizeOf(s), form, 128)
  {
    Powers();
    var ext := Extended(s[1]);
    var tail := s[2..2 + ext];
    BigEndianOfNumber(tail);
    assert Number(tail) < Power(|tail|);
    assert s[1..2 + ext] == [s[1]] + tail;
  }

  // ---- The encoder --------------------------------------------------------------------------

  function Shortest(n: nat): Form { if n < 126 then Seven else if n <= 0xFFFF then Sixteen else SixtyFour }

  function EncodeFrame(payload: seq<Byte>, opcode: Opcode): seq<Byte>
    requires |payload| < 0x1_0000_0000_0000_0000
  {
    [(128 + opcode) as Byte] + Length(|payload|, Shortest(|payload|), 0) + payload
  }

  /** The length is written in the fewest bytes that hold it. */
  lemma EncodesShortest(payload: seq<Byte>, opcode: Opcode, form: Form)
    requires |payload| < 0x1_0000_0000_0000_0000 && Fits(|payload|, form)
    ensures |EncodeFrame(payload, opcode)| <= 1 + |Length(|payload|, form, 0)| + |payload|
  {
  }

  /** What a receiver of unmasked frames reads, by section 5.2 of RFC 6455. */
  function ReceiveUnmasked(s: seq<Byte>): Option<(Opcode, seq<Byte>, seq<Byte>)> {
    if |s| < 2 || |s| < 2 + Extended(s[1]) || |s| < 2 + Extended(s[1]) + SizeOf(s) then None
    else
      var at, size := 2 + Extended(s[1]), SizeOf(s);
      Some(((s[0] % 16) as int, s[at..at + size], s[at + size..]))
  }

  lemma HeadOfEncoded(payload: seq<Byte>, opcode: Opcode, rest: seq<Byte>)
    requires |payload| < 0x1_0000_0000_0000_0000
    ensures var s := EncodeFrame(payload, opcode) + rest; var at := 1 + |Length(|payload|, Shortest(|payload|), 0)|;
      && |s| >= at + |payload| && s[0] == (128 + opcode) as Byte && at == 2 + Extended(s[1]) && SizeOf(s) == |payload|
  {
    Powers();
    var s, n := EncodeFrame(payload, opcode) + rest, |payload|;
    var length := Length(n, Shortest(n), 0);
    assert s[1..1 + |length|] == length;
    assert s[1] == length[0];
    match Shortest(n)
    case Seven =>
    case Sixteen => assert s[2..4] == length[1..] == BigEndian(n, 2); NumberOfBigEndian(n, 2);
    case SixtyFour => assert s[2..10] == length[1..] == BigEndian(n, 8); NumberOfBigEndian(n, 8);
  }

  /** What is encoded is received, and nothing after it is touched. */
  lemma ReceiveOfEncode(payload: seq<Byte>, opcode: Opcode, rest: seq<Byte>)
    requires |payload| < 0x1_0000_0000_0000_0000
    ensures ReceiveUnmasked(EncodeFrame(payload, opcode) + rest) == Some((opcode, payload, rest))
  {
    HeadOfEncoded(payload, opcode, rest);
    hide SizeOf;
    hide Extended;
    var length := Length(|payload|, Shortest(|payload|), 0);
    assert EncodeFrame(payload, opcode) == [(128 + opcode) as Byte] + length + [] + payload;
    hide Length;
    hide EncodeFrame;
    Fields((128 + opcode) as Byte, length, [], payload, rest);
  }

  /** No encoded frame is the beginning of another, and equal encodings have equal parts: a stream
      of them can be cut in only one way. */
  lemma EncodingsCutOneWay(p: seq<Byte>, o: Opcode, r: seq<Byte>, q: seq<Byte>, u: Opcode, t: seq<Byte>)
    requires |p| < 0x1_0000_0000_0000_0000 && |q| < 0x1_0000_0000_0000_0000
    requires EncodeFrame(p, o) + r == EncodeFrame(q, u) + t
    ensures p == q && o == u && r == t
  {
    ReceiveOfEncode(p, o, r);
    ReceiveOfEncode(q, u, t);
  }

  // ---- Reading ------------------------------------------------------------------------------

  /** A socket whose peer has sent `wire` and will send no more. */
  class Socket {
    var wire: seq<Byte>

    constructor (wire: seq<Byte>)
      ensures this.wire == wire
    {
      this.wire := wire;
    }

    // Anything from one byte to as many as asked for, or nothing at the end.
    method Recv(size: nat) returns (chunk: seq<Byte>)
      requires size > 0
      modifies this
      ensures old(wire) == chunk + wire && |chunk| <= size && (chunk == [] <==> old(wire) == [])
    {
      if wire == [] { return []; }
      var n: nat :| 1 <= n <= |wire| && n <= size;
      chunk := wire[..n];
      wire := wire[n..];
    }
  }

  class BufferedSocketReader {
    const sock: Socket
    var buf: seq<Byte>

    constructor (sock: Socket, initialData: seq<Byte>)
      ensures this.sock == sock && buf == initialData
    {
      this.sock, buf := sock, initialData;
    }

    // What is still to be read: the handshake's leftover, then the wire.
    function Stream(): seq<Byte>
      reads this, sock
    {
      buf + sock.wire
    }

    /** Exactly the next bytes of the stream, however they arrive; too few is an error. */
    method ReadExact(size: nat) returns (r: Result<seq<Byte>, string>)
      modifies this, sock
      ensures size <= |old(Stream())| ==> r == Ok(old(Stream())[..size]) && Stream() == old(Stream())[size..]
      ensures size > |old(Stream())| ==> r == Err("Peer closed socket") && Stream() == []
    {
      var take := if |buf| < size then |buf| else size;
      var got := buf[..take];
      buf := buf[take..];
      while |got| < size
        invariant |got| <= size && old(Stream()) == got + Stream() && (|got| < size ==> buf == [])
        decreases size - |got|
      {
        var chunk := sock.Recv(size - |got|);
        if chunk == [] { return Err("Peer closed socket"); }
        got := got + chunk;
      }
      assert old(Stream())[..size] == got;
      return Ok(got);
    }
  }

  method UnmaskInPlace(payload: array<Byte>, mask: seq<Byte>)
    requires |mask| == 4
    modifies payload
    ensures payload[..] == Masked(old(payload[..]), mask)
  {
    hide Xor;
    for i := 0 to payload.Length
      invariant forall k :: 0 <= k < i ==> payload[k] == Xor(old(payload[k]), mask[k % 4])
      invariant forall k :: i <= k < payload.Length ==> payload[k] == old(payload[k])
    {
      payload[i] := Xor(payload[i], mask[i % 4]);
    }
  }

  // The length of the payload, read where the head says it is.
  method ReadSize(source: BufferedSocketReader, second: Byte) returns (r: Result<nat, string>)
    modifies source, source.sock
    ensures var ext := Extended(second); var s := old(source.Stream());
      if |s| < ext then r.Err?
      else r == Ok(if ext == 0 then (second % 128) as int else Number(s[..ext])) && source.Stream() == s[ext..]
  {
    if second % 128 < 126 { return Ok((second % 128) as int); }
    var ext := if second % 128 == 126 then 2 else 8;
    var bytes := source.ReadExact(ext);
    if bytes.Err? { return Err(bytes.error); }
    return Ok(Number(bytes.value));
  }

  // The mask and the payload it is taken off.
  method ReadBody(source: BufferedSocketReader, size: nat) returns (r: Result<seq<Byte>, string>)
    modifies source, source.sock
    ensures var s := old(source.Stream());
      if |s| < 4 + size then r.Err?
      else r == Ok(Masked(s[4..4 + size], s[..4])) && source.Stream() == s[4 + size..]
  {
    hide Masked;
    ghost var s := source.Stream();
    var mask := source.ReadExact(4);
    if mask.Err? { return Err(mask.error); }
    var bytes := source.ReadExact(size);
    if bytes.Err? { return Err(bytes.error); }
    var data := bytes.value;
    assert s[4..][..size] == s[4..4 + size] && s[4..][size..] == s[4 + size..];
    var payload := new Byte[size](i requires 0 <= i < |data| => data[i]);
    assert payload[..] == data;
    UnmaskInPlace(payload, mask.value);
    return Ok(payload[..]);
  }

  datatype Message = Message(opcode: Opcode, payload: seq<Byte>)

  /** Reads one frame. An error or a closed socket ends the connection. */
  method ReadFrame(source: BufferedSocketReader, max: nat) returns (r: Result<Message, string>)
    modifies source, source.sock
    ensures match ParseFrame(old(source.Stream()), max)
            case Frame(opcode, payload, rest) => r == Ok(Message(opcode, payload)) && source.Stream() == rest
            case Refused(error) => r == Err(error)
            case Closed => r.Err?
  {
    hide Masked;
    hide Number;
    ghost var s := source.Stream();
    var head := source.ReadExact(2);
    if head.Err? { return Err(head.error); }
    var first, second := head.value[0], head.value[1];
    var refused := HeadError(first, second);
    if refused.Some? { return Err(refused.value); }
    hide HeadError;
    ghost var at := 2 + Extended(second);
    var size := ReadSize(source, second);
    if size.Err? { return Err(size.error); }
    Slices(s, at);
    assert size.value == SizeOf(s);
    hide SizeOf;
    hide Extended;
    if size.value > max { return Err("Payload size exceeds limit"); }
    var payload := ReadBody(source, size.value);
    if payload.Err? { return Err(payload.error); }
    FurtherSlices(s, at, size.value);
    return Ok(Message((first % 16) as int, payload.value));
  }

  lemma Slices(s: seq<Byte>, at: nat)
    requires 2 <= at <= |s|
    ensures s[2..][..at - 2] == s[2..at] && s[2..][at - 2..] == s[at..] && s[..2] == [s[0], s[1]]
  {
  }

  lemma FurtherSlices(s: seq<Byte>, at: nat, size: nat)
    requires at + 4 + size <= |s|
    ensures s[at..][..4] == s[at..at + 4] && s[at..][4..4 + size] == s[at + 4..at + 4 + size]
    ensures s[at..][4 + size..] == s[at + 4 + size..]
  {
  }

  function WireAll(frames: seq<ClientFrame>, max: nat): seq<Byte>
    requires forall i :: 0 <= i < |frames| ==> Sendable(frames[i], max)
  {
    if frames == [] then []
    else
      assert Sendable(frames[0], max);
      Wire(frames[0]) + WireAll(frames[1..], max)
  }

  /** Reading as many frames as a client sent, over any split between the handshake's leftover and
      any pieces the socket delivers, yields exactly those frames and leaves exactly what follows. */
  method ReadFrames(source: BufferedSocketReader, max: nat, ghost frames: seq<ClientFrame>, ghost rest: seq<Byte>,
                    count: nat)
    returns (messages: seq<Message>)
    requires (forall i :: 0 <= i < |frames| ==> Sendable(frames[i], max)) && count == |frames|
    requires source.Stream() == WireAll(frames, max) + rest
    modifies source, source.sock
    ensures |messages| == count && forall i :: 0 <= i < count ==> messages[i] == Message(frames[i].opcode, frames[i].payload)
    ensures source.Stream() == rest
  {
    hide ParseFrame;
    hide Wire;
    messages := [];
    ghost var left := frames;
    for i := 0 to count
      invariant left == frames[i..] && source.Stream() == WireAll(left, max) + rest
      invariant |messages| == i && forall k :: 0 <= k < i ==> messages[k] == Message(frames[k].opcode, frames[k].payload)
    {
      assert left[0] == frames[i];
      ghost var after := WireAll(left[1..], max) + rest;
      assert WireAll(left, max) + rest == Wire(left[0]) + after;
      ParseOfWire(left[0], after, max);
      var r := ReadFrame(source, max);
      messages := messages + [r.value];
      left := left[1..];
    }
  }
}
