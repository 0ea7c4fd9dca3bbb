// The length-prefixed frame format of uds_frame.ts: encodeFrame, and the parse loop of
// FrameDecoder.push as a function on the bytes between its offset and its end.
module FrameCodec {
  import opened Wrappers

  const FRAME_LENGTH_CAP := 16_777_216
  const FRAME_HEADER_BYTES := 4
  const FRAME_TYPE_BYTES := 1

  datatype Lane = Mcp | Ctrl

  datatype Frame = Frame(lane: Lane, payload: seq<Byte>)

  datatype ProtocolError =
    | FrameLengthTooLarge(frameLength: int)
    | FrameLengthTooSmall(frameLength: int)
    | FrameUnknownType(typeByte: Byte)

  function TypeByte(lane: Lane): Byte {
    match lane case Mcp => 0x01 case Ctrl => 0x02
  }

  function ToFrameType(b: Byte): Result<Lane, ProtocolError> {
    if b == 0x01 then Ok(Mcp) else if b == 0x02 then Ok(Ctrl) else Err(FrameUnknownType(b))
  }

  function LengthError(length: int): Option<ProtocolError> {
    if length < FRAME_TYPE_BYTES then Some(FrameLengthTooSmall(length))
    else if length > FRAME_LENGTH_CAP then Some(FrameLengthTooLarge(length))
    else None
  }

  // Little-endian 32-bit unsigned integers.
  function ReadU32Le(s: seq<Byte>): (v: int)
    requires |s| >= 4
    ensures 0 <= v < 0x1_0000_0000
  {
    s[0] as int + 0x100 * (s[1] as int + 0x100 * (s[2] as int + 0x100 * (s[3] as int)))
  }

  function WriteU32Le(v: int): (s: seq<Byte>)
    requires 0 <= v < 0x1_0000_0000
    ensures |s| == 4 && ReadU32Le(s) == v
  {
    var q1 := v / 0x100;
    var q2 := q1 / 0x100;
    [(v % 0x100) as Byte, (q1 % 0x100) as Byte, (q2 % 0x100) as Byte, (q2 / 0x100) as Byte]
  }

  function EncodeFrame(typeByte: Byte, payload: seq<Byte>): Result<seq<Byte>, ProtocolError> {
    match ToFrameType(typeByte)
    case Err(e) => Err(e)
    case Ok(_) =>
      var length := FRAME_TYPE_BYTES + |payload|;
      match LengthError(length)
      case Some(e) => Err(e)
      case None => Ok(WriteU32Le(length) + [typeByte] + payload)
  }

  // The wire form of a frame that encodeFrame accepts.
  predicate Encodable(payload: seq<Byte>) {
    FRAME_TYPE_BYTES + |payload| <= FRAME_LENGTH_CAP
  }

  function Wire(f: Frame): (bytes: seq<Byte>)
    requires Encodable(f.payload)
    ensures |bytes| == FRAME_HEADER_BYTES + FRAME_TYPE_BYTES + |f.payload|
  {
    EncodeFrame(TypeByte(f.lane), f.payload).value
  }

  predicate AllEncodable(fs: seq<Frame>) {
    forall f <- fs :: Encodable(f.payload)
  }

  function WireAll(fs: seq<Frame>): seq<Byte>
    requires AllEncodable(fs)
  {
    if fs == [] then [] else Wire(fs[0]) + WireAll(fs[1..])
  }

  lemma {:induction false} WireAllAppend(a: seq<Frame>, b: seq<Frame>)
    requires AllEncodable(a) && AllEncodable(b)
    ensures WireAll(a + b) == WireAll(a) + WireAll(b)
  {
    hide Wire;
    if a == [] {
      assert a + b == b;
    } else {
      assert (a + b)[1..] == a[1..] + b;
      WireAllAppend(a[1..], b);
    }
  }

  // What one turn of the parse loop finds at the front of the unread bytes.
  datatype Head = Incomplete | Bad(error: ProtocolError) | Good(frame: Frame, wireLength: nat)

  function ScanHead(s: seq<Byte>): (h: Head)
    ensures h.Good? ==> FRAME_HEADER_BYTES < h.wireLength <= |s|
    ensures h.Good? ==> |h.frame.payload| + FRAME_HEADER_BYTES + FRAME_TYPE_BYTES == h.wireLength
  {
    if |s| < FRAME_HEADER_BYTES then Incomplete
    else
      var frameLength := ReadU32Le(s);
      match LengthError(frameLength)
      case Some(e) => Bad(e)
      case None =>
        if |s| >= FRAME_HEADER_BYTES + FRAME_TYPE_BYTES && ToFrameType(s[FRAME_HEADER_BYTES]).Err? then
          Bad(ToFrameType(s[FRAME_HEADER_BYTES]).error)
        else
          var wireLength := FRAME_HEADER_BYTES + frameLength;
          if |s| < wireLength then Incomplete
          else
            Good(Frame(ToFrameType(s[FRAME_HEADER_BYTES]).value, s[FRAME_HEADER_BYTES + FRAME_TYPE_BYTES..wireLength]),
                 wireLength)
  }

  // The whole loop: the frames read, the unread bytes, and the error that stopped it, if any.
  datatype Outcome = Outcome(frames: seq<Frame>, rest: seq<Byte>, error: Option<ProtocolError>)

  function Prepend(fs: seq<Frame>, o: Outcome): Outcome {
    Outcome(fs + o.frames, o.rest, o.error)
  }

  function Parse(s: seq<Byte>): Outcome
    decreases |s|
  {
    match ScanHead(s)
    case Incomplete => Outcome([], s, None)
    case Bad(e) => Outcome([], s, Some(e))
    case Good(f, n) => Prepend([f], Parse(s[n..]))
  }

  // Once the head of the input is decided, more input does not change the decision.
  lemma ScanHeadExtends(s: seq<Byte>, t: seq<Byte>)
    requires ScanHead(s) != Incomplete
    ensures ScanHead(s + t) == ScanHead(s)
  {
    if ScanHead(s).Good? {
      var n := ScanHead(s).wireLength;
      assert (s + t)[5..n] == s[5..n];
    }
  }

  lemma PrependTwice(a: seq<Frame>, b: seq<Frame>, o: Outcome)
    ensures Prepend(a, Prepend(b, o)) == Prepend(a + b, o)
  {
    assert a + (b + o.frames) == (a + b) + o.frames;
  }

  // Parsing in two steps gives what parsing at once gives; an error found stays where it is.
  lemma {:induction false} ParseExtends(s: seq<Byte>, t: seq<Byte>)
    ensures Parse(s).error.Some? ==>
              Parse(s + t).frames == Parse(s).frames && Parse(s + t).error == Parse(s).error
    ensures Parse(s).error.None? ==>
              Parse(s + t) == Prepend(Parse(s).frames, Parse(Parse(s).rest + t))
    decreases |s|
  {
    hide ScanHead;
    match ScanHead(s)
    case Incomplete =>
    case Bad(e) => ScanHeadExtends(s, t);
    case Good(f, n) =>
      assert (s + t)[n..] == s[n..] + t;
      ScanHeadExtends(s, t);
      ParseExtends(s[n..], t);
      PrependTwice([f], Parse(s[n..]).frames, Parse(Parse(s).rest + t));
  }

  lemma ScanHeadOfWire(f: Frame, t: seq<Byte>)
    requires Encodable(f.payload)
    ensures ScanHead(Wire(f) + t) == Good(f, |Wire(f)|)
  {
    var s := Wire(f) + t;
    assert s[..4] == WriteU32Le(1 + |f.payload|);
    assert ReadU32Le(s) == ReadU32Le(s[..4]);
    assert s[5..|Wire(f)|] == f.payload;
  }

  // A frame that has arrived only in part yields nothing and no error.
  lemma ScanHeadOfPartial(f: Frame, n: nat)
    requires Encodable(f.payload) && n < |Wire(f)|
    ensures ScanHead(Wire(f)[..n]) == Incomplete
  {
    ScanHeadOfWire(f, []);
    assert Wire(f) + [] == Wire(f);
    var s := Wire(f)[..n];
    if n >= 4 {
      assert ReadU32Le(s) == ReadU32Le(Wire(f));
    }
  }

  lemma ParseOneWire(f: Frame, u: seq<Byte>)
    requires Encodable(f.payload)
    ensures Parse(Wire(f) + u) == Prepend([f], Parse(u))
  {
    hide ScanHead, Wire;
    var w := Wire(f);
    ScanHeadOfWire(f, u);
    assert (w + u)[|w|..] == u;
  }

  // The parser undoes the printer, whatever follows on the wire.
  lemma {:induction false} ParseOfWire(fs: seq<Frame>, t: seq<Byte>)
    requires AllEncodable(fs)
    ensures Parse(WireAll(fs) + t) == Prepend(fs, Parse(t))
  {
    if fs == [] {
      assert WireAll(fs) + t == t;
    } else {
      var w, u := Wire(fs[0]), WireAll(fs[1..]) + t;
      assert WireAll(fs) + t == w + u;
      assert [fs[0]] + fs[1..] == fs;
      hide Parse, Wire, WireAll, Prepend;
      ParseOneWire(fs[0], u);
      ParseOfWire(fs[1..], t);
      PrependTwice([fs[0]], fs[1..], Parse(t));
    }
  }

  // A Good head is the wire form of its frame.
  lemma WireOfScanHead(s: seq<Byte>)
    requires ScanHead(s).Good?
    ensures Encodable(ScanHead(s).frame.payload)
    ensures s[..ScanHead(s).wireLength] == Wire(ScanHead(s).frame)
  {
    var n := ScanHead(s).wireLength;
    var w := Wire(ScanHead(s).frame);
    var v := ReadU32Le(s);
    assert ReadU32Le(w[..4]) == v;
    U32Injective(s[..4], w[..4]);
    assert w == w[..4] + [w[4]] + w[5..];
    assert s[..n] == s[..4] + [s[4]] + s[5..n];
  }

  lemma DigitsInjective(a: int, x: int, b: int, y: int)
    requires 0 <= a < 0x100 && 0 <= b < 0x100 && a + 0x100 * x == b + 0x100 * y
    ensures a == b && x == y
  {}

  lemma U32Injective(a: seq<Byte>, b: seq<Byte>)
    requires |a| == 4 && |b| == 4 && ReadU32Le(a) == ReadU32Le(b)
    ensures a == b
  {
    var a2, b2 := a[2] as int + 0x100 * (a[3] as int), b[2] as int + 0x100 * (b[3] as int);
    DigitsInjective(a[0] as int, a[1] as int + 0x100 * a2, b[0] as int, b[1] as int + 0x100 * b2);
    DigitsInjective(a[1] as int, a2, b[1] as int, b2);
    DigitsInjective(a[2] as int, a[3] as int, b[2] as int, b[3] as int);
  }

  // The printer undoes the parser: nothing on the wire is lost, reordered or invented, even when
  // the loop stops at a protocol error.
  lemma {:induction false} WireOfParse(s: seq<Byte>)
    ensures AllEncodable(Parse(s).frames)
    ensures s == WireAll(Parse(s).frames) + Parse(s).rest
    decreases |s|
  {
    hide ScanHead, Wire;
    if ScanHead(s).Good? {
      var n := ScanHead(s).wireLength;
      assert s == s[..n] + s[n..];
      assert Parse(s).frames[1..] == Parse(s[n..]).frames;
      WireOfScanHead(s);
      WireOfParse(s[n..]);
    }
  }

  // The unread bytes of an error-free parse are one frame that is not complete yet.
  lemma {:induction false} RestIsIncomplete(s: seq<Byte>)
    ensures match Parse(s).error
            case None => ScanHead(Parse(s).rest) == Incomplete
            case Some(e) => ScanHead(Parse(s).rest) == Bad(e)
    decreases |s|
  {
    hide ScanHead;
    if ScanHead(s).Good? {
      RestIsIncomplete(s[ScanHead(s).wireLength..]);
    }
  }

  // The bytes on the wire: the length of what follows, least significant byte first, then 1 for an MCP
  // frame and 2 for a CTRL frame, then the payload.
  lemma WireBytes(f: Frame)
    requires Encodable(f.payload)
    ensures var n, bytes := |f.payload| + 1, Wire(f);
            && bytes[0] as int == n % 256 && bytes[1] as int == n / 256 % 256
            && bytes[2] as int == n / 65536 % 256 && bytes[3] as int == n / 16777216
            && bytes[4] == (if f.lane == Mcp then 1 else 2)
            && bytes[5..] == f.payload
  {
  }

  // Every payload of up to 16 MiB less one byte is framed; a longer one, or another type, is refused by name.
  lemma FramesExactly(typeByte: Byte, payload: seq<Byte>)
    ensures EncodeFrame(typeByte, payload) ==
            if typeByte != 1 && typeByte != 2 then Err(FrameUnknownType(typeByte))
            else if |payload| + 1 > 16 * 1024 * 1024 then Err(FrameLengthTooLarge(|payload| + 1))
            else Ok(Wire(Frame(if typeByte == 1 then Mcp else Ctrl, payload)))
  {
  }
}
