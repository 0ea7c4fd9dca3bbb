// FrameDecoder of uds_frame.ts: the grow-and-compact buffer, what a stream of pushes delivers
// for any cutting of the wire into chunks, and how many bytes the buffer moves.
module FrameDecoding {
  import opened Wrappers
  import opened FrameCodec

  type Delivery = Result<seq<Frame>, ProtocolError>

  // The decoder seen from outside: the bytes it holds, the capacity of its buffer, and the
  // number of bytes copied so far by append, growth, compaction and payload slicing.
  datatype Store = Store(pending: seq<Byte>, capacity: nat, moved: nat)

  const EmptyStore := Store([], 0, 0)

  function Max(a: int, b: int): int { if a > b then a else b }

  function GrownCapacity(capacity: nat, len: nat, chunk: nat): nat {
    if chunk > 0 && len + chunk > capacity then Max(Max(capacity * 2, len + chunk), 64) else capacity
  }

  function GrowthCost(capacity: nat, len: nat, chunk: nat): nat {
    if chunk > 0 && len + chunk > capacity then len else 0
  }

  function PayloadBytes(fs: seq<Frame>): nat {
    if fs == [] then 0 else |fs[0].payload| + PayloadBytes(fs[1..])
  }

  // One push. A protocol error leaves the appended bytes in the buffer.
  function PushStep(s: Store, chunk: seq<Byte>): (Store, Delivery) {
    var all := s.pending + chunk;
    var o := Parse(all);
    var capacity := GrownCapacity(s.capacity, |s.pending|, |chunk|);
    var moved := s.moved + GrowthCost(s.capacity, |s.pending|, |chunk|) + |chunk| + PayloadBytes(o.frames);
    match o.error
    case Some(e) => (Store(all, capacity, moved), Err(e))
    case None =>
      (Store(o.rest, capacity, moved + if o.frames == [] then 0 else |o.rest|), Ok(o.frames))
  }

  class FrameDecoder {
    var buf: array<Byte>
    var len: nat
    ghost var moved: nat

    ghost predicate Valid() reads this { len <= buf.Length }

    ghost function Now(): Store
      reads this, buf
      requires Valid()
    {
      Store(buf[..len], buf.Length, moved)
    }

    constructor ()
      ensures Valid() && fresh(buf) && Now() == EmptyStore
    {
      buf := new Byte[0];
      len, moved := 0, 0;
    }

    method Append(chunk: seq<Byte>)
      requires Valid()
      modifies this, buf
      ensures Valid() && (buf == old(buf) || fresh(buf))
      ensures buf[..len] == old(buf[..len]) + chunk
      ensures buf.Length == GrownCapacity(old(buf.Length), old(len), |chunk|)
      ensures moved == old(moved) + GrowthCost(old(buf.Length), old(len), |chunk|) + |chunk|
    {
      if |chunk| > 0 {
        if len + |chunk| > buf.Length {
          var capacity := Max(Max(buf.Length * 2, len + |chunk|), 64);
          var grown := new Byte[capacity];
          forall i | 0 <= i < len { grown[i] := buf[i]; }
          assert grown[..len] == buf[..len];
          buf := grown;
          moved := moved + len;
        }
        ghost var before := buf[..len];
        forall i | 0 <= i < |chunk| { buf[len + i] := chunk[i]; }
        assert buf[..len + |chunk|] == before + chunk;
        len := len + |chunk|;
        moved := moved + |chunk|;
      } else {
        assert old(buf[..len]) + chunk == buf[..len];
      }
    }

    method Compact(offset: nat)
      requires Valid() && offset <= len
      modifies this, buf
      ensures Valid() && buf == old(buf)
      ensures buf[..len] == old(buf[offset..len])
      ensures moved == old(moved) + if offset > 0 then len else 0
    {
      if offset > 0 {
        forall i | 0 <= i < len - offset { buf[i] := buf[offset + i]; }
        assert buf[..len - offset] == old(buf[offset..len]);
        len := len - offset;
        moved := moved + len;
      }
    }

    // The parse loop: the complete frames at the front of the buffer, and where they end.
    method ReadFrames() returns (delivery: Delivery, offset: nat, ghost sliced: nat)
      requires Valid()
      ensures var o := Parse(buf[..len]);
              match o.error
              case Some(e) => delivery == Err(e)
              case None =>
                delivery == Ok(o.frames) && offset <= len && o.rest == buf[offset..len] &&
                (offset == 0 <==> o.frames == [])
      ensures sliced == PayloadBytes(Parse(buf[..len]).frames)
    {
      hide ScanHead;
      var frames: seq<Frame> := [];
      offset, sliced := 0, 0;
      ghost var all := buf[..len];
      assert all[0..] == all && frames + [] == frames;
      while len - offset >= FRAME_HEADER_BYTES
        invariant 0 <= offset <= len
        invariant Parse(all) == Prepend(frames, Parse(all[offset..]))
        invariant sliced == PayloadBytes(frames)
        invariant frames + [] == frames && (offset == 0 <==> frames == [])
      {
        var unread := buf[offset..len];
        assert unread == all[offset..] && frames + [] == frames;
        match ScanHead(unread)
        case Incomplete => break;
        case Bad(e) => return Err(e), offset, sliced;
        case Good(f, wireLength) =>
          StepAt(all, frames, offset, f, wireLength);
          PayloadBytesAppend(frames, [f]);
          frames := frames + [f];
          sliced := sliced + |f.payload|;
          offset := offset + wireLength;
      }
      if len - offset < FRAME_HEADER_BYTES { ShortIsIncomplete(all[offset..]); }
      delivery := Ok(frames);
    }

    method Push(chunk: seq<Byte>) returns (delivery: Delivery)
      requires Valid()
      modifies this, buf
      ensures Valid() && (buf == old(buf) || fresh(buf))
      ensures (Now(), delivery) == PushStep(old(Now()), chunk)
    {
      hide ScanHead, Parse, PayloadBytes, GrownCapacity, GrowthCost;
      Append(chunk);
      ghost var all := buf[..len];
      assert all == old(Now().pending) + chunk;
      var offset: nat;
      ghost var sliced: nat;
      delivery, offset, sliced := ReadFrames();
      moved := moved + sliced;
      if delivery.Ok? {
        assert Parse(all).error.None?;
        Compact(offset);
        assert buf[..len] == Parse(all).rest;
      }
    }

    method Finish()
      requires Valid()
      modifies this
      ensures Valid() && buf == old(buf) && Now() == old(Now()).(pending := [])
    {
      len := 0;
    }
  }

  lemma ShortIsIncomplete(s: seq<Byte>)
    requires |s| < FRAME_HEADER_BYTES
    ensures ScanHead(s) == Incomplete
  {}

  lemma StepAt(all: seq<Byte>, frames: seq<Frame>, offset: nat, f: Frame, n: nat)
    requires offset + n <= |all|
    requires Parse(all) == Prepend(frames, Parse(all[offset..]))
    requires ScanHead(all[offset..]) == Good(f, n)
    ensures Parse(all) == Prepend(frames + [f], Parse(all[offset + n..]))
  {
    hide ScanHead;
    assert all[offset..][n..] == all[offset + n..];
    PrependTwice(frames, [f], Parse(all[offset + n..]));
  }

  lemma {:induction false} PayloadBytesAppend(a: seq<Frame>, b: seq<Frame>)
    ensures PayloadBytes(a + b) == PayloadBytes(a) + PayloadBytes(b)
  {
    if a == [] {
      assert a + b == b;
    } else {
      assert (a + b)[1..] == a[1..] + b;
      PayloadBytesAppend(a[1..], b);
    }
  }

  // ---- What a run of pushes delivers ----

  // Between pushes an undamaged decoder holds at most one incomplete frame.
  predicate Quiescent(s: Store) {
    ScanHead(s.pending) == Incomplete
  }

  // Pushing chunks until one of them raises a protocol error.
  function Feed(s: Store, chunks: seq<seq<Byte>>): (Store, seq<Frame>, Option<ProtocolError>)
    decreases |chunks|
  {
    if chunks == [] then (s, [], None)
    else
      match PushStep(s, chunks[0])
      case (s', Err(e)) => (s', [], Some(e))
      case (s', Ok(fs)) => var (t, more, e) := Feed(s', chunks[1..]); (t, fs + more, e)
  }

  lemma PushKeepsQuiescent(s: Store, chunk: seq<Byte>)
    requires PushStep(s, chunk).1.Ok?
    ensures Quiescent(PushStep(s, chunk).0)
  {
    RestIsIncomplete(s.pending + chunk);
  }

  // The cutting of the wire into chunks is invisible: without an error exactly the frames of the
  // whole input are delivered and exactly its unread tail is held; an error is raised exactly when
  // the whole input has one, it is that error, and what was delivered before it is a prefix.
  lemma {:induction false} ChunkingIsInvisible(s: Store, chunks: seq<seq<Byte>>)
    requires Quiescent(s)
    ensures var (t, fs, e) := Feed(s, chunks);
            var whole := Parse(s.pending + Concat(chunks));
            e == whole.error && fs <= whole.frames &&
            (e.None? ==> fs == whole.frames && t.pending == whole.rest)
    decreases |chunks|
  {
    hide ScanHead;
    if chunks == [] {
      assert s.pending + [] == s.pending;
      assert Parse(s.pending) == Outcome([], s.pending, None);
    } else {
      var all, later := s.pending + chunks[0], Concat(chunks[1..]);
      assert s.pending + Concat(chunks) == all + later;
      ParseExtends(all, later);
      if PushStep(s, chunks[0]).1.Ok? {
        PushKeepsQuiescent(s, chunks[0]);
        ChunkingIsInvisible(PushStep(s, chunks[0]).0, chunks[1..]);
      }
    }
  }

  // After a protocol error the decoder raises the same error at every push until finish().
  lemma ErrorIsSticky(s: Store, chunk: seq<Byte>, next: seq<Byte>)
    requires PushStep(s, chunk).1.Err?
    ensures PushStep(PushStep(s, chunk).0, next).1 == PushStep(s, chunk).1
  {
    ParseExtends(s.pending + chunk, next);
  }

  // Cutting does matter to one thing: complete frames that share their last chunk with a later
  // protocol error are lost with it, while cut before the error they are delivered.
  lemma FramesBesideAnErrorAreLost(f: Frame, bad: seq<Byte>)
    requires Encodable(f.payload) && ScanHead(bad).Bad?
    ensures Feed(EmptyStore, [Wire(f) + bad]).1 == []
    ensures Feed(EmptyStore, [Wire(f), bad]).1 == [f]
    ensures Parse(Wire(f) + bad).frames == [f]
  {
    hide ScanHead, Wire;
    assert WireAll([f]) == Wire(f) + WireAll([]) == Wire(f);
    ParseOfWire([f], bad);
    ParseOfWire([f], []);
    assert WireAll([f]) + [] == Wire(f) && [f] + [] == [f] && [] + bad == bad;
    assert Parse([]) == Outcome([], [], None) by { ShortIsIncomplete([]); }
    assert [] + (Wire(f) + bad) == Wire(f) + bad && [] + Wire(f) == Wire(f);
    var s := PushStep(EmptyStore, Wire(f)).0;
    assert s.pending == [] && PushStep(s, bad).1.Err?;
    assert [Wire(f), bad][1..] == [bad];
  }

  // ---- How many bytes a run of pushes moves ----

  lemma {:induction false} PayloadsFitInWire(s: seq<Byte>)
    ensures PayloadBytes(Parse(s).frames) + |Parse(s).rest| <= |s|
    ensures Parse(s).frames != [] ==> PayloadBytes(Parse(s).frames) + |Parse(s).rest| < |s|
    decreases |s|
  {
    if ScanHead(s).Good? {
      PayloadsFitInWire(s[ScanHead(s).wireLength..]);
      assert Parse(s).frames[1..] == Parse(s[ScanHead(s).wireLength..]).frames;
    }
  }

  // An incomplete frame is finished only by bytes of the chunk being pushed, so whatever is left
  // after reading a frame lies inside that chunk: compaction never copies old bytes again.
  lemma RemainderLiesInChunk(pending: seq<Byte>, chunk: seq<Byte>)
    requires ScanHead(pending) == Incomplete && Parse(pending + chunk).frames != []
    ensures |Parse(pending + chunk).rest| <= |chunk|
  {
    var all := pending + chunk;
    var n := ScanHead(all).wireLength;
    PayloadsFitInWire(all[n..]);
    assert n > |pending|;
  }

  // The accounting that one push keeps: n is the number of input bytes so far.
  predicate Thrifty(s: Store, n: nat) {
    && |s.pending| <= n && |s.pending| <= s.capacity <= 2 * n + 64
    && s.moved + |s.pending| <= 3 * n + s.capacity
  }

  lemma PushIsThrifty(s: Store, chunk: seq<Byte>, n: nat)
    requires Quiescent(s) && Thrifty(s, n) && PushStep(s, chunk).1.Ok?
    ensures Thrifty(PushStep(s, chunk).0, n + |chunk|)
  {
    hide ScanHead, PayloadBytes;
    var all := s.pending + chunk;
    PayloadsFitInWire(all);
    if Parse(all).frames != [] { RemainderLiesInChunk(s.pending, chunk); }
    if Parse(all).frames == [] { assert PayloadBytes([]) == 0; }
  }

  // Any error-free run on N input bytes moves at most 5N + 64 bytes.
  lemma {:induction false} LinearCost(s: Store, chunks: seq<seq<Byte>>, n: nat)
    requires Quiescent(s) && Thrifty(s, n) && Feed(s, chunks).2.None?
    ensures Feed(s, chunks).0.moved <= 5 * (n + |Concat(chunks)|) + 64
    ensures Thrifty(Feed(s, chunks).0, n + |Concat(chunks)|)
    decreases |chunks|
  {
    hide ScanHead, Parse, PayloadBytes;
    if chunks != [] {
      PushKeepsQuiescent(s, chunks[0]);
      PushIsThrifty(s, chunks[0], n);
      LinearCost(PushStep(s, chunks[0]).0, chunks[1..], n + |chunks[0]|);
    }
  }

  lemma LinearCostFromStart(chunks: seq<seq<Byte>>)
    requires Feed(EmptyStore, chunks).2.None?
    ensures Feed(EmptyStore, chunks).0.moved <= 5 * |Concat(chunks)| + 64
  {
    LinearCost(EmptyStore, chunks, 0);
  }
}
