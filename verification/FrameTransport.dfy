// End to end: a FrameWriter on one side of the wire, a FrameDecoder on the other, any schedule of
// enqueues, resumes and short writes, and any cutting of the wire into chunks.
module FrameTransport {
  import opened Wrappers
  import opened FrameCodec
  import opened FrameDecoding
  import W = FrameWriting

  // Every byte the socket took reads back as the frames written in full, in order, and one
  // incomplete frame; there is never a protocol error.
  lemma AcceptedParses(c: W.Config, s: W.System)
    requires W.Inv(c, s)
    ensures Parse(s.h.accepted) == Outcome(s.h.done, W.Partial(s.h.last), None)
  {
    hide Wire, ScanHead, WireAll;
    var partial := W.Partial(s.h.last);
    ParseOfWire(s.h.done, partial);
    if s.h.last.Some? {
      ScanHeadOfPartial(s.h.last.value.frame, s.h.last.value.offset);
    } else {
      ShortIsIncomplete(partial);
    }
    assert s.h.done + [] == s.h.done;
  }

  // The decoder delivers a prefix of the frames written, so in each lane a prefix of the payloads
  // enqueued, in enqueue order; once all the wire has been read it holds exactly the frame in flight.
  lemma EndToEnd(c: W.Config, es: seq<W.Event>, chunks: seq<seq<Byte>>, unread: seq<Byte>)
    requires c.Valid()
    requires W.Run(c, W.Start, es).h.accepted == Concat(chunks) + unread
    ensures var h := W.Run(c, W.Start, es).h;
            var (store, delivered, error) := Feed(EmptyStore, chunks);
            && error.None?
            && delivered <= h.done
            && (forall lane :: W.InLane(lane, delivered) <= W.InLane(lane, h.enqueued))
            && (unread == [] ==> delivered == h.done && store.pending == W.Partial(h.last))
  {
    hide Parse, Wire, W.Step, W.Inv, W.InLane, W.Partial;
    var s := W.Run(c, W.Start, es);
    W.StartInv(c);
    W.RunKeepsInv(c, W.Start, es);
    AcceptedParses(c, s);
    var wire := Concat(chunks);
    assert EmptyStore.pending + wire == wire;
    assert unread == [] ==> wire + unread == wire;
    ShortIsIncomplete([]);
    ChunkingIsInvisible(EmptyStore, chunks);
    ParseExtends(wire, unread);
    var delivered := Feed(EmptyStore, chunks).1;
    forall lane ensures W.InLane(lane, delivered) <= W.InLane(lane, s.h.enqueued) {
      W.InLaneMonotone(lane, delivered, s.h.done);
      W.WrittenInOrder(c, s, lane);
    }
  }

  // When drain() has nothing to wait for, a receiver that has read the wire has every payload.
  lemma DrainedMeansDelivered(c: W.Config, es: seq<W.Event>, chunks: seq<seq<Byte>>)
    requires c.Valid()
    requires var s := W.Run(c, W.Start, es); W.Written(s.w) && s.h.accepted == Concat(chunks)
    ensures forall lane :: W.InLane(lane, Feed(EmptyStore, chunks).1) == W.InLane(lane, W.Run(c, W.Start, es).h.enqueued)
  {
    hide W.Step, W.Inv, W.InLane, Feed;
    assert Concat(chunks) + [] == Concat(chunks);
    EndToEnd(c, es, chunks, []);
    W.StartInv(c);
    W.RunKeepsInv(c, W.Start, es);
    W.NothingPendingMeansAllWritten(c, W.Run(c, W.Start, es));
  }
}
