// FrameWriter of uds_frame.ts: two lanes, one frame on the wire at a time, and a socket that may
// accept any part of what it is offered.
module FrameWriting {
  import opened Wrappers
  import opened FrameCodec

  const FRAME_WRITER_MAX_CHUNK := 256 * 1024

  // A frame that encodeFrame has accepted; its bytes are Wire(frame).
  type SendFrame = f: Frame | Encodable(f.payload) witness Frame(Mcp, [])

  datatype Item = Item(frame: SendFrame, offset: nat)

  datatype Config = Config(highWater: nat, chunkSize: nat, maxBytes: Option<int>) {
    predicate Valid() { highWater >= 1 && 1 <= chunkSize <= FRAME_WRITER_MAX_CHUNK }
  }

  // What write() does with the unit it is given. NotFinite and Threw carry no byte count.
  datatype Reply = Accepted(n: int) | Void | NotFinite | Threw

  datatype Writer = Writer(
    ctrlQueue: seq<Item>, mcpQueue: seq<Item>,
    currentCtrl: Option<Item>, currentMcp: Option<Item>,
    pendingItems: int, queuedBytes: int,
    pumping: bool, paused: bool, failed: bool,
    idleWaiters: seq<nat>)

  // What the outside has seen: the bytes the socket took, the frames put in the queues and the
  // frames written to the end, the frame last worked on, and the drain() calls that settled.
  datatype History = History(
    accepted: seq<Byte>, enqueued: seq<SendFrame>, done: seq<SendFrame>,
    last: Option<Item>, settled: seq<(nat, bool)>)

  datatype System = System(w: Writer, h: History)

  const Start := System(
    Writer([], [], None, None, 0, 0, false, false, false, []),
    History([], [], [], None, []))

  // ---- The operations ----

  function Settle(ids: seq<nat>, ok: bool): seq<(nat, bool)> {
    seq(|ids|, i requires 0 <= i < |ids| => (ids[i], ok))
  }

  function Fail(s: System): System {
    System(Writer([], [], None, None, 0, 0, false, false, true, []),
           s.h.(settled := s.h.settled + Settle(s.w.idleWaiters, false)))
  }

  datatype EnqueueResult = Queued | Overflow | ThrowsFailure | ThrowsProtocolError(error: ProtocolError)

  predicate Overflows(c: Config, w: Writer, frameBytes: nat) {
    w.pendingItems >= c.highWater || (c.maxBytes.Some? && w.queuedBytes + frameBytes > c.maxBytes.value)
  }

  function Schedule(w: Writer): Writer {
    if w.pumping || w.failed || w.paused then w else w.(pumping := true)
  }

  function Put(w: Writer, f: SendFrame): Writer {
    var w1 := if f.lane.Ctrl? then w.(ctrlQueue := w.ctrlQueue + [Item(f, 0)])
              else w.(mcpQueue := w.mcpQueue + [Item(f, 0)]);
    w1.(pendingItems := w.pendingItems + 1, queuedBytes := w.queuedBytes + |Wire(f)|)
  }

  function Enqueued(c: Config, s: System, lane: Lane, payload: seq<Byte>): (System, EnqueueResult) {
    if s.w.failed then (s, ThrowsFailure)
    else
      match EncodeFrame(TypeByte(lane), payload)
      case Err(e) => (s, ThrowsProtocolError(e))
      case Ok(bytes) =>
        if Overflows(c, s.w, |bytes|) then (Fail(s), Overflow)
        else
          var f := Frame(lane, payload);
          (System(Schedule(Put(s.w, f)), s.h.(enqueued := s.h.enqueued + [f])), Queued)
  }

  function Resumed(s: System): System {
    if s.w.paused && !s.w.failed then s.(w := Schedule(s.w.(paused := false))) else s
  }

  function Drained(s: System, id: nat): System {
    if s.w.failed then s.(h := s.h.(settled := s.h.settled + [(id, false)]))
    else if !s.w.pumping && !s.w.paused && s.w.pendingItems == 0 then
      s.(h := s.h.(settled := s.h.settled + [(id, true)]))
    else s.(w := s.w.(idleWaiters := s.w.idleWaiters + [id]))
  }

  function Closed(s: System): System {
    if s.w.failed then s else Fail(s)
  }

  // Which frame the pump works on: one in progress, else the first CTRL, else the first MCP.
  function Select(w: Writer): Writer {
    if w.currentCtrl.Some? || w.currentMcp.Some? then w
    else if w.ctrlQueue != [] then w.(currentCtrl := Some(w.ctrlQueue[0]), ctrlQueue := w.ctrlQueue[1..])
    else if w.mcpQueue != [] then w.(currentMcp := Some(w.mcpQueue[0]), mcpQueue := w.mcpQueue[1..])
    else w
  }

  function Current(w: Writer): Option<Item> {
    if w.currentCtrl.Some? then w.currentCtrl else w.currentMcp
  }

  function SetCurrent(w: Writer, item: Option<Item>): Writer {
    if w.currentCtrl.Some? then w.(currentCtrl := item) else w.(currentMcp := item)
  }

  function Unit(c: Config, item: Item): seq<Byte> {
    var bytes := Wire(item.frame);
    if item.offset <= |bytes| && item.offset + c.chunkSize <= |bytes| then
      bytes[item.offset..item.offset + c.chunkSize]
    else if item.offset <= |bytes| then bytes[item.offset..]
    else []
  }

  // The number of bytes taken, or None where the pump throws.
  function Taken(unit: seq<Byte>, r: Reply): Option<int> {
    match r
    case Void => Some(|unit|)
    case Accepted(n) => if 0 <= n <= |unit| then Some(n) else None
    case NotFinite => None
    case Threw => None
  }

  function Idle(s: System): System {
    var w := s.w.(pumping := false);
    if w.pendingItems != 0 then s.(w := w)
    else System(w.(idleWaiters := []), s.h.(settled := s.h.settled + Settle(w.idleWaiters, true)))
  }

  function Advance(s: System, item: Item, unit: seq<Byte>, n: nat): System
    requires n <= |unit|
  {
    var item' := item.(offset := item.offset + n);
    var w1 := SetCurrent(s.w, Some(item')).(queuedBytes := s.w.queuedBytes - n);
    var h := s.h.(accepted := s.h.accepted + unit[..n], last := Some(item'));
    if n < |unit| then System(w1.(paused := true, pumping := false), h)
    else if item'.offset >= |Wire(item.frame)| then
      System(SetCurrent(w1, None).(pendingItems := s.w.pendingItems - 1),
             h.(done := h.done + [item.frame], last := None))
    else System(w1, h)
  }

  // One turn of the pump loop.
  function Turn(c: Config, s: System, r: Reply): System {
    var t := s.(w := Select(s.w));
    match Current(t.w)
    case None => Idle(t)
    case Some(item) =>
      var unit := Unit(c, item);
      match Taken(unit, r)
      case None => Fail(t)
      case Some(n) => Advance(t, item, unit, n)
  }

  datatype Event =
    | EnqueueEvent(lane: Lane, payload: seq<Byte>)
    | TurnEvent(reply: Reply)
    | ResumeEvent
    | DrainEvent(id: nat)
    | CloseEvent

  function Step(c: Config, s: System, e: Event): System {
    match e
    case EnqueueEvent(lane, payload) => Enqueued(c, s, lane, payload).0
    case TurnEvent(reply) => if s.w.pumping then Turn(c, s, reply) else s
    case ResumeEvent => Resumed(s)
    case DrainEvent(id) => Drained(s, id)
    case CloseEvent => Closed(s)
  }

  function Run(c: Config, s: System, es: seq<Event>): System {
    if es == [] then s else Step(c, Run(c, s, es[..|es| - 1]), es[|es| - 1])
  }

  // ---- What every operation keeps ----

  function FramesOf(items: seq<Item>): seq<SendFrame> {
    if items == [] then [] else [items[0].frame] + FramesOf(items[1..])
  }

  function InLane(lane: Lane, fs: seq<Frame>): seq<Frame> {
    if fs == [] then []
    else (if fs[0].lane == lane then [fs[0]] else []) + InLane(lane, fs[1..])
  }

  function BytesOf(items: seq<Item>): nat {
    if items == [] then 0 else |Wire(items[0].frame)| + BytesOf(items[1..])
  }

  function CurrentFrames(item: Option<Item>): seq<SendFrame> {
    if item.Some? then [item.value.frame] else []
  }

  function CurrentBytes(item: Option<Item>): int {
    if item.Some? then |Wire(item.value.frame)| - item.value.offset else 0
  }

  predicate Unstarted(lane: Lane, items: seq<Item>) {
    forall i <- items :: i.frame.lane == lane && i.offset == 0
  }

  predicate Started(lane: Lane, item: Option<Item>) {
    item.Some? ==> item.value.frame.lane == lane && item.value.offset < |Wire(item.value.frame)|
  }

  predicate QueuesValid(w: Writer) {
    && Unstarted(Ctrl, w.ctrlQueue) && Unstarted(Mcp, w.mcpQueue)
    && Started(Ctrl, w.currentCtrl) && Started(Mcp, w.currentMcp)
    && (w.currentCtrl.None? || w.currentMcp.None?)
  }

  // The counters are the real remainder and stay within the limits.
  predicate CountersValid(c: Config, w: Writer) {
    && w.pendingItems == |w.ctrlQueue| + |w.mcpQueue| + |CurrentFrames(w.currentCtrl)| + |CurrentFrames(w.currentMcp)|
    && w.queuedBytes == BytesOf(w.ctrlQueue) + BytesOf(w.mcpQueue) + CurrentBytes(w.currentCtrl) + CurrentBytes(w.currentMcp)
    && w.pendingItems <= c.highWater
    && (c.maxBytes.Some? ==> w.queuedBytes <= c.maxBytes.value || w.queuedBytes == 0)
  }

  // Not pumping and not waiting for the socket means nothing is left to write.
  predicate ModesValid(w: Writer) {
    && !(w.pumping && w.paused)
    && (!w.pumping && !w.paused ==> w.pendingItems == 0 && w.idleWaiters == [])
    && (w.failed ==> !w.pumping && !w.paused && w.pendingItems == 0)
  }

  function Partial(item: Option<Item>): seq<Byte> {
    if item.Some? && item.value.offset <= |Wire(item.value.frame)| then Wire(item.value.frame)[..item.value.offset] else []
  }

  function Waiting(w: Writer, lane: Lane): seq<SendFrame> {
    if lane.Ctrl? then CurrentFrames(w.currentCtrl) + FramesOf(w.ctrlQueue)
    else CurrentFrames(w.currentMcp) + FramesOf(w.mcpQueue)
  }

  // Each lane is written in the order of its enqueues; a failure drops the frames not yet written.
  predicate LaneValid(s: System, lane: Lane) {
    if s.w.failed then InLane(lane, s.h.done) <= InLane(lane, s.h.enqueued)
    else InLane(lane, s.h.enqueued) == InLane(lane, s.h.done) + Waiting(s.w, lane)
  }

  // The wire carries whole frames and one frame in part.
  predicate WireValid(s: System) {
    && (s.h.last.Some? ==> s.h.last.value.offset < |Wire(s.h.last.value.frame)|)
    && s.h.accepted == WireAll(s.h.done) + Partial(s.h.last)
    && (!s.w.failed ==> Partial(s.h.last) == Partial(Current(s.w)))
  }

  predicate BooksValid(c: Config, w: Writer) {
    QueuesValid(w) && CountersValid(c, w) && ModesValid(w)
  }

  predicate Inv(c: Config, s: System) {
    BooksValid(c, s.w) && WireValid(s) && LaneValid(s, Ctrl) && LaneValid(s, Mcp)
  }

  lemma StartInv(c: Config)
    requires c.Valid()
    ensures Inv(c, Start)
  {}

  lemma {:induction false} InLaneAppend(lane: Lane, a: seq<Frame>, b: seq<Frame>)
    ensures InLane(lane, a + b) == InLane(lane, a) + InLane(lane, b)
  {
    if a == [] {
      assert a + b == b;
    } else {
      assert (a + b)[1..] == a[1..] + b;
      InLaneAppend(lane, a[1..], b);
    }
  }

  lemma {:induction false} FramesOfAppend(a: seq<Item>, b: seq<Item>)
    ensures FramesOf(a + b) == FramesOf(a) + FramesOf(b)
    ensures BytesOf(a + b) == BytesOf(a) + BytesOf(b)
  {
    if a == [] {
      assert a + b == b;
    } else {
      assert (a + b)[1..] == a[1..] + b;
      FramesOfAppend(a[1..], b);
    }
  }

  lemma InLaneOne(lane: Lane, f: Frame)
    ensures InLane(lane, [f]) == if f.lane == lane then [f] else []
  {}

  lemma FailKeepsInv(c: Config, s: System)
    requires Inv(c, s)
    ensures Inv(c, Fail(s))
  {
    hide Wire, InLane;
  }

  lemma PutKeepsBooks(c: Config, w: Writer, f: SendFrame)
    requires BooksValid(c, w) && !w.failed && !Overflows(c, w, |Wire(f)|)
    ensures BooksValid(c, Schedule(Put(w, f)))
  {
    hide Wire, FramesOf;
    FramesOfAppend(if f.lane.Ctrl? then w.ctrlQueue else w.mcpQueue, [Item(f, 0)]);
    assert BytesOf([Item(f, 0)]) == |Wire(f)|;
  }

  lemma PutWaits(w: Writer, f: SendFrame, lane: Lane)
    ensures Waiting(Schedule(Put(w, f)), lane) == Waiting(w, lane) + if f.lane == lane then [f] else []
  {
    hide Wire;
    if f.lane == lane {
      FramesOfAppend(if lane.Ctrl? then w.ctrlQueue else w.mcpQueue, [Item(f, 0)]);
      assert FramesOf([Item(f, 0)]) == [f] + FramesOf([]);
    }
  }

  lemma PutKeepsLane(s: System, f: SendFrame, lane: Lane)
    requires LaneValid(s, lane) && !s.w.failed
    ensures LaneValid(System(Schedule(Put(s.w, f)), s.h.(enqueued := s.h.enqueued + [f])), lane)
  {
    hide Wire, InLane, Waiting;
    PutWaits(s.w, f, lane);
    InLaneAppend(lane, s.h.enqueued, [f]);
    InLaneOne(lane, f);
  }

  lemma PutKeepsInv(c: Config, s: System, f: SendFrame)
    requires Inv(c, s) && !s.w.failed && !Overflows(c, s.w, |Wire(f)|)
    ensures Inv(c, System(Schedule(Put(s.w, f)), s.h.(enqueued := s.h.enqueued + [f])))
  {
    hide Wire, InLane, BooksValid, LaneValid;
    PutKeepsBooks(c, s.w, f);
    PutKeepsLane(s, f, Ctrl);
    PutKeepsLane(s, f, Mcp);
  }

  lemma EnqueueKeepsInv(c: Config, s: System, lane: Lane, payload: seq<Byte>)
    requires Inv(c, s)
    ensures Inv(c, Enqueued(c, s, lane, payload).0)
  {
    hide Inv, InLane;
    match Enqueued(c, s, lane, payload).1
    case Queued => PutKeepsInv(c, s, Frame(lane, payload));
    case Overflow => FailKeepsInv(c, s);
    case _ =>
  }

  lemma SelectKeepsBooks(c: Config, w: Writer)
    requires BooksValid(c, w) && !w.failed
    ensures BooksValid(c, Select(w)) && Select(w).pumping == w.pumping && !Select(w).failed
    ensures Partial(Current(Select(w))) == Partial(Current(w))
    ensures Current(Select(w)).None? ==> Select(w) == w && w.pendingItems == 0
  {
    hide Wire, FramesOf;
  }

  lemma SelectKeepsWaiting(w: Writer, lane: Lane)
    requires QueuesValid(w)
    ensures Waiting(Select(w), lane) == Waiting(w, lane)
  {
    hide Wire;
  }

  lemma SelectKeepsInv(c: Config, s: System)
    requires Inv(c, s) && !s.w.failed
    ensures Inv(c, s.(w := Select(s.w))) && Select(s.w).pumping == s.w.pumping
    ensures Current(Select(s.w)).None? ==> Select(s.w) == s.w && s.w.pendingItems == 0
  {
    hide Wire, WireAll, InLane, Select, Partial, Current, Waiting, CountersValid, ModesValid;
    SelectKeepsBooks(c, s.w);
    SelectKeepsWaiting(s.w, Ctrl);
    SelectKeepsWaiting(s.w, Mcp);
  }

  lemma AdvanceKeepsBooks(c: Config, s: System, item: Item, n: nat)
    requires c.Valid() && BooksValid(c, s.w) && s.w.pumping && Current(s.w) == Some(item) && n <= |Unit(c, item)|
    ensures BooksValid(c, Advance(s, item, Unit(c, item), n).w)
  {
    hide Wire;
  }

  lemma ExtendPartial(whole: seq<Byte>, bytes: seq<Byte>, offset: nat, n: nat)
    requires offset + n <= |bytes|
    ensures (whole + bytes[..offset]) + bytes[offset..][..n] == whole + bytes[..offset + n]
  {}

  lemma WireAllOne(fs: seq<SendFrame>, f: SendFrame)
    ensures WireAll(fs + [f]) == WireAll(fs) + Wire(f)[..|Wire(f)|]
  {
    hide Wire;
    WireAllAppend(fs, [f]);
    assert WireAll([f]) == Wire(f) + WireAll([]);
  }

  lemma AdvanceKeepsWire(c: Config, s: System, item: Item, n: nat)
    requires c.Valid() && QueuesValid(s.w) && s.w.pumping && Current(s.w) == Some(item) && n <= |Unit(c, item)|
    requires WireValid(s) && !s.w.failed
    ensures WireValid(Advance(s, item, Unit(c, item), n))
  {
    hide Wire, WireAll;
    var bytes := Wire(item.frame);
    assert Unit(c, item)[..n] == bytes[item.offset..][..n];
    ExtendPartial(WireAll(s.h.done), bytes, item.offset, n);
    if n == |Unit(c, item)| && item.offset + n >= |bytes| {
      WireAllOne(s.h.done, item.frame);
    }
  }

  lemma AdvanceKeepsLane(c: Config, s: System, item: Item, n: nat, lane: Lane)
    requires BooksValid(c, s.w) && s.w.pumping && Current(s.w) == Some(item) && n <= |Unit(c, item)|
    requires LaneValid(s, lane)
    ensures LaneValid(Advance(s, item, Unit(c, item), n), lane)
  {
    hide Wire, InLane, Unit, CountersValid, BytesOf;
    InLaneAppend(lane, s.h.done, [item.frame]);
    InLaneOne(lane, item.frame);
    var t := Advance(s, item, Unit(c, item), n);
    if t.h.done != s.h.done && item.frame.lane == lane {
      assert Waiting(s.w, lane) == [item.frame] + Waiting(t.w, lane);
      assert InLane(lane, s.h.done) + Waiting(s.w, lane) == (InLane(lane, s.h.done) + [item.frame]) + Waiting(t.w, lane);
    } else {
      assert Waiting(s.w, lane) == Waiting(t.w, lane);
    }
  }

  lemma IdleKeepsInv(c: Config, s: System)
    requires Inv(c, s) && !s.w.failed && !s.w.paused && s.w.pendingItems == 0
    ensures Inv(c, Idle(s))
  {
    hide Wire, InLane;
  }

  lemma TurnKeepsInv(c: Config, s: System, r: Reply)
    requires c.Valid() && Inv(c, s) && s.w.pumping
    ensures Inv(c, Turn(c, s, r))
  {
    hide Wire, InLane, Select, Current, Unit, Advance, FramesOf, BytesOf;
    SelectKeepsInv(c, s);
    var t := s.(w := Select(s.w));
    if Current(t.w).None? {
      IdleKeepsInv(c, t);
    } else {
      var item := Current(t.w).value;
      match Taken(Unit(c, item), r)
      case None => FailKeepsInv(c, t);
      case Some(n) =>
        AdvanceKeepsBooks(c, t, item, n);
        AdvanceKeepsWire(c, t, item, n);
        AdvanceKeepsLane(c, t, item, n, Ctrl);
        AdvanceKeepsLane(c, t, item, n, Mcp);
    }
  }

  lemma StepKeepsInv(c: Config, s: System, e: Event)
    requires c.Valid() && Inv(c, s)
    ensures Inv(c, Step(c, s, e))
  {
    hide Wire, InLane, Turn, Enqueued;
    match e
    case EnqueueEvent(lane, payload) => EnqueueKeepsInv(c, s, lane, payload);
    case TurnEvent(reply) => if s.w.pumping { TurnKeepsInv(c, s, reply); }
    case ResumeEvent =>
    case DrainEvent(id) =>
    case CloseEvent => FailKeepsInv(c, s);
  }

  lemma {:induction false} RunKeepsInv(c: Config, s: System, es: seq<Event>)
    requires c.Valid() && Inv(c, s)
    ensures Inv(c, Run(c, s, es))
  {
    hide Step, Inv;
    if es != [] {
      RunKeepsInv(c, s, es[..|es| - 1]);
      StepKeepsInv(c, Run(c, s, es[..|es| - 1]), es[|es| - 1]);
    }
  }

  // ---- What a run guarantees ----

  predicate AllWritten(s: System) {
    && s.h.accepted == WireAll(s.h.done)
    && forall lane :: InLane(lane, s.h.enqueued) == InLane(lane, s.h.done)
  }

  lemma NothingPendingMeansAllWritten(c: Config, s: System)
    requires Inv(c, s) && !s.w.failed && s.w.pendingItems == 0
    ensures AllWritten(s)
  {
    hide Wire, WireAll, InLane;
    forall lane ensures InLane(lane, s.h.enqueued) == InLane(lane, s.h.done) {
      assert Waiting(s.w, lane) == [];
    }
  }

  predicate Written(w: Writer) { !w.failed && w.pendingItems == 0 }

  // The waiting drain() calls stay, settle together, or are joined by a new one.
  predicate WaitersMoved(s: System, t: System, e: Event) {
    var before, after := s.w.idleWaiters, t.w.idleWaiters;
    if e.DrainEvent? then
      || (after == before + [e.id] && t.h.settled == s.h.settled)
      || (after == before && t.w.failed && t.h.settled == s.h.settled + [(e.id, false)])
      || (after == before && Written(t.w) && t.h.settled == s.h.settled + [(e.id, true)])
    else
      || (after == before && t.h.settled == s.h.settled)
      || (after == [] && t.w.failed && t.h.settled == s.h.settled + Settle(before, false))
      || (after == [] && Written(t.w) && t.h.settled == s.h.settled + Settle(before, true))
  }

  lemma TurnMovesWaiters(c: Config, s: System, r: Reply)
    requires Inv(c, s) && s.w.pumping
    ensures WaitersMoved(s, Turn(c, s, r), TurnEvent(r))
  {
    hide Wire, Unit, Taken, Settle, Inv;
    PumpingIsLive(c, s);
    SelectKeepsInv(c, s);
  }

  lemma StepMovesWaiters(c: Config, s: System, e: Event)
    requires Inv(c, s)
    ensures WaitersMoved(s, Step(c, s, e), e)
  {
    hide Wire, Settle, Turn, Inv, EncodeFrame;
    if e.TurnEvent? && s.w.pumping { TurnMovesWaiters(c, s, e.reply); }
  }

  // A drain() call resolves only when every frame enqueued so far has been taken by the socket in
  // full, and rejects only when the writer has failed.
  lemma DrainIsHonest(c: Config, s: System, e: Event)
    requires c.Valid() && Inv(c, s)
    ensures s.h.settled <= Step(c, s, e).h.settled
    ensures forall i :: |s.h.settled| <= i < |Step(c, s, e).h.settled| ==>
              if Step(c, s, e).h.settled[i].1 then AllWritten(Step(c, s, e)) else Step(c, s, e).w.failed
  {
    hide Step, Inv, AllWritten;
    StepKeepsInv(c, s, e);
    StepMovesWaiters(c, s, e);
    if Written(Step(c, s, e).w) { NothingPendingMeansAllWritten(c, Step(c, s, e)); }
  }

  function Ids(settled: seq<(nat, bool)>): seq<nat> {
    seq(|settled|, i requires 0 <= i < |settled| => settled[i].0)
  }

  // Every drain() call is waiting or has settled, once.
  lemma DrainSettlesOnce(c: Config, s: System, e: Event)
    requires Inv(c, s)
    ensures var t := Step(c, s, e);
            multiset(t.w.idleWaiters) + multiset(Ids(t.h.settled)) ==
            multiset(s.w.idleWaiters) + multiset(Ids(s.h.settled)) + if e.DrainEvent? then multiset{e.id} else multiset{}
  {
    hide Step, Inv;
    StepMovesWaiters(c, s, e);
    var w := s.w.idleWaiters;
    assert forall ok :: Ids(s.h.settled + Settle(w, ok)) == Ids(s.h.settled) + w;
    if e.DrainEvent? {
      assert forall ok :: Ids(s.h.settled + [(e.id, ok)]) == Ids(s.h.settled) + [e.id];
    }
  }

  predicate Extends(s: System, t: System) {
    s.h.done <= t.h.done && s.h.enqueued <= t.h.enqueued && s.h.accepted <= t.h.accepted && (s.w.failed ==> t.w.failed)
  }

  lemma StepExtends(c: Config, s: System, e: Event)
    ensures Extends(s, Step(c, s, e))
  {
    hide Wire, Unit, Put;
  }

  function McpStarted(s: System): seq<Frame> {
    InLane(Mcp, s.h.done) + CurrentFrames(s.w.currentMcp)
  }

  lemma SelectStartsNoMcp(w: Writer)
    requires QueuesValid(w) && Waiting(w, Ctrl) != []
    ensures Select(w).currentMcp == w.currentMcp && Current(Select(w)).Some?
  {
    hide Wire;
  }

  lemma AdvanceStartsNoMcp(s: System, item: Item, unit: seq<Byte>, n: nat)
    requires QueuesValid(s.w) && Current(s.w) == Some(item) && n <= |unit|
    ensures McpStarted(Advance(s, item, unit, n)) == McpStarted(s)
  {
    hide Wire, InLane;
    InLaneAppend(Mcp, s.h.done, [item.frame]);
    InLaneOne(Mcp, item.frame);
  }

  // While a CTRL frame waits, no MCP frame is started.
  lemma StepStartsNoMcp(c: Config, s: System, e: Event)
    requires Inv(c, s) && Waiting(s.w, Ctrl) != [] && !Step(c, s, e).w.failed
    ensures McpStarted(Step(c, s, e)) == McpStarted(s)
  {
    hide Wire, InLane, Unit, Taken, CountersValid, WireValid, LaneValid, Advance, Waiting;
    if e.TurnEvent? && s.w.pumping {
      SelectKeepsInv(c, s);
      SelectStartsNoMcp(s.w);
      var t := s.(w := Select(s.w));
      var item := Current(t.w).value;
      var taken := Taken(Unit(c, item), e.reply);
      TakenInRange(Unit(c, item), e.reply);
      if taken.Some? { AdvanceStartsNoMcp(t, item, Unit(c, item), taken.value); }
    }
  }

  lemma InLaneMonotone(lane: Lane, a: seq<Frame>, b: seq<Frame>)
    requires a <= b
    ensures InLane(lane, a) <= InLane(lane, b)
  {
    InLaneAppend(lane, a, b[|a|..]);
    assert a + b[|a|..] == b;
  }

  // A waiting CTRL frame is overtaken by no MCP frame that was not already being written: until all
  // CTRL frames enqueued at s are written, the MCP frames written or started stay what they were at s.
  lemma {:induction false} CtrlIsNotOvertaken(c: Config, s: System, es: seq<Event>)
    requires c.Valid() && Inv(c, s) && !Run(c, s, es).w.failed
    requires |InLane(Ctrl, Run(c, s, es).h.done)| < |InLane(Ctrl, s.h.enqueued)|
    ensures Extends(s, Run(c, s, es))
    ensures McpStarted(Run(c, s, es)) == McpStarted(s)
  {
    hide Step, Inv, InLane, Waiting, McpStarted;
    if es != [] {
      var e := es[|es| - 1];
      var u := Run(c, s, es[..|es| - 1]);
      StepExtends(c, u, e);
      InLaneMonotone(Ctrl, u.h.done, Run(c, s, es).h.done);
      CtrlIsNotOvertaken(c, s, es[..|es| - 1]);
      RunKeepsInv(c, s, es[..|es| - 1]);
      InLaneMonotone(Ctrl, s.h.enqueued, u.h.enqueued);
      WaitingWhileUnwritten(c, u, Ctrl);
      StepStartsNoMcp(c, u, e);
    }
  }

  lemma WaitingWhileUnwritten(c: Config, s: System, lane: Lane)
    requires Inv(c, s) && !s.w.failed && |InLane(lane, s.h.done)| < |InLane(lane, s.h.enqueued)|
    ensures Waiting(s.w, lane) != []
  {
    hide Wire, WireAll, InLane;
  }

  lemma WrittenInOrder(c: Config, s: System, lane: Lane)
    requires Inv(c, s)
    ensures InLane(lane, s.h.done) <= InLane(lane, s.h.enqueued)
  {
    hide Wire, WireAll, InLane;
  }

  // ---- The class ----

  // The socket's write(): any count, no count, or an exception.
  class Socket {
    constructor () {}

    method Write(unit: seq<Byte>) returns (r: Reply)
    {
      r := *;
    }
  }

  class FrameWriter {
    const config: Config
    const socket: Socket
    var ctrlQueue: seq<Item>
    var mcpQueue: seq<Item>
    var currentCtrl: Option<Item>
    var currentMcp: Option<Item>
    var pendingItems: int
    var queuedBytes: int
    var pumping: bool
    var paused: bool
    var failed: bool
    var idleWaiters: seq<nat>
    ghost var h: History

    ghost function Now(): System reads this {
      System(Writer(ctrlQueue, mcpQueue, currentCtrl, currentMcp, pendingItems, queuedBytes,
                    pumping, paused, failed, idleWaiters), h)
    }

    // Between calls the pump is at rest: done, paused by a short write, or failed.
    ghost predicate Valid() reads this {
      config.Valid() && Inv(config, Now()) && !pumping
    }

    constructor (config: Config, socket: Socket)
      requires config.Valid()
      ensures Valid() && Now() == Start && this.config == config
    {
      this.config, this.socket := config, socket;
      ctrlQueue, mcpQueue, currentCtrl, currentMcp := [], [], None, None;
      pendingItems, queuedBytes := 0, 0;
      pumping, paused, failed := false, false, false;
      idleWaiters := [];
      h := Start.h;
    }

    method FailWith()
      modifies this
      ensures Now() == Fail(old(Now()))
    {
      failed, pumping, paused := true, false, false;
      ctrlQueue, mcpQueue := [], [];
      currentMcp, currentCtrl := None, None;
      pendingItems, queuedBytes := 0, 0;
      h := h.(settled := h.settled + Settle(idleWaiters, false));
      idleWaiters := [];
    }

    method ResolveIdle()
      modifies this
      ensures Now() == Idle(old(Now()))
    {
      pumping := false;
      if pendingItems == 0 {
        h := h.(settled := h.settled + Settle(idleWaiters, true));
        idleWaiters := [];
      }
    }

    // Choose the frame to work on; None when both lanes are empty.
    method SelectItem() returns (item: Option<Item>)
      modifies this
      ensures Now() == old(Now()).(w := Select(old(Now()).w)) && item == Current(Now().w)
    {
      if currentCtrl.Some? {
        item := currentCtrl;
      } else if currentMcp.Some? {
        item := currentMcp;
      } else if ctrlQueue != [] {
        currentCtrl, ctrlQueue := Some(ctrlQueue[0]), ctrlQueue[1..];
        item := currentCtrl;
      } else if mcpQueue != [] {
        currentMcp, mcpQueue := Some(mcpQueue[0]), mcpQueue[1..];
        item := currentMcp;
      } else {
        item := None;
      }
    }

    method TakeBytes(item: Item, unit: seq<Byte>, n: nat)
      requires n <= |unit| && Current(Now().w) == Some(item)
      modifies this
      ensures Now() == Advance(old(Now()), item, unit, n)
    {
      var isCtrl := currentCtrl.Some?;
      var advanced := Item(item.frame, item.offset + n);
      if isCtrl { currentCtrl := Some(advanced); } else { currentMcp := Some(advanced); }
      queuedBytes := queuedBytes - n;
      h := h.(accepted := h.accepted + unit[..n], last := Some(advanced));
      if n < |unit| {
        paused, pumping := true, false;
      } else if advanced.offset >= |Wire(item.frame)| {
        if isCtrl { currentCtrl := None; } else { currentMcp := None; }
        pendingItems := pendingItems - 1;
        h := h.(done := h.done + [item.frame], last := None);
      }
    }

    // The pump loop runs until the lanes are empty, the socket takes less than it is offered, or
    // the write fails. The replies it saw make up the turns of the run.
    method PumpLoop() returns (ghost turns: seq<Event>)
      requires config.Valid() && Inv(config, Now()) && pumping
      modifies this
      ensures Valid() && Now() == Run(config, old(Now()), turns)
      ensures forall e <- turns :: e.TurnEvent?
    {
      hide Wire, Turn, Inv, Unit, Taken, Select, Current, Advance, Idle, Fail;
      turns := [];
      ghost var start := Now();
      while pumping
        invariant Inv(config, Now()) && Now() == Run(config, start, turns)
        invariant forall e <- turns :: e.TurnEvent?
        decreases pumping, queuedBytes
      {
        ghost var before := Now();
        ghost var ts := turns;
        PumpingIsLive(config, before);
        var item := SelectItem();
        var reply := Void;
        SelectLeaves(before);
        if item.None? {
          ResolveIdle();
        } else {
          var unit := Unit(config, item.value);
          reply := socket.Write(unit);
          match Taken(unit, reply)
          case None => FailWith();
          case Some(n) =>
            UnitNotEmpty(config, before);
            TakenInRange(unit, reply);
            TakeBytes(item.value, unit, n);
            AdvanceShrinks(before.(w := Select(before.w)), item.value, unit, n);
        }
        FailStops(before);
        TurnIs(config, before, reply);
        turns := turns + [TurnEvent(reply)];
        assert turns[..|turns| - 1] == ts;
        TurnKeepsInv(config, before, reply);
        PumpingIsLive(config, Now());
      }
    }

    method Enqueue(lane: Lane, payload: seq<Byte>) returns (r: EnqueueResult, ghost turns: seq<Event>)
      requires Valid()
      modifies this
      ensures Valid() && r == Enqueued(config, old(Now()), lane, payload).1
      ensures Now() == Run(config, Enqueued(config, old(Now()), lane, payload).0, turns)
      ensures forall e <- turns :: e.TurnEvent?
    {
      hide Wire, Inv, EncodeFrame;
      EnqueueKeepsInv(config, Now(), lane, payload);
      turns := [];
      if failed { return ThrowsFailure, []; }
      match EncodeFrame(TypeByte(lane), payload)
      case Err(e) => r := ThrowsProtocolError(e);
      case Ok(bytes) =>
        if pendingItems >= config.highWater || (config.maxBytes.Some? && queuedBytes + |bytes| > config.maxBytes.value) {
          FailWith();
          return Overflow, [];
        }
        EncodedIsWire(lane, payload);
        var item := Item(Frame(lane, payload), 0);
        if lane.Ctrl? { ctrlQueue := ctrlQueue + [item]; } else { mcpQueue := mcpQueue + [item]; }
        pendingItems := pendingItems + 1;
        queuedBytes := queuedBytes + |bytes|;
        h := h.(enqueued := h.enqueued + [item.frame]);
        r := Queued;
        if !paused {
          pumping := true;
          turns := PumpLoop();
        }
    }

    method Resume() returns (ghost turns: seq<Event>)
      requires Valid()
      modifies this
      ensures Valid() && Now() == Run(config, Resumed(old(Now())), turns)
      ensures forall e <- turns :: e.TurnEvent?
    {
      turns := [];
      StepKeepsInv(config, Now(), ResumeEvent);
      if paused && !failed {
        paused := false;
        pumping := true;
        turns := PumpLoop();
      }
    }

    method Drain(id: nat)
      requires Valid()
      modifies this
      ensures Valid() && Now() == Drained(old(Now()), id)
    {
      hide Wire, InLane, WireAll;
      StepKeepsInv(config, Now(), DrainEvent(id));
      if failed {
        h := h.(settled := h.settled + [(id, false)]);
      } else if !pumping && !paused && pendingItems == 0 {
        h := h.(settled := h.settled + [(id, true)]);
      } else {
        idleWaiters := idleWaiters + [id];
      }
    }

    method Close()
      requires Valid()
      modifies this
      ensures Valid() && Now() == Closed(old(Now()))
    {
      hide Wire, InLane, WireAll;
      FailKeepsInv(config, Now());
      if !failed { FailWith(); }
    }
  }

  // Facts about single turns that the pump loop uses.

  lemma PumpingIsLive(c: Config, s: System)
    requires Inv(c, s)
    ensures (s.w.pumping ==> !s.w.failed && !s.w.paused) && s.w.queuedBytes >= 0
  {
    hide Wire, WireValid, LaneValid;
  }

  lemma SelectLeaves(s: System)
    ensures Select(s.w).pumping == s.w.pumping && Select(s.w).queuedBytes == s.w.queuedBytes
    ensures Current(Select(s.w)).None? ==> !Idle(s.(w := Select(s.w))).w.pumping
  {}

  lemma FailStops(s: System)
    ensures !Fail(s.(w := Select(s.w))).w.pumping
  {}

  lemma UnitNotEmpty(c: Config, s: System)
    requires c.Valid() && Inv(c, s) && !s.w.failed && Current(Select(s.w)).Some?
    ensures |Unit(c, Current(Select(s.w)).value)| > 0
  {
    hide Wire, WireValid, LaneValid;
    SelectKeepsInv(c, s);
  }

  lemma TakenInRange(unit: seq<Byte>, r: Reply)
    ensures Taken(unit, r).Some? ==> 0 <= Taken(unit, r).value <= |unit|
  {}

  lemma AdvanceShrinks(s: System, item: Item, unit: seq<Byte>, n: nat)
    requires n <= |unit| && |unit| > 0
    ensures var t := Advance(s, item, unit, n).w; t.pumping ==> t.queuedBytes < s.w.queuedBytes && s.w.pumping
  {}

  lemma TurnIs(c: Config, s: System, r: Reply)
    ensures var t := s.(w := Select(s.w));
            Turn(c, s, r) ==
            match Current(t.w)
            case None => Idle(t)
            case Some(item) =>
              match Taken(Unit(c, item), r)
              case None => Fail(t)
              case Some(n) => Advance(t, item, Unit(c, item), n)
  {}

  lemma EncodedIsWire(lane: Lane, payload: seq<Byte>)
    ensures var r := EncodeFrame(TypeByte(lane), payload);
            r.Ok? ==> Encodable(payload) && r.value == Wire(Frame(lane, payload))
  {}

  // ---- What is accepted, and that it gets written ----

  // A frame is queued exactly when the writer has not failed, the payload can be framed and neither
  // limit is in the way; exceeding a limit fails the writer, and nothing else is ever enqueued.
  lemma EnqueueAcceptsExactly(c: Config, s: System, lane: Lane, payload: seq<Byte>)
    ensures var (t, r) := Enqueued(c, s, lane, payload);
            && (r == Queued <==>
                  && !s.w.failed && Encodable(payload) && s.w.pendingItems < c.highWater
                  && (c.maxBytes.Some? ==> s.w.queuedBytes + |Wire(Frame(lane, payload))| <= c.maxBytes.value))
            && t.h.enqueued == s.h.enqueued + (if r == Queued then [Frame(lane, payload)] else [])
            && (r == Overflow <==> !s.w.failed && t.w.failed)
  {
    EncodedIsWire(lane, payload);
    hide Wire;
  }

  lemma {:induction false} RunFrom(c: Config, s: System, e: Event, es: seq<Event>)
    ensures Run(c, s, [e] + es) == Run(c, Step(c, s, e), es)
  {
    hide Step;
    if es == [] {
      assert [e] + es == [e] && [e][..0] == [];
    } else {
      assert ([e] + es)[..|es|] == [e] + es[..|es| - 1];
      RunFrom(c, s, e, es[..|es| - 1]);
    }
  }

  // A pump whose socket takes all it is offered ends with every frame written and every drain() resolved.
  lemma {:induction false} TakingAllWritesAll(c: Config, s: System) returns (turns: seq<Event>)
    requires c.Valid() && Inv(c, s) && s.w.pumping
    ensures var t := Run(c, s, turns);
            !t.w.failed && !t.w.pumping && !t.w.paused && AllWritten(t) && t.w.idleWaiters == []
    ensures forall e <- turns :: e == TurnEvent(Void)
    decreases s.w.queuedBytes
  {
    hide Wire, Inv, Turn, Unit, Select, Current, Advance, Idle, Fail;
    var t := Step(c, s, TurnEvent(Void));
    StepKeepsInv(c, s, TurnEvent(Void));
    PumpingIsLive(c, s);
    FullTurn(c, s);
    if t.w.pumping {
      turns := TakingAllWritesAll(c, t);
    } else {
      turns := [];
    }
    RunFrom(c, s, TurnEvent(Void), turns);
    turns := [TurnEvent(Void)] + turns;
  }

  lemma FullAdvance(s: System, item: Item, unit: seq<Byte>)
    ensures var t := Advance(s, item, unit, |unit|).w;
            t.pumping == s.w.pumping && t.paused == s.w.paused && t.failed == s.w.failed && t.queuedBytes == s.w.queuedBytes - |unit|
  {
    hide Wire;
  }

  lemma IdleWhenNothingLeft(c: Config, s: System)
    requires Inv(c, s) && Current(Select(s.w)).None?
    ensures var t := Idle(s.(w := Select(s.w))).w;
            !t.pumping && t.paused == s.w.paused && t.failed == s.w.failed && t.pendingItems == 0 && t.idleWaiters == []
  {
    hide Wire, WireValid, LaneValid, FramesOf, BytesOf;
  }

  lemma FullTurn(c: Config, s: System)
    requires c.Valid() && Inv(c, s) && s.w.pumping
    ensures var t := Turn(c, s, Void);
            && !t.w.failed
            && (t.w.pumping ==> 0 <= t.w.queuedBytes < s.w.queuedBytes)
            && (!t.w.pumping ==> !t.w.paused && AllWritten(t) && t.w.idleWaiters == [])
  {
    hide Wire, Inv, Select, Current, Unit, Advance, Idle, Fail, AllWritten;
    var t := Turn(c, s, Void);
    PumpingIsLive(c, s);
    TurnKeepsInv(c, s, Void);
    PumpingIsLive(c, t);
    SelectLeaves(s);
    SelectIsLive(s);
    var selected := s.(w := Select(s.w));
    match Current(selected.w)
    case Some(item) =>
      UnitNotEmpty(c, s);
      FullAdvance(selected, item, Unit(c, item));
    case None =>
      IdleWhenNothingLeft(c, s);
      NothingPendingMeansAllWritten(c, t);
  }

  lemma SelectIsLive(s: System)
    ensures Select(s.w).failed == s.w.failed
  {
  }

  // ---- Pausing and resuming ----

  // A turn in which the socket takes less than it is offered pauses the writer, ...
  lemma ShortWritePauses(c: Config, s: System, n: nat)
    requires c.Valid() && Inv(c, s) && s.w.pumping && Current(Select(s.w)).Some?
    requires n < |Unit(c, Current(Select(s.w)).value)|
    ensures Turn(c, s, Accepted(n)).w.paused && !Turn(c, s, Accepted(n)).w.pumping
  {
    hide Wire, Unit;
  }

  lemma PausedStepOffersNothing(c: Config, s: System, e: Event)
    requires !s.w.pumping && (s.w.paused || s.w.failed) && !e.ResumeEvent?
    ensures var t := Step(c, s, e);
            t.h.accepted == s.h.accepted && t.h.done == s.h.done && !t.w.pumping && (t.w.paused || t.w.failed)
  {
    hide Wire, Turn, EncodeFrame;
  }

  // ... and until it is resumed the socket is offered nothing.
  lemma {:induction false} PausedOffersNothing(c: Config, s: System, es: seq<Event>)
    requires c.Valid() && Inv(c, s) && s.w.paused && forall i | 0 <= i < |es| :: !es[i].ResumeEvent?
    ensures var t := Run(c, s, es);
            t.h.accepted == s.h.accepted && t.h.done == s.h.done && !t.w.pumping && (t.w.paused || t.w.failed)
  {
    if es != [] {
      PausedOffersNothing(c, s, es[..|es| - 1]);
      PausedStepOffersNothing(c, Run(c, s, es[..|es| - 1]), es[|es| - 1]);
      hide Step;
    }
  }

  // From every state that has not failed, paused or not, resume() and a socket that takes all it is
  // offered lead to every frame written and every drain() resolved.
  lemma ResumingWritesAll(c: Config, s: System) returns (es: seq<Event>)
    requires c.Valid() && Inv(c, s) && !s.w.failed
    ensures var t := Run(c, s, es);
            !t.w.failed && !t.w.pumping && !t.w.paused && AllWritten(t) && t.w.idleWaiters == []
    ensures forall e <- es :: e == ResumeEvent || e == TurnEvent(Void)
  {
    hide Wire, Turn, AllWritten, Run;
    var t := Step(c, s, ResumeEvent);
    StepKeepsInv(c, s, ResumeEvent);
    if t.w.pumping {
      es := TakingAllWritesAll(c, t);
      RunFrom(c, s, ResumeEvent, es);
      RunKeepsInv(c, t, es);
      es := [ResumeEvent] + es;
    } else {
      es := [];
      RunNothing(c, s);
      NothingPendingMeansAllWritten(c, s);
    }
  }

  // What the socket says it took is taken: as many bytes of the unit, from none to all of it; any other
  // answer fails the writer.
  lemma CountsAreTaken(c: Config, s: System, r: Reply)
    requires c.Valid() && Inv(c, s) && s.w.pumping && Current(Select(s.w)).Some?
    ensures var unit, t := Unit(c, Current(Select(s.w)).value), Turn(c, s, r);
            && (r.Void? ==> t == Turn(c, s, Accepted(|unit|)))
            && (r.Accepted? && 0 <= r.n <= |unit| ==> !t.w.failed && t.h.accepted == s.h.accepted + unit[..r.n])
            && (t.w.failed <==> r.Threw? || r.NotFinite? || (r.Accepted? && !(0 <= r.n <= |unit|)))
            && (t.w.failed ==> t.h.accepted == s.h.accepted)
  {
    PumpingIsLive(c, s);
    SelectIsLive(s);
    var t := s.(w := Select(s.w));
    var item := Current(t.w).value;
    TurnIs(c, s, r);
    TurnIs(c, s, Accepted(|Unit(c, item)|));
    TakenInRange(Unit(c, item), r);
    var n := Taken(Unit(c, item), r);
    if n.Some? { AdvanceTakes(t, item, Unit(c, item), n.value); }
    hide Wire, Unit, Inv, Turn, Select, Current, Advance;
  }

  lemma AdvanceTakes(s: System, item: Item, unit: seq<Byte>, n: nat)
    requires n <= |unit|
    ensures var t := Advance(s, item, unit, n); t.w.failed == s.w.failed && t.h.accepted == s.h.accepted + unit[..n]
  {
    hide Wire;
  }

  lemma FailedStep(c: Config, s: System, e: Event)
    requires s.w.failed && !s.w.pumping && !s.w.paused
    ensures var t := Step(c, s, e);
            && t.w == s.w && t.h.accepted == s.h.accepted && t.h.enqueued == s.h.enqueued
            && t.h.settled == s.h.settled + (if e.DrainEvent? then [(e.id, false)] else [])
            && (e.EnqueueEvent? ==> Enqueued(c, s, e.lane, e.payload).1 == ThrowsFailure)
  {
    hide Turn, EncodeFrame;
    assert s.h.settled + [] == s.h.settled;
  }

  // close() fails the writer: every drain() waiting is rejected, ...
  lemma CloseFails(s: System)
    requires !s.w.failed
    ensures var t := Closed(s);
            && t.w.failed && !t.w.pumping && !t.w.paused && t.w.idleWaiters == []
            && t.h == s.h.(settled := s.h.settled + Settle(s.w.idleWaiters, false))
  {
  }

  // ... and from then on every enqueue throws, every drain() is rejected and the socket is offered
  // nothing, resumed or not.
  lemma {:induction false} FailedIsDead(c: Config, s: System, es: seq<Event>)
    requires s.w.failed && !s.w.pumping && !s.w.paused
    ensures var t := Run(c, s, es);
            && t.w == s.w && t.h.accepted == s.h.accepted && t.h.enqueued == s.h.enqueued
            && s.h.settled <= t.h.settled && forall i | |s.h.settled| <= i < |t.h.settled| :: !t.h.settled[i].1
  {
    hide Step;
    if es != [] {
      FailedIsDead(c, s, es[..|es| - 1]);
      FailedStep(c, Run(c, s, es[..|es| - 1]), es[|es| - 1]);
    }
  }

  lemma RunNothing(c: Config, s: System)
    ensures Run(c, s, []) == s
  {
  }
}
