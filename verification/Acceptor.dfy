// UdsConnection of uds_acceptor.ts: one connection from hello to close. Each event below is a
// stretch of code without an await, so any order of events is an interleaving.
module Acceptor {
  import opened Wrappers

  const MAX_PRE_HELLO_CTRL := 8
  const MAX_PRE_SESSION_MCP_FRAMES := 16
  const MAX_PRE_SESSION_BYTES := 1024 * 1024

  type Payload = seq<Byte>

  datatype Phase = Hello | Authed | Session | Closed

  datatype Key = Key(agentId: string, epoch: int)

  // A CTRL frame after JSON.parse. Replies to sign requests and delivered frames do not touch this state.
  datatype Ctrl = Unparseable | Ping | Other(msg: nat)

  datatype HelloResult = HelloFailed | HelloIncomplete | HelloOk(key: Key)

  // What feeding one payload does: it returns, it throws, or it fails the connection before returning.
  datatype Feeding = FeedOk | FeedThrows | FeedCloses

  // Where run() and teardown() stand, by the await they are at.
  datatype RunStage = InHello | FlushingHelloError | Adding(key: Key) | LateRemoving | FlushingAddError | FlushingOk | RunDone
  datatype TeardownStage = NotStarted | Yielded | ClosingTransport | RemovingSession | TornDown

  // arrivals: MCP payloads routed before the close; fed: payloads handed to the transport;
  // hellos: CTRL messages let in for the hello; heard: those handed to runHello; added, removed: what was
  // added to and removed from the core; okSent: {t:ok} frames enqueued.
  datatype History = History(arrivals: seq<Payload>, fed: seq<Payload>, hellos: seq<nat>, heard: seq<nat>,
                             added: seq<Key>, removed: seq<Key>, okSent: nat)

  datatype Conn = Conn(
    phase: Phase, helloQ: seq<nat>, helloWaiters: nat, mcpBuffer: seq<Payload>, preSessionBytes: nat,
    preHelloPings: nat, transport: bool, session: Option<Key>, run: RunStage, teardown: TeardownStage, h: History)

  const Fresh := Conn(Hello, [], 0, [], 0, 0, false, None, InHello, NotStarted, History([], [], [], [], [], [], 0))

  function TeardownBegun(s: Conn): Conn {
    if s.teardown != NotStarted then s else s.(phase := Closed, teardown := Yielded)
  }

  function CtrlRouted(s: Conn, m: Ctrl): Conn {
    if s.phase != Hello then s
    else
      match m
      case Unparseable => TeardownBegun(s)
      case Ping =>
        var t := s.(preHelloPings := s.preHelloPings + 1);
        if t.preHelloPings > MAX_PRE_HELLO_CTRL then TeardownBegun(t) else t
      case Other(msg) =>
        if |s.helloQ| >= MAX_PRE_HELLO_CTRL then TeardownBegun(s)
        else
          var t := s.(h := s.h.(hellos := s.h.hellos + [msg]));
          if s.helloWaiters > 0 then t.(helloWaiters := s.helloWaiters - 1, h := t.h.(heard := s.h.heard + [msg]))
          else t.(helloQ := s.helloQ + [msg])
  }

  // recvCtrl: the oldest message waiting, else the reader waits.
  function CtrlReceived(s: Conn): Conn {
    if s.helloQ != [] then s.(helloQ := s.helloQ[1..], h := s.h.(heard := s.h.heard + [s.helloQ[0]]))
    else s.(helloWaiters := s.helloWaiters + 1)
  }

  function Fed(s: Conn, p: Payload, f: Feeding): Conn {
    var t := s.(h := s.h.(fed := s.h.fed + [p]));
    if f.FeedOk? then t else TeardownBegun(t)
  }

  function McpRouted(s: Conn, p: Payload, f: Feeding): Conn {
    if s.phase == Closed then s
    else
      var t := s.(h := s.h.(arrivals := s.h.arrivals + [p]));
      if s.phase == Session then Fed(t, p, f)
      else
        var u := t.(preSessionBytes := s.preSessionBytes + |p|);
        if |s.mcpBuffer| >= MAX_PRE_SESSION_MCP_FRAMES || u.preSessionBytes > MAX_PRE_SESSION_BYTES then TeardownBegun(u)
        else u.(mcpBuffer := s.mcpBuffer + [p])
  }

  function HelloResumed(s: Conn, r: HelloResult): Conn {
    if s.phase == Closed then s.(run := RunDone)
    else
      match r
      case HelloFailed => s.(run := FlushingHelloError)
      case HelloIncomplete => TeardownBegun(s.(run := RunDone))
      case HelloOk(key) => s.(phase := Authed, transport := true, run := Adding(key))
  }

  // addUdsSession settled: an error result, a throw, or ok; sending the reply may throw as well.
  datatype AddResult = AddOk | AddError | AddThrows

  function AddResumed(s: Conn, key: Key, r: AddResult, sendThrows: bool): Conn {
    var t := if r.AddOk? then s.(h := s.h.(added := s.h.added + [key])) else s;
    if r.AddThrows? then TeardownBegun(t.(run := RunDone))
    else if s.phase == Closed then
      if r.AddOk? then t.(run := LateRemoving, h := t.h.(removed := t.h.removed + [key])) else t.(run := RunDone)
    else if r.AddError? then
      if sendThrows then TeardownBegun(t.(run := RunDone)) else t.(run := FlushingAddError)
    else
      var u := t.(session := Some(key));
      if sendThrows then TeardownBegun(u.(run := RunDone))
      else u.(run := FlushingOk, h := u.h.(okSent := u.h.okSent + 1))
  }

  // The buffered payloads are fed in order; a throw fails the connection and stops the loop.
  function Flushed(s: Conn, buffered: seq<Payload>, fs: seq<Feeding>): Conn
    decreases |buffered|
  {
    if buffered == [] then s
    else
      var f := if fs == [] then FeedOk else fs[0];
      var t := Fed(s, buffered[0], f);
      if f.FeedThrows? then t else Flushed(t, buffered[1..], if fs == [] then [] else fs[1..])
  }

  // The flush of a terminal CTRL settled, whether or not it reached the peer.
  function FlushResumed(s: Conn, fs: seq<Feeding>): Conn {
    match s.run
    case FlushingHelloError => TeardownBegun(s.(run := RunDone))
    case FlushingAddError => TeardownBegun(s.(run := RunDone))
    case FlushingOk =>
      if s.phase == Closed then s.(run := RunDone)
      else Flushed(s.(phase := Session, mcpBuffer := [], run := RunDone), s.mcpBuffer, fs)
    case _ => s
  }

  function SessionRemoved(s: Conn): Conn {
    match s.session
    case None => s.(teardown := TornDown)
    case Some(key) => s.(teardown := RemovingSession, h := s.h.(removed := s.h.removed + [key]))
  }

  function TeardownResumed(s: Conn): Conn {
    match s.teardown
    case Yielded =>
      var t := s.(mcpBuffer := [], helloWaiters := 0);
      if s.transport then t.(teardown := ClosingTransport) else SessionRemoved(t)
    case ClosingTransport => SessionRemoved(s)
    case RemovingSession => s.(teardown := TornDown)
    case _ => s
  }

  datatype Event =
    | CtrlFrame(msg: Ctrl)
    | McpFrame(payload: Payload, feeding: Feeding)
    | RecvCtrl
    | HelloSettles(hello: HelloResult)
    | AddSettles(add: AddResult, sendThrows: bool)
    | FlushSettles(feedings: seq<Feeding>)
    | LateRemoveSettles
    | TeardownCalled
    | TeardownContinues

  function Next(s: Conn, e: Event): Conn {
    match e
    case CtrlFrame(m) => CtrlRouted(s, m)
    case McpFrame(p, f) => McpRouted(s, p, f)
    case RecvCtrl => CtrlReceived(s)
    case HelloSettles(r) => if s.run.InHello? then HelloResumed(s, r) else s
    case AddSettles(r, sendThrows) => if s.run.Adding? then AddResumed(s, s.run.key, r, sendThrows) else s
    case FlushSettles(fs) => FlushResumed(s, fs)
    case LateRemoveSettles => if s.run.LateRemoving? then s.(run := RunDone) else s
    case TeardownCalled => TeardownBegun(s)
    case TeardownContinues => TeardownResumed(s)
  }

  function Run(es: seq<Event>): Conn {
    if es == [] then Fresh else Next(Run(es[..|es| - 1]), es[|es| - 1])
  }

  // ---- What every event keeps ----

  function Bytes(ps: seq<Payload>): nat {
    if ps == [] then 0 else Bytes(ps[..|ps| - 1]) + |ps[|ps| - 1]|
  }

  // Before the session every arrival is in the buffer; in the session every arrival has been fed;
  // after the close what was fed is a prefix.
  predicate FeedValid(s: Conn) {
    match s.phase
    case Hello => s.h.fed == [] && s.mcpBuffer == s.h.arrivals
    case Authed => s.h.fed == [] && s.mcpBuffer == s.h.arrivals
    case Session => s.mcpBuffer == [] && s.h.fed == s.h.arrivals
    case Closed => s.h.fed <= s.h.arrivals
  }

  predicate CapsValid(s: Conn) {
    && |s.helloQ| <= MAX_PRE_HELLO_CTRL
    && |s.mcpBuffer| <= MAX_PRE_SESSION_MCP_FRAMES
    && Bytes(s.mcpBuffer) <= MAX_PRE_SESSION_BYTES
    && (s.phase.Hello? || s.phase.Authed? ==> s.preSessionBytes == Bytes(s.mcpBuffer))
  }

  predicate Finished(t: TeardownStage) { t.RemovingSession? || t.TornDown? }

  predicate StagesValid(s: Conn) {
    && (s.phase == Closed <==> s.teardown != NotStarted)
    && (s.phase == Hello ==> s.run.InHello? || s.run.FlushingHelloError?)
    && (s.phase == Authed ==> s.run.Adding? || s.run.FlushingAddError? || s.run.FlushingOk?)
    && (s.phase == Session ==> s.session.Some? && s.run.RunDone?)
    && (s.run.FlushingOk? ==> s.session.Some?)
    && (s.session.Some? || s.run.Adding? ==> s.transport)
    && (s.run.InHello? || s.run.FlushingHelloError? ==> !s.transport)
  }

  // Nothing is added before the add settles. A session that the connection holds is removed by its
  // teardown; one whose add settled after the close has been removed at once.
  predicate SessionValid(s: Conn) {
    && s.h.okSent <= |s.h.added| <= 1
    && (s.run.InHello? || s.run.FlushingHelloError? || s.run.Adding? || s.run.FlushingAddError? ==>
          s.h.added == [] && s.session.None?)
    && (s.session.Some? ==> s.h.added == [s.session.value])
    && (if s.session.Some? then s.h.removed == if Finished(s.teardown) then s.h.added else []
        else s.h.removed == s.h.added)
  }

  // Messages are handed out in order of arrival, and none waits while a reader does.
  predicate HelloValid(s: Conn) {
    s.h.hellos == s.h.heard + s.helloQ && (s.helloWaiters > 0 ==> s.helloQ == [])
  }

  predicate Inv(s: Conn) {
    HelloValid(s) && FeedValid(s) && CapsValid(s) && StagesValid(s) && SessionValid(s)
  }

  lemma {:induction false} FlushKeepsInv(s: Conn, buffered: seq<Payload>, fs: seq<Feeding>)
    requires HelloValid(s) && CapsValid(s) && StagesValid(s) && SessionValid(s) && s.mcpBuffer == [] && s.run.RunDone?
    requires s.h.fed + buffered == s.h.arrivals && (s.phase == Session || s.phase == Closed)
    ensures Inv(Flushed(s, buffered, fs))
    decreases |buffered|
  {
    if buffered == [] {
      assert s.h.fed + [] == s.h.fed;
    } else {
      var f := if fs == [] then FeedOk else fs[0];
      var t := Fed(s, buffered[0], f);
      assert t.h.fed + buffered[1..] == s.h.fed + buffered;
      if !f.FeedThrows? { FlushKeepsInv(t, buffered[1..], if fs == [] then [] else fs[1..]); }
    }
  }

  lemma BytesOfAppend(ps: seq<Payload>, p: Payload)
    ensures Bytes(ps + [p]) == Bytes(ps) + |p|
  {
    assert (ps + [p])[..|ps|] == ps;
  }

  lemma McpKeepsInv(s: Conn, p: Payload, f: Feeding)
    requires Inv(s)
    ensures Inv(McpRouted(s, p, f))
  {
    hide Bytes;
    BytesOfAppend(s.mcpBuffer, p);
  }

  lemma CtrlKeepsInv(s: Conn, m: Ctrl)
    requires Inv(s)
    ensures Inv(CtrlRouted(s, m))
  {
    hide Bytes, FeedValid, CapsValid;
    assert FeedValid(s) && CapsValid(s);
    RoutingKeepsBuffers(s, m);
    if m.Other? && s.helloWaiters > 0 { assert s.h.heard + [m.msg] + [] == s.h.heard + s.helloQ + [m.msg]; }
  }

  lemma RoutingKeepsBuffers(s: Conn, m: Ctrl)
    requires FeedValid(s) && CapsValid(s)
    ensures FeedValid(CtrlRouted(s, m)) && CapsValid(CtrlRouted(s, m))
  {
    hide Bytes;
  }

  lemma ReceivingKeepsInv(s: Conn)
    requires Inv(s)
    ensures Inv(CtrlReceived(s))
  {
    hide Bytes;
    if s.helloQ != [] { assert s.helloQ == [s.helloQ[0]] + s.helloQ[1..]; }
  }

  lemma AddKeepsInv(s: Conn, key: Key, r: AddResult, sendThrows: bool)
    requires Inv(s) && s.run == Adding(key)
    ensures Inv(AddResumed(s, key, r, sendThrows))
  {
    hide Bytes;
  }

  lemma HelloKeepsInv(s: Conn, r: HelloResult)
    requires Inv(s) && s.run.InHello?
    ensures Inv(HelloResumed(s, r))
  {
    hide Bytes;
  }

  lemma NextKeepsInv(s: Conn, e: Event)
    requires Inv(s)
    ensures Inv(Next(s, e))
  {
    hide Flushed, McpRouted, CtrlRouted, CtrlReceived, AddResumed, HelloResumed, Bytes;
    match e
    case CtrlFrame(m) => CtrlKeepsInv(s, m);
    case RecvCtrl => ReceivingKeepsInv(s);
    case AddSettles(r, sendThrows) => if s.run.Adding? { AddKeepsInv(s, s.run.key, r, sendThrows); }
    case HelloSettles(r) => if s.run.InHello? { HelloKeepsInv(s, r); }
    case McpFrame(p, f) => McpKeepsInv(s, p, f);
    case FlushSettles(fs) =>
      if s.run.FlushingOk? && s.phase != Closed {
        assert [] + s.mcpBuffer == s.mcpBuffer;
        EmptyBytes();
        FlushKeepsInv(s.(phase := Session, mcpBuffer := [], run := RunDone), s.mcpBuffer, fs);
      }
    case TeardownContinues => EmptyBytes();
    case _ =>
  }

  lemma EmptyBytes() ensures Bytes([]) == 0 {}

  lemma {:induction false} RunKeepsInv(es: seq<Event>)
    ensures Inv(Run(es))
  {
    hide Next, Inv;
    if es == [] {
      assert Inv(Fresh) by { FreshInv(); }
    } else {
      RunKeepsInv(es[..|es| - 1]);
      NextKeepsInv(Run(es[..|es| - 1]), es[|es| - 1]);
    }
  }

  lemma FreshInv() ensures Inv(Fresh) {}

  // ---- What a run guarantees ----

  // The payloads handed to the transport are a prefix of the arrivals, in order: nothing is lost,
  // repeated or reordered where buffering hands over to live feeding.
  lemma FedIsPrefixOfArrivals(es: seq<Event>)
    ensures Run(es).h.fed <= Run(es).h.arrivals
    ensures Run(es).phase == Session ==> Run(es).h.fed == Run(es).h.arrivals
  {
    RunKeepsInv(es);
  }

  lemma PreSessionBuffersAreBounded(es: seq<Event>)
    ensures var s := Run(es);
            |s.helloQ| <= MAX_PRE_HELLO_CTRL && |s.mcpBuffer| <= MAX_PRE_SESSION_MCP_FRAMES &&
            Bytes(s.mcpBuffer) <= MAX_PRE_SESSION_BYTES
  {
    hide Bytes;
    RunKeepsInv(es);
  }

  // {t:ok} is enqueued at most once, and only by the event in which the session was added.
  lemma OkFollowsAdd(es: seq<Event>, e: Event)
    ensures Run(es).h.okSent <= |Run(es).h.added| <= 1
    ensures Next(Run(es), e).h.okSent != Run(es).h.okSent ==>
              e.AddSettles? && e.add.AddOk? && Run(es).phase != Closed && Run(es).h.okSent == 0 &&
              Next(Run(es), e).h.added == [Run(es).run.key] && Next(Run(es), e).session == Some(Run(es).run.key)
  {
    hide Bytes;
    RunKeepsInv(es);
    FlushSendsNothing(Run(es).(phase := Session, mcpBuffer := [], run := RunDone), Run(es).mcpBuffer,
                      if e.FlushSettles? then e.feedings else []);
  }

  lemma {:induction false} FlushSendsNothing(s: Conn, buffered: seq<Payload>, fs: seq<Feeding>)
    ensures var t := Flushed(s, buffered, fs);
            t.h.okSent == s.h.okSent && t.h.added == s.h.added && t.h.removed == s.h.removed && t.session == s.session
    decreases |buffered|
  {
    if buffered != [] {
      var f := if fs == [] then FeedOk else fs[0];
      FlushSendsNothing(Fed(s, buffered[0], f), buffered[1..], if fs == [] then [] else fs[1..]);
    }
  }

  // Once run() and teardown() are past their last await, every session this connection added has
  // been removed exactly once, under its own agent id and epoch; while it is open, none has been.
  lemma AddedIsRemovedExactlyOnce(es: seq<Event>)
    ensures var s := Run(es);
            && (s.teardown.TornDown? && s.run.RunDone? ==> s.h.removed == s.h.added)
            && (s.phase != Closed ==> s.h.removed == [])
            && s.h.removed <= s.h.added && |s.h.added| <= 1
  {
    hide Bytes;
    RunKeepsInv(es);
  }

  // A good hello, an add and a flush that nothing cuts short lead to the session, with every payload
  // that arrived on the way fed and {t:ok} sent once.
  lemma GoodHelloLeadsToSession(s: Conn, key: Key, fs: seq<Feeding>)
    requires Inv(s) && s.phase == Hello && s.run.InHello? && forall f | f in fs :: f.FeedOk?
    ensures var t := Next(Next(Next(s, HelloSettles(HelloOk(key))), AddSettles(AddOk, false)), FlushSettles(fs));
            && t.phase == Session && t.session == Some(key) && t.h.added == [key] && t.h.okSent == 1
            && t.h.fed == t.h.arrivals == s.h.arrivals
  {
    var u := Next(Next(s, HelloSettles(HelloOk(key))), AddSettles(AddOk, false));
    NextKeepsInv(s, HelloSettles(HelloOk(key)));
    NextKeepsInv(Next(s, HelloSettles(HelloOk(key))), AddSettles(AddOk, false));
    NextKeepsInv(u, FlushSettles(fs));
    GoodFeedsStayOpen(u.(phase := Session, mcpBuffer := [], run := RunDone), u.mcpBuffer, fs);
    FlushSendsNothing(u.(phase := Session, mcpBuffer := [], run := RunDone), u.mcpBuffer, fs);
  }

  lemma {:induction false} GoodFeedsStayOpen(s: Conn, buffered: seq<Payload>, fs: seq<Feeding>)
    requires forall f | f in fs :: f.FeedOk?
    ensures Flushed(s, buffered, fs).phase == s.phase && Flushed(s, buffered, fs).h.arrivals == s.h.arrivals
    decreases |buffered|
  {
    if buffered != [] {
      GoodFeedsStayOpen(Fed(s, buffered[0], FeedOk), buffered[1..], if fs == [] then [] else fs[1..]);
    }
  }

  // A close is never undone: no event reopens the connection or feeds the transport after it.
  lemma ClosedStaysClosed(s: Conn, e: Event)
    requires Inv(s) && s.phase == Closed
    ensures Next(s, e).phase == Closed && Next(s, e).h.fed == s.h.fed && Next(s, e).h.arrivals == s.h.arrivals
  {
    hide Bytes, Flushed;
  }

  // ---- What is let in ----

  // Before the session an MCP frame is buffered, and the connection stays open, exactly while the buffer
  // has a place and its bytes stay within their cap with it; in the session it is fed at once.
  lemma McpIsBufferedExactly(s: Conn, p: Payload, f: Feeding)
    requires Inv(s) && s.phase != Closed
    ensures var t := Next(s, McpFrame(p, f));
            if s.phase == Session then
              t.h.fed == s.h.fed + [p] && (t.phase == Session <==> f.FeedOk?) && (t.phase == Closed <==> !f.FeedOk?)
            else if |s.mcpBuffer| < 16 && Bytes(s.mcpBuffer) + |p| <= 1_048_576 then
              t.phase == s.phase && t.mcpBuffer == s.mcpBuffer + [p] && t.h.fed == s.h.fed
            else t.phase == Closed && t.h.fed == s.h.fed
  {
    hide Bytes;
  }

  // During the hello a ping is answered eight times, and a message let in exactly while fewer than eight
  // wait; a reader that waits gets it at once. After the hello neither touches this state.
  lemma CtrlIsLetInExactly(s: Conn, m: Ctrl)
    requires Inv(s)
    ensures var t := Next(s, CtrlFrame(m));
            if s.phase != Hello then t == s
            else if (m.Ping? && s.preHelloPings < 8) || (m.Other? && |s.helloQ| < 8) then
              && t.phase == Hello
              && t.preHelloPings == s.preHelloPings + (if m.Ping? then 1 else 0)
              && t.h.hellos == s.h.hellos + (if m.Other? then [m.msg] else [])
              && (m.Other? && s.helloWaiters > 0 ==> t.h.heard == t.h.hellos && t.helloWaiters == s.helloWaiters - 1)
            else t.phase == Closed && t.h.hellos == s.h.hellos
  {
    hide Bytes;
  }

  // runHello gets the messages let in, in the order of their arrival, each once; a read that finds one
  // waiting gets it.
  lemma HellosComeInOrder(es: seq<Event>)
    ensures var s, t := Run(es), Next(Run(es), RecvCtrl);
            && s.h.heard <= s.h.hellos
            && (s.h.heard == s.h.hellos <==> s.helloQ == [])
            && t.h.hellos == s.h.hellos
            && (if |s.h.heard| < |s.h.hellos| then t.h.heard == s.h.heard + [s.h.hellos[|s.h.heard|]]
                else t.h.heard == s.h.heard && t.helloWaiters == s.helloWaiters + 1)
  {
    RunKeepsInv(es);
    hide Bytes, Run;
  }

  // ---- The class ----

  class UdsConnection {
    var phase: Phase
    var helloQ: seq<nat>
    var helloWaiters: nat
    var mcpBuffer: seq<Payload>
    var preSessionBytes: nat
    var preHelloPings: nat
    var transport: bool
    var session: Option<Key>
    var runStage: RunStage
    var teardownStage: TeardownStage
    ghost var h: History

    ghost function Now(): Conn reads this {
      Conn(phase, helloQ, helloWaiters, mcpBuffer, preSessionBytes, preHelloPings, transport, session,
           runStage, teardownStage, h)
    }

    constructor ()
      ensures Now() == Fresh
    {
      phase, helloQ, helloWaiters, mcpBuffer, preSessionBytes, preHelloPings := Hello, [], 0, [], 0, 0;
      transport, session, runStage, teardownStage := false, None, InHello, NotStarted;
      h := Fresh.h;
    }

    // teardown() up to its first await; later calls return the same promise.
    method Teardown()
      modifies this
      ensures Now() == Next(old(Now()), TeardownCalled)
    {
      if teardownStage != NotStarted { return; }
      phase := Closed;
      teardownStage := Yielded;
    }

    method ContinueTeardown()
      modifies this
      ensures Now() == Next(old(Now()), TeardownContinues)
    {
      if teardownStage == Yielded {
        mcpBuffer, helloWaiters := [], 0;
        if transport {
          teardownStage := ClosingTransport;
          return;
        }
      } else if teardownStage == RemovingSession {
        teardownStage := TornDown;
        return;
      } else if teardownStage != ClosingTransport {
        return;
      }
      if session.Some? {
        teardownStage := RemovingSession;
        h := h.(removed := h.removed + [session.value]);
      } else {
        teardownStage := TornDown;
      }
    }

    method FeedMcp(p: Payload, f: Feeding)
      modifies this
      ensures Now() == Fed(old(Now()), p, f)
    {
      h := h.(fed := h.fed + [p]);
      if !f.FeedOk? { Teardown(); }
    }

    method RouteCtrl(m: Ctrl)
      modifies this
      ensures Now() == Next(old(Now()), CtrlFrame(m))
    {
      if phase != Hello { return; }
      match m
      case Unparseable => Teardown();
      case Ping =>
        preHelloPings := preHelloPings + 1;
        if preHelloPings > MAX_PRE_HELLO_CTRL { Teardown(); }
      case Other(msg) =>
        if |helloQ| >= MAX_PRE_HELLO_CTRL {
          Teardown();
        } else {
          h := h.(hellos := h.hellos + [msg]);
          if helloWaiters > 0 {
            helloWaiters := helloWaiters - 1;
            h := h.(heard := h.heard + [msg]);
          } else {
            helloQ := helloQ + [msg];
          }
        }
    }

    method ReceiveCtrl() returns (msg: Option<nat>)
      modifies this
      ensures Now() == Next(old(Now()), RecvCtrl)
      ensures msg == if old(helloQ) != [] then Some(old(helloQ)[0]) else None
    {
      if helloQ != [] {
        msg := Some(helloQ[0]);
        h := h.(heard := h.heard + [helloQ[0]]);
        helloQ := helloQ[1..];
      } else {
        msg := None;
        helloWaiters := helloWaiters + 1;
      }
    }

    method RouteMcp(p: Payload, f: Feeding)
      modifies this
      ensures Now() == Next(old(Now()), McpFrame(p, f))
    {
      if phase == Closed { return; }
      h := h.(arrivals := h.arrivals + [p]);
      if phase == Session {
        FeedMcp(p, f);
      } else {
        preSessionBytes := preSessionBytes + |p|;
        if |mcpBuffer| >= MAX_PRE_SESSION_MCP_FRAMES || preSessionBytes > MAX_PRE_SESSION_BYTES {
          Teardown();
          return;
        }
        mcpBuffer := mcpBuffer + [p];
      }
    }

    method ResumeHello(r: HelloResult)
      modifies this
      ensures Now() == Next(old(Now()), HelloSettles(r))
    {
      if !runStage.InHello? { return; }
      if phase == Closed { runStage := RunDone; return; }
      match r
      case HelloFailed => runStage := FlushingHelloError;
      case HelloIncomplete => runStage := RunDone; Teardown();
      case HelloOk(key) =>
        phase := Authed;
        transport := true;
        runStage := Adding(key);
    }

    method ResumeAdd(r: AddResult, sendThrows: bool)
      modifies this
      ensures Now() == Next(old(Now()), AddSettles(r, sendThrows))
    {
      if !runStage.Adding? { return; }
      var key := runStage.key;
      runStage := RunDone;
      if r.AddOk? { h := h.(added := h.added + [key]); }
      if r.AddThrows? { Teardown(); return; }
      if phase == Closed {
        if r.AddOk? {
          runStage := LateRemoving;
          h := h.(removed := h.removed + [key]);
        }
        return;
      }
      if r.AddOk? { session := Some(key); }
      if sendThrows { Teardown(); return; }
      if r.AddOk? {
        runStage := FlushingOk;
        h := h.(okSent := h.okSent + 1);
      } else {
        runStage := FlushingAddError;
      }
    }

    // After the flush of {t:ok}: go live and feed what was buffered, in order.
    method ResumeFlush(fs: seq<Feeding>)
      modifies this
      ensures Now() == Next(old(Now()), FlushSettles(fs))
    {
      if runStage.FlushingHelloError? || runStage.FlushingAddError? {
        runStage := RunDone;
        Teardown();
        return;
      }
      if !runStage.FlushingOk? { return; }
      runStage := RunDone;
      if phase == Closed { return; }
      phase := Session;
      var buffered := mcpBuffer;
      mcpBuffer := [];
      ghost var start := Now();
      var outcomes := fs;
      while buffered != []
        invariant Flushed(start, old(mcpBuffer), fs) == Flushed(Now(), buffered, outcomes)
        decreases |buffered|
      {
        var f := if outcomes == [] then FeedOk else outcomes[0];
        FeedMcp(buffered[0], f);
        buffered := if f.FeedThrows? then [] else buffered[1..];
        outcomes := if outcomes == [] then [] else outcomes[1..];
      }
    }
  }
}
