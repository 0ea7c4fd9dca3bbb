// How a connection of uds_acceptor.ts comes to its end: run() on every way through its awaits, and
// teardown().
module AcceptorProgress {
  import opened Wrappers
  import opened Acceptor

  // What a hello that does not succeed leads to: closed at once, or after the flush of its error.
  lemma BadHelloCloses(s: Conn, r: HelloResult, fs: seq<Feeding>)
    requires Inv(s) && s.run.InHello? && !r.HelloOk?
    ensures var t := Next(s, HelloSettles(r));
            var u := if t.run.RunDone? then t else Next(t, FlushSettles(fs));
            && (t.run.RunDone? <==> s.phase == Closed || r.HelloIncomplete?)
            && u.run.RunDone? && u.phase == Closed && u.h == s.h && !u.transport && u.session == None
  {
    hide Bytes, Flushed;
  }

  // What an add leads to when the connection has been closed meanwhile: the session is removed again,
  // under its own key.
  lemma LateAddIsRemoved(s: Conn, r: AddResult, sendThrows: bool)
    requires Inv(s) && s.run.Adding? && s.phase == Closed
    ensures var t := Next(s, AddSettles(r, sendThrows));
            var u := if t.run.RunDone? then t else Next(t, LateRemoveSettles);
            && (t.run.RunDone? <==> !r.AddOk?)
            && u.run.RunDone? && u.phase == Closed
            && u.h.added == u.h.removed == (if r.AddOk? then [s.run.key] else [])
            && u.h.okSent == 0 && u.h.fed == s.h.fed
  {
    hide Bytes;
  }

  // What it leads to on an open connection unless it is good and announced: the close, with {t:ok}
  // unsent and nothing fed; a session that was added is held for the teardown to remove.
  lemma BadAddCloses(s: Conn, r: AddResult, sendThrows: bool, fs: seq<Feeding>)
    requires Inv(s) && s.run.Adding? && s.phase != Closed && (!r.AddOk? || sendThrows)
    ensures var t := Next(s, AddSettles(r, sendThrows));
            var u := if t.run.RunDone? then t else Next(t, FlushSettles(fs));
            && (t.run.RunDone? <==> r.AddThrows? || sendThrows)
            && u.run.RunDone? && u.phase == Closed && u.teardown == Yielded
            && u.session == (if r.AddOk? then Some(s.run.key) else None)
            && u.h == s.h.(added := if r.AddOk? then [s.run.key] else [])
  {
    hide Bytes, Flushed;
  }

  // A close during the flush of {t:ok} ends run() without feeding anything.
  lemma CloseDuringFlushEndsRun(s: Conn, fs: seq<Feeding>)
    requires Inv(s) && s.phase == Closed && (s.run.FlushingOk? || s.run.FlushingAddError? || s.run.FlushingHelloError?)
    ensures Next(s, FlushSettles(fs)) == s.(run := RunDone)
  {
    hide Bytes, Flushed;
  }

  // ---- run() and teardown() end ----

  function RunRank(run: RunStage): nat {
    match run
    case InHello => 3
    case Adding(_) => 2
    case RunDone => 0
    case _ => 1
  }

  // The event that settles what run() awaits.
  predicate Settles(s: Conn, e: Event) {
    match s.run
    case InHello => e.HelloSettles?
    case Adding(_) => e.AddSettles?
    case LateRemoving => e.LateRemoveSettles?
    case RunDone => false
    case _ => e.FlushSettles?
  }

  // Each await of run() that settles brings it nearer to its end, so it has at most three; nothing else
  // moves it.
  lemma RunComesToAnEnd(s: Conn, e: Event)
    requires Inv(s)
    ensures Settles(s, e) ==> RunRank(Next(s, e).run) < RunRank(s.run)
    ensures !Settles(s, e) ==> Next(s, e).run == s.run
  {
    hide Bytes, Flushed;
    if e.FlushSettles? && s.run.FlushingOk? && s.phase != Closed {
      FlushLeavesRun(s.(phase := Session, mcpBuffer := [], run := RunDone), s.mcpBuffer, e.feedings);
    }
  }

  lemma {:induction false} FlushLeavesRun(s: Conn, buffered: seq<Payload>, fs: seq<Feeding>)
    ensures Flushed(s, buffered, fs).run == s.run
    decreases |buffered|
  {
    if buffered != [] {
      FlushLeavesRun(Fed(s, buffered[0], if fs == [] then FeedOk else fs[0]), buffered[1..], if fs == [] then [] else fs[1..]);
    }
  }

  function Continued(s: Conn, k: nat): Conn
    decreases k
  {
    if k == 0 then s else Continued(Next(s, TeardownContinues), k - 1)
  }

  // teardown() ends after its yield, the transport's close if there is one, and the session's removal
  // if it holds one: the buffer and the waiting readers are dropped, and the session is removed.
  lemma TeardownComesToAnEnd(s: Conn)
    requires Inv(s) && s.teardown == Yielded
    ensures var t := Continued(s, 1 + (if s.transport then 1 else 0) + (if s.session.Some? then 1 else 0));
            && t.teardown == TornDown && t.mcpBuffer == [] && t.helloWaiters == 0 && t.phase == Closed
            && t.h.removed == s.h.removed + (if s.session.Some? then [s.session.value] else [])
            && t.run == s.run
  {
    hide Bytes;
    assert Continued(s, 3) == Continued(Next(s, TeardownContinues), 2);
    assert Continued(Next(s, TeardownContinues), 2) == Continued(Next(Next(s, TeardownContinues), TeardownContinues), 1);
  }

  // So when both have ended on a connection that added a session, it has been removed exactly once.
  lemma EndedConnectionLeavesNothing(s: Conn)
    requires Inv(s) && s.teardown == Yielded && s.run.RunDone?
    ensures var t := Continued(s, 1 + (if s.transport then 1 else 0) + (if s.session.Some? then 1 else 0));
            t.h.removed == t.h.added == s.h.added
  {
    TeardownComesToAnEnd(s);
    ContinuedKeeps(s, 1 + (if s.transport then 1 else 0) + (if s.session.Some? then 1 else 0));
    hide Bytes;
  }

  lemma {:induction false} ContinuedKeeps(s: Conn, k: nat)
    requires Inv(s)
    ensures Inv(Continued(s, k)) && Continued(s, k).h.added == s.h.added
    decreases k
  {
    if k > 0 {
      NextKeepsInv(s, TeardownContinues);
      ContinuedKeeps(Next(s, TeardownContinues), k - 1);
      hide Inv;
    }
  }
}
