// The channel notifications of one MCP session in mcp_session.ts: buffered until the client has
// initialized, then delivered one after the other along deliveryChain.
module McpSession {
  import opened Wrappers

  // What a caller of notification() is told: its own inject resolved or failed, the buffer was full,
  // or the session closed before it initialized. A caller without an outcome is still waiting.
  datatype Outcome = Resolved | InjectFailed | BufferFull | ClosedEarly

  // One then() on deliveryChain: the calls it has yet to inject and the one it is awaiting.
  datatype Link = Link(todo: seq<nat>, running: Option<nat>)

  // Calls are numbered in the order notification() was called. attempts lists the calls whose inject
  // was started and results the injects that ended, each in order.
  datatype Session = Session(
    initialized: bool, pendingInjects: seq<nat>, deliveryChain: seq<Link>, calls: nat, outcomes: map<nat, Outcome>,
    attempts: seq<nat>, results: seq<(nat, bool)>)

  const Fresh := Session(false, [], [], 0, map[], [], [])

  function Notified(cap: nat, s: Session): Session {
    var id := s.calls;
    if s.initialized then s.(calls := id + 1, deliveryChain := s.deliveryChain + [Link([id], None)])
    else if |s.pendingInjects| >= cap then s.(calls := id + 1, outcomes := s.outcomes[id := BufferFull])
    else s.(calls := id + 1, pendingInjects := s.pendingInjects + [id])
  }

  function Initialized(s: Session): Session {
    s.(initialized := true, pendingInjects := [], deliveryChain := s.deliveryChain + [Link(s.pendingInjects, None)])
  }

  function Rejecting(outcomes: map<nat, Outcome>, ids: seq<nat>): map<nat, Outcome> {
    if ids == [] then outcomes else Rejecting(outcomes, ids[..|ids| - 1])[ids[|ids| - 1] := ClosedEarly]
  }

  function Closed(s: Session): Session {
    s.(pendingInjects := [], outcomes := Rejecting(s.outcomes, s.pendingInjects))
  }

  // A link runs only once the links before it have ended; it injects one call at a time.
  function Advanced(s: Session): Session {
    if s.deliveryChain == [] || s.deliveryChain[0].running.Some? then s
    else if s.deliveryChain[0].todo == [] then s.(deliveryChain := s.deliveryChain[1..])
    else
      var id := s.deliveryChain[0].todo[0];
      s.(deliveryChain := [Link(s.deliveryChain[0].todo[1..], Some(id))] + s.deliveryChain[1..],
         attempts := s.attempts + [id])
  }

  // The inject of call id ends; id is being awaited by some link.
  function Settled(s: Session, k: nat, ok: bool): Session
    requires k < |s.deliveryChain| && s.deliveryChain[k].running.Some?
  {
    var id := s.deliveryChain[k].running.value;
    s.(deliveryChain := s.deliveryChain[k := s.deliveryChain[k].(running := None)],
       outcomes := s.outcomes[id := if ok then Resolved else InjectFailed],
       results := s.results + [(id, ok)])
  }

  datatype Event = Notify | Initialize | Close | Advance | InjectEnds(k: nat, ok: bool)

  function Next(cap: nat, s: Session, e: Event): Session {
    match e
    case Notify => Notified(cap, s)
    case Initialize => Initialized(s)
    case Close => Closed(s)
    case Advance => Advanced(s)
    case InjectEnds(k, ok) =>
      if k < |s.deliveryChain| && s.deliveryChain[k].running.Some? then Settled(s, k, ok) else s
  }

  function Run(cap: nat, es: seq<Event>): Session {
    if es == [] then Fresh else Next(cap, Run(cap, es[..|es| - 1]), es[|es| - 1])
  }

  // ---- What every event keeps ----

  // The calls that the chain has still to inject, in the order it will.
  function Todo(chain: seq<Link>): seq<nat> {
    if chain == [] then [] else Todo(chain[..|chain| - 1]) + chain[|chain| - 1].todo
  }

  // The calls attempted, then those waiting for the chain or for initialize.
  function Line(s: Session): seq<nat> { s.attempts + (Todo(s.deliveryChain) + s.pendingInjects) }

  ghost predicate Increasing(ids: seq<nat>) {
    forall i, j | 0 <= i < j < |ids| :: ids[i] < ids[j]
  }

  predicate Refused(s: Session, id: nat) {
    id in s.outcomes && (s.outcomes[id].BufferFull? || s.outcomes[id].ClosedEarly?)
  }

  function RunningCall(s: Session): Option<nat> {
    if s.deliveryChain == [] then None else s.deliveryChain[0].running
  }

  ghost predicate OneAtATime(s: Session) {
    forall k | 0 < k < |s.deliveryChain| :: s.deliveryChain[k].running.None?
  }

  // The line is in call order and holds exactly the calls not refused.
  ghost predicate Ordered(s: Session) {
    && Increasing(Line(s))
    && (forall id: nat :: id in Line(s) <==> id < s.calls && !Refused(s, id))
    && (s.initialized ==> s.pendingInjects == [])
    && (forall id <- s.outcomes :: id < s.calls)
  }

  // The attempts are the injects that ended, then the running one; an outcome is told when it is known.
  ghost predicate Honest(s: Session) {
    && s.attempts == Calls(s.results) + (if RunningCall(s).Some? then [RunningCall(s).value] else [])
    && Told(s.outcomes, s.results)
    && (forall id <- s.outcomes :: Refused(s, id) || id in Calls(s.results))
  }

  ghost predicate Told(outcomes: map<nat, Outcome>, results: seq<(nat, bool)>) {
    forall r <- results :: r.0 in outcomes && outcomes[r.0] == if r.1 then Resolved else InjectFailed
  }

  function Calls(results: seq<(nat, bool)>): seq<nat> {
    if results == [] then [] else Calls(results[..|results| - 1]) + [results[|results| - 1].0]
  }

  ghost predicate Inv(cap: nat, s: Session) {
    OneAtATime(s) && Ordered(s) && Honest(s) && |s.pendingInjects| <= cap
  }

  // ---- Each event, on the line of attempted and waiting calls ----

  lemma IncreasingSnoc(ids: seq<nat>, x: nat)
    requires Increasing(ids) && forall y <- ids :: y < x
    ensures Increasing(ids + [x])
  {
    assert forall i | 0 <= i < |ids| :: ids[i] in ids;
  }

  lemma InAppend(a: seq<nat>, b: seq<nat>)
    ensures forall x: nat :: x in a + b <==> x in a || x in b
  {
  }

  lemma IncreasingSplit(a: seq<nat>, b: seq<nat>)
    requires Increasing(a + b)
    ensures Increasing(a)
    ensures forall x <- a, y <- b :: x < y
    ensures forall x: nat :: x in a + b <==> x in a || x in b
  {
    var all := a + b;
    assert forall i | 0 <= i < |a| :: all[i] == a[i];
    assert forall i | 0 <= i < |b| :: all[|a| + i] == b[i];
  }

  lemma {:induction false} TodoOfCons(l: Link, rest: seq<Link>)
    ensures Todo([l] + rest) == l.todo + Todo(rest)
  {
    if rest == [] {
      assert [l] + rest == [l];
    } else {
      assert ([l] + rest)[..|rest|] == [l] + rest[..|rest| - 1];
      TodoOfCons(l, rest[..|rest| - 1]);
    }
  }

  lemma {:induction false} RejectingMeans(outcomes: map<nat, Outcome>, ids: seq<nat>)
    ensures Rejecting(outcomes, ids).Keys == outcomes.Keys + (set id | id in ids)
    ensures forall id <- Rejecting(outcomes, ids) ::
              Rejecting(outcomes, ids)[id] == if id in ids then ClosedEarly else outcomes[id]
  {
    if ids != [] {
      assert ids == ids[..|ids| - 1] + [ids[|ids| - 1]];
      RejectingMeans(outcomes, ids[..|ids| - 1]);
    }
  }

  lemma LineGrows(cap: nat, s: Session)
    requires Ordered(s)
    ensures Ordered(Notified(cap, s))
  {
    var t := Notified(cap, s);
    if t.deliveryChain != s.deliveryChain {
      assert t.deliveryChain[..|s.deliveryChain|] == s.deliveryChain;
    }
    assert Line(t) == Line(s) || Line(t) == Line(s) + [s.calls];
    IncreasingSnoc(Line(s), s.calls);
  }

  lemma SameLine(s: Session, t: Session)
    requires Ordered(s) && Line(t) == Line(s) && t.calls == s.calls
    requires t.initialized ==> t.pendingInjects == []
    requires forall id: nat :: Refused(t, id) == Refused(s, id)
    requires forall id <- t.outcomes :: id < t.calls
    ensures Ordered(t)
  {
    hide Line, Refused, Increasing;
  }

  lemma InitializeKeepsLine(s: Session)
    requires Ordered(s)
    ensures Ordered(Initialized(s)) && Line(Initialized(s)) == Line(s)
  {
    var t := Initialized(s);
    assert t.deliveryChain[..|s.deliveryChain|] == s.deliveryChain;
    SameLine(s, t);
  }

  lemma MoveOne(a: seq<nat>, x: nat, rest: seq<nat>, later: seq<nat>, last: seq<nat>)
    ensures (a + [x]) + ((rest + later) + last) == a + ((([x] + rest) + later) + last)
  {
  }

  lemma AdvanceKeepsLine(s: Session)
    requires Ordered(s)
    ensures Ordered(Advanced(s)) && Line(Advanced(s)) == Line(s)
  {
    hide Ordered;
    if s.deliveryChain != [] {
      var l, rest := s.deliveryChain[0], s.deliveryChain[1..];
      assert s.deliveryChain == [l] + rest;
      TodoOfCons(l, rest);
      if l.running.None? && l.todo != [] {
        var x, more := l.todo[0], l.todo[1..];
        assert l.todo == [x] + more;
        TodoOfCons(Link(more, Some(x)), rest);
        MoveOne(s.attempts, x, more, Todo(rest), s.pendingInjects);
      } else if l.running.None? {
        assert Todo(rest) == Todo(s.deliveryChain);
      }
    }
    assert Line(Advanced(s)) == Line(s);
    AdvanceStillOrdered(s);
  }

  lemma AdvanceStillOrdered(s: Session)
    requires Ordered(s) && Line(Advanced(s)) == Line(s)
    ensures Ordered(Advanced(s))
  {
    hide Line, Todo;
    AdvanceFrame(s);
    hide Advanced;
    SameLine(s, Advanced(s));
  }

  lemma AdvanceFrame(s: Session)
    ensures var t := Advanced(s);
            && t.calls == s.calls && t.initialized == s.initialized
            && t.pendingInjects == s.pendingInjects && t.outcomes == s.outcomes
  {
  }

  lemma LineShrinks(s: Session)
    requires Ordered(s)
    ensures Ordered(Closed(s))
  {
    var t := Closed(s);
    RejectingMeans(s.outcomes, s.pendingInjects);
    assert Line(s) == Line(t) + s.pendingInjects;
    IncreasingSplit(Line(t), s.pendingInjects);
  }

  lemma SettleKeepsLine(s: Session, ok: bool)
    requires Ordered(s) && Honest(s) && RunningCall(s).Some?
    ensures Ordered(Settled(s, 0, ok)) && Todo(Settled(s, 0, ok).deliveryChain) == Todo(s.deliveryChain)
  {
    var t := Settled(s, 0, ok);
    var l, rest := s.deliveryChain[0], s.deliveryChain[1..];
    assert s.deliveryChain == [l] + rest;
    assert t.deliveryChain == [l.(running := None)] + rest;
    TodoOfCons(l, rest);
    TodoOfCons(l.(running := None), rest);
    assert Line(t) == Line(s);
    assert l.running.value in s.attempts;
    assert l.running.value in Line(s);
    SameLine(s, t);
  }

  // ---- Outcomes ----

  lemma OutcomesNotify(cap: nat, s: Session)
    requires OneAtATime(s) && Ordered(s) && Honest(s)
    ensures OneAtATime(Notified(cap, s)) && Honest(Notified(cap, s))
  {
    hide Calls, Line, Increasing;
  }

  lemma OutcomesInitialize(s: Session)
    requires OneAtATime(s) && Honest(s)
    ensures OneAtATime(Initialized(s)) && Honest(Initialized(s))
  {
  }

  lemma {:induction false} ResultsAreCalls(results: seq<(nat, bool)>)
    ensures forall r <- results :: r.0 in Calls(results)
  {
    if results != [] {
      var n := |results| - 1;
      ResultsAreCalls(results[..n]);
      assert results == results[..n] + [results[n]];
    }
  }

  // A call that is running or still waits has not ended.
  lemma EndedIsPast(s: Session)
    requires Ordered(s) && Honest(s)
    ensures forall r <- s.results :: r.0 !in s.pendingInjects && RunningCall(s) != Some(r.0)
  {
    var done := Calls(s.results);
    var later := (if RunningCall(s).Some? then [RunningCall(s).value] else []) + (Todo(s.deliveryChain) + s.pendingInjects);
    assert Line(s) == done + later by { hide Todo; }
    IncreasingSplit(done, later);
    ResultsAreCalls(s.results);
    InAppend(Todo(s.deliveryChain), s.pendingInjects);
    InAppend(if RunningCall(s).Some? then [RunningCall(s).value] else [], Todo(s.deliveryChain) + s.pendingInjects);
    forall r <- s.results ensures r.0 !in s.pendingInjects && RunningCall(s) != Some(r.0) {
      assert r.0 in done;
      assert r.0 !in later;
    }
  }

  lemma OutcomesClose(s: Session)
    requires OneAtATime(s) && Ordered(s) && Honest(s)
    ensures OneAtATime(Closed(s)) && Honest(Closed(s))
  {
    RejectingMeans(s.outcomes, s.pendingInjects);
    EndedIsPast(s);
  }

  lemma OutcomesAdvance(s: Session)
    requires OneAtATime(s) && Honest(s)
    ensures OneAtATime(Advanced(s)) && Honest(Advanced(s))
  {
    hide Calls;
  }

  lemma SettleFrame(s: Session, ok: bool)
    requires OneAtATime(s) && RunningCall(s).Some?
    ensures var t, id := Settled(s, 0, ok), RunningCall(s).value;
            && OneAtATime(t) && RunningCall(t).None? && t.attempts == s.attempts && t.results == s.results + [(id, ok)]
            && t.outcomes == s.outcomes[id := if ok then Resolved else InjectFailed]
  {
  }

  lemma CallsSnoc(results: seq<(nat, bool)>, r: (nat, bool))
    ensures Calls(results + [r]) == Calls(results) + [r.0]
  {
    assert (results + [r])[..|results|] == results;
  }

  lemma TellOne(outcomes: map<nat, Outcome>, results: seq<(nat, bool)>, id: nat, ok: bool)
    requires Told(outcomes, results) && forall r <- results :: r.0 != id
    ensures Told(outcomes[id := if ok then Resolved else InjectFailed], results + [(id, ok)])
  {
  }

  lemma KnowOne(s: Session, t: Session, id: nat, o: Outcome)
    requires forall i <- s.outcomes :: Refused(s, i) || i in Calls(s.results)
    requires t.outcomes == s.outcomes[id := o] && Calls(t.results) == Calls(s.results) + [id]
    ensures forall i <- t.outcomes :: Refused(t, i) || i in Calls(t.results)
  {
    hide Calls;
  }

  lemma OutcomesSettle(s: Session, ok: bool)
    requires OneAtATime(s) && Ordered(s) && Honest(s) && RunningCall(s).Some?
    ensures OneAtATime(Settled(s, 0, ok)) && Honest(Settled(s, 0, ok))
  {
    hide Ordered, Told, Calls, Settled, OneAtATime, Refused;
    var t, id := Settled(s, 0, ok), RunningCall(s).value;
    SettleFrame(s, ok);
    EndedIsPast(s);
    CallsSnoc(s.results, (id, ok));
    TellOne(s.outcomes, s.results, id, ok);
    KnowOne(s, t, id, if ok then Resolved else InjectFailed);
  }

  lemma NextKeepsInv(cap: nat, s: Session, e: Event)
    requires Inv(cap, s)
    ensures Inv(cap, Next(cap, s, e))
  {
    hide Ordered, Honest;
    match e
    case Notify => LineGrows(cap, s); OutcomesNotify(cap, s);
    case Initialize => InitializeKeepsLine(s); OutcomesInitialize(s);
    case Close => LineShrinks(s); OutcomesClose(s);
    case Advance => AdvanceKeepsLine(s); OutcomesAdvance(s);
    case InjectEnds(k, ok) =>
      if k < |s.deliveryChain| && s.deliveryChain[k].running.Some? {
        assert k == 0;
        SettleKeepsLine(s, ok);
        OutcomesSettle(s, ok);
      }
  }

  lemma {:induction false} RunKeepsInv(cap: nat, es: seq<Event>)
    ensures Inv(cap, Run(cap, es))
  {
    if es != [] {
      RunKeepsInv(cap, es[..|es| - 1]);
      NextKeepsInv(cap, Run(cap, es[..|es| - 1]), es[|es| - 1]);
    }
  }

  // ---- What holds in every run ----

  // Injects are attempted in the order of the calls, and none that was not refused is passed over.
  lemma AttemptsFollowCallOrder(cap: nat, es: seq<Event>)
    ensures var s := Run(cap, es);
            && Increasing(s.attempts)
            && forall i, id: nat | 0 <= i < |s.attempts| && id < s.attempts[i] :: id in s.attempts || Refused(s, id)
  {
    RunKeepsInv(cap, es);
    var s := Run(cap, es);
    IncreasingSplit(s.attempts, Todo(s.deliveryChain) + s.pendingInjects);
    forall i, id: nat | 0 <= i < |s.attempts| && id < s.attempts[i] ensures id in s.attempts || Refused(s, id) {
      assert s.attempts[i] in Line(s);
      assert id in Line(s) || Refused(s, id);
      assert s.attempts[i] in s.attempts;
    }
  }

  lemma NeverTwoAtOnce(cap: nat, es: seq<Event>, j: nat, k: nat)
    requires j < |Run(cap, es).deliveryChain| && k < |Run(cap, es).deliveryChain|
    requires Run(cap, es).deliveryChain[j].running.Some? && Run(cap, es).deliveryChain[k].running.Some?
    ensures j == k
  {
    RunKeepsInv(cap, es);
  }

  // A caller hears of success exactly when its own inject resolved, and of an inject's failure
  // exactly when its own inject failed; a refused call was never attempted.
  lemma OutcomesAreHonest(cap: nat, es: seq<Event>, id: nat)
    ensures var s := Run(cap, es);
            && (id in s.outcomes && s.outcomes[id] == Resolved <==> (id, true) in s.results)
            && (id in s.outcomes && s.outcomes[id] == InjectFailed <==> (id, false) in s.results)
            && (Refused(s, id) ==> id !in s.attempts)
  {
    RunKeepsInv(cap, es);
    var s := Run(cap, es);
    if id in s.outcomes && !Refused(s, id) {
      CallHasResult(s.results, id);
    }
    if id in s.attempts { assert id in Line(s); }
  }

  lemma {:induction false} CallHasResult(results: seq<(nat, bool)>, id: nat)
    requires id in Calls(results)
    ensures (id, true) in results || (id, false) in results
  {
    var n := |results| - 1;
    assert results == results[..n] + [results[n]];
    if results[n].0 == id {
      var (_, ok) := results[n];
      assert results[n] == (id, ok);
    } else {
      CallHasResult(results[..n], id);
    }
  }

  // No outcome is ever replaced, and an inject that ends settles its own caller alone.
  lemma OneFailureRejectsOneCaller(cap: nat, s: Session, k: nat, ok: bool)
    requires Inv(cap, s) && k < |s.deliveryChain| && s.deliveryChain[k].running.Some?
    ensures var id := s.deliveryChain[k].running.value;
            var t := Next(cap, s, InjectEnds(k, ok));
            && id !in s.outcomes && t.outcomes == s.outcomes[id := if ok then Resolved else InjectFailed]
            && Todo(t.deliveryChain) == Todo(s.deliveryChain) && t.pendingInjects == s.pendingInjects
  {
    EndedIsPast(s);
    SettleKeepsLine(s, ok);
    var id := s.deliveryChain[k].running.value;
    assert id in s.attempts && id in Line(s);
    if id in s.outcomes { CallHasResult(s.results, id); assert false; }
  }

  lemma OutcomesAreFinal(cap: nat, s: Session, e: Event, id: nat)
    requires Inv(cap, s) && id in s.outcomes
    ensures id in Next(cap, s, e).outcomes && Next(cap, s, e).outcomes[id] == s.outcomes[id]
  {
    match e
    case Close =>
      RejectingMeans(s.outcomes, s.pendingInjects);
      EndedIsPast(s);
      if id in s.pendingInjects { assert id in Line(s); CallHasResult(s.results, id); assert false; }
    case InjectEnds(k, ok) =>
      if k < |s.deliveryChain| && s.deliveryChain[k].running.Some? { OneFailureRejectsOneCaller(cap, s, k, ok); }
    case _ =>
  }

  // Closing before initialize rejects every buffered call, and nothing else.
  lemma CloseRejectsTheBuffered(cap: nat, s: Session, id: nat)
    requires Inv(cap, s)
    ensures var t := Next(cap, s, Close);
            && t.pendingInjects == []
            && (id in t.outcomes && id !in s.outcomes <==> id in s.pendingInjects)
            && (id in s.pendingInjects ==> t.outcomes[id] == ClosedEarly)
            && (s.initialized ==> t == s)
  {
    RejectingMeans(s.outcomes, s.pendingInjects);
    EndedIsPast(s);
    if id in s.pendingInjects {
      assert id in Line(s);
      if id in s.outcomes { CallHasResult(s.results, id); assert false; }
    }
  }

  // ---- The chain does its work ----

  function After(cap: nat, s: Session, es: seq<Event>): Session
    decreases |es|
  {
    if es == [] then s else After(cap, Next(cap, s, es[0]), es[1..])
  }

  function Work(s: Session): nat {
    2 * |Todo(s.deliveryChain)| + |s.deliveryChain| + if RunningCall(s).Some? then 1 else 0
  }

  // The next thing the chain does when every inject resolves.
  function Served(s: Session): Event { if RunningCall(s).Some? then InjectEnds(0, true) else Advance }

  lemma ServingShrinksWork(cap: nat, s: Session)
    requires Inv(cap, s) && s.deliveryChain != []
    ensures var t := Next(cap, s, Served(s));
            Work(t) < Work(s) && Line(t) == Line(s) && t.pendingInjects == s.pendingInjects
  {
    hide Work, Line, Ordered, Honest, Advanced, Settled;
    if RunningCall(s).Some? { SettlingShrinksWork(s); } else { AdvancingShrinksWork(s); }
  }

  lemma SettlingShrinksWork(s: Session)
    requires Ordered(s) && Honest(s) && RunningCall(s).Some?
    ensures var t := Settled(s, 0, true);
            Work(t) < Work(s) && Line(t) == Line(s) && t.pendingInjects == s.pendingInjects
  {
    SettleKeepsLine(s, true);
    hide Todo, Ordered, Honest;
  }

  lemma AdvancingShrinksWork(s: Session)
    requires OneAtATime(s) && Ordered(s) && s.deliveryChain != [] && RunningCall(s).None?
    ensures var t := Advanced(s);
            Work(t) < Work(s) && Line(t) == Line(s) && t.pendingInjects == s.pendingInjects
  {
    var l, rest := s.deliveryChain[0], s.deliveryChain[1..];
    assert s.deliveryChain == [l] + rest;
    TodoOfCons(l, rest);
    AdvanceKeepsLine(s);
    if l.todo != [] { TodoOfCons(Link(l.todo[1..], Some(l.todo[0])), rest); }
    hide Todo, Line, Ordered;
  }

  // While every inject resolves, the chain comes to its end with every call on it attempted in order.
  lemma {:induction false} WaitingCallsAreServed(cap: nat, s: Session) returns (es: seq<Event>)
    requires Inv(cap, s)
    ensures var t := After(cap, s, es);
            t.deliveryChain == [] && t.pendingInjects == s.pendingInjects && t.attempts + s.pendingInjects == Line(s)
    ensures forall e | e in es :: e == Advance || e == InjectEnds(0, true)
    decreases Work(s)
  {
    if s.deliveryChain == [] {
      es := [];
      assert Line(s) == s.attempts + s.pendingInjects by { assert Todo([]) + s.pendingInjects == s.pendingInjects; }
    } else {
      ServingShrinksWork(cap, s);
      NextKeepsInv(cap, s, Served(s));
      es := WaitingCallsAreServed(cap, Next(cap, s, Served(s)));
      es := [Served(s)] + es;
      hide Next, Line;
    }
  }

  // ---- Which calls are taken, and when they go out ----

  // A call is refused exactly when the session has not initialized and the buffer is full; any other
  // joins the end of the line, in the buffer until the session has initialized.
  lemma CallsAreTakenExactly(cap: nat, s: Session)
    requires Inv(cap, s)
    ensures var t, id := Next(cap, s, Notify), s.calls;
            && t.calls == id + 1 && t.initialized == s.initialized
            && (id in t.outcomes <==> !s.initialized && |s.pendingInjects| >= cap)
            && (id in t.outcomes ==> t.outcomes[id] == BufferFull && Line(t) == Line(s))
            && (id !in t.outcomes ==> Line(t) == Line(s) + [id] && t.outcomes == s.outcomes)
            && t.pendingInjects == s.pendingInjects + (if s.initialized || id in t.outcomes then [] else [id])
  {
    if s.initialized {
      var chain := s.deliveryChain + [Link([s.calls], None)];
      assert chain[..|chain| - 1] == s.deliveryChain;
      hide Todo;
    }
  }

  // Whatever is buffered or under way, from initialize on nothing more is buffered or closed out early:
  // with injects that resolve, every call of the line goes out, and so does each later one.
  lemma InitializeLetsOut(cap: nat, s: Session) returns (es: seq<Event>)
    requires Inv(cap, s)
    ensures var t := After(cap, s, [Initialize] + es);
            t.initialized && t.deliveryChain == [] && t.pendingInjects == [] && t.attempts == Line(s)
    ensures forall e | e in es :: e == Advance || e == InjectEnds(0, true)
  {
    var t := Next(cap, s, Initialize);
    NextKeepsInv(cap, s, Initialize);
    InitializeKeepsLine(s);
    es := WaitingCallsAreServed(cap, t);
    StaysInitialized(cap, t, es);
    assert ([Initialize] + es)[1..] == es;
    assert After(cap, t, es).attempts + [] == After(cap, t, es).attempts;
    hide Line, Ordered;
  }

  lemma {:induction false} StaysInitialized(cap: nat, s: Session, es: seq<Event>)
    requires s.initialized
    ensures After(cap, s, es).initialized
    decreases |es|
  {
    if es != [] { StaysInitialized(cap, Next(cap, s, es[0]), es[1..]); }
  }

  // The state that buildSessionMcpServer closes over. The names of the events are those of the model.
  class SessionMcpServer {
    const pendingInjectCap: nat

    var initialized: bool
    var pendingInjects: seq<nat>
    var deliveryChain: seq<Link>
    var calls: nat
    var outcomes: map<nat, Outcome>
    ghost var attempts: seq<nat>
    ghost var results: seq<(nat, bool)>

    ghost function Now(): Session
      reads this
    {
      Session(initialized, pendingInjects, deliveryChain, calls, outcomes, attempts, results)
    }

    constructor (pendingInjectCap: nat)
      ensures Now() == Fresh && this.pendingInjectCap == pendingInjectCap
    {
      this.pendingInjectCap := pendingInjectCap;
      initialized, pendingInjects, deliveryChain, calls, outcomes := false, [], [], 0, map[];
      attempts, results := [], [];
    }

    method OnInitialized()
      modifies this
      ensures Now() == Next(pendingInjectCap, old(Now()), Initialize)
    {
      initialized := true;
      var queued := pendingInjects;
      pendingInjects := [];
      deliveryChain := deliveryChain + [Link(queued, None)];
    }

    method OnClose()
      modifies this
      ensures Now() == Next(pendingInjectCap, old(Now()), Close)
    {
      var queued := pendingInjects;
      pendingInjects := [];
      for i := 0 to |queued|
        invariant pendingInjects == []
        invariant Now() == old(Now()).(pendingInjects := [], outcomes := Rejecting(old(outcomes), queued[..i]))
      {
        assert queued[..i + 1][..i] == queued[..i];
        outcomes := outcomes[queued[i] := ClosedEarly];
      }
      assert queued[..|queued|] == queued;
    }

    // The call up to its first await; its number is what the caller's promise is known by.
    method Notification() returns (id: nat)
      modifies this
      ensures id == old(calls) && Now() == Next(pendingInjectCap, old(Now()), Notify)
    {
      id := calls;
      calls := calls + 1;
      if initialized {
        deliveryChain := deliveryChain + [Link([id], None)];
      } else if |pendingInjects| >= pendingInjectCap {
        outcomes := outcomes[id := BufferFull];
      } else {
        pendingInjects := pendingInjects + [id];
      }
    }

    // The head of the chain runs on to its next inject, or ends.
    method AdvanceChain()
      modifies this
      ensures Now() == Next(pendingInjectCap, old(Now()), Advance)
    {
      if deliveryChain == [] || deliveryChain[0].running.Some? { return; }
      var link := deliveryChain[0];
      if link.todo == [] {
        deliveryChain := deliveryChain[1..];
      } else {
        deliveryChain := [Link(link.todo[1..], Some(link.todo[0]))] + deliveryChain[1..];
        attempts := attempts + [link.todo[0]];
      }
    }

    method InjectSettled(k: nat, ok: bool)
      requires k < |deliveryChain| && deliveryChain[k].running.Some?
      modifies this
      ensures Now() == Next(pendingInjectCap, old(Now()), InjectEnds(k, ok))
    {
      var id := deliveryChain[k].running.value;
      deliveryChain := deliveryChain[k := deliveryChain[k].(running := None)];
      outcomes := outcomes[id := if ok then Resolved else InjectFailed];
      results := results + [(id, ok)];
    }
  }
}
