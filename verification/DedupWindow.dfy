// What the dedup window of a2a-channel.ts holds back: recordDedup over the successes of a run, and
// which ids can be injected again.
module DedupWindow {
  import opened Wrappers
  import opened DeliveryChain

  // ---- The window over a sequence of successes ----

  function RecordAll(c: Config, ids: seq<string>): Receiver {
    if ids == [] then Start.r else Recorded(c, RecordAll(c, ids[..|ids| - 1]), ids[|ids| - 1])
  }

  lemma RecordSnoc(c: Config, ids: seq<string>, id: string)
    ensures RecordAll(c, ids + [id]) == Recorded(c, RecordAll(c, ids), id)
  {
    assert (ids + [id])[..|ids|] == ids;
  }

  lemma {:induction false} RecordAllIsValid(c: Config, ids: seq<string>)
    requires ValidConfig(c)
    ensures WindowValid(c, RecordAll(c, ids)) && |RecordAll(c, ids).recorded| <= |ids|
  {
    if ids != [] {
      RecordAllIsValid(c, ids[..|ids| - 1]);
      RecordKeepsWindow(c, RecordAll(c, ids[..|ids| - 1]), ids[|ids| - 1]);
    }
  }

  // The ids that succeeded last; recent ones are not to be injected again.
  function Recent(c: Config, ids: seq<string>): seq<string> { LastN(ids, c.dedupLru) }

  // The early return of recordDedup is never taken: no success is for an id the window still holds.
  predicate AllFresh(c: Config, ids: seq<string>) {
    ids == [] || (AllFresh(c, ids[..|ids| - 1]) && ids[|ids| - 1] !in RecordAll(c, ids[..|ids| - 1]).dedup)
  }

  // After every success the window has been the recent ids, in order.
  predicate TracksThroughout(c: Config, ids: seq<string>) {
    && RecordAll(c, ids).dedupOrder == Recent(c, ids)
    && (ids == [] || TracksThroughout(c, ids[..|ids| - 1]))
  }

  // Recording a fresh id pushes out the oldest, and that one is recent still.
  predicate DropsRecent(c: Config, ids: seq<string>, id: string) {
    var r := RecordAll(c, ids);
    && id !in r.dedup && |r.dedupOrder| >= c.dedupLru && r.dedupOrder != []
    && c.dedupLru >= 1 && r.dedupOrder[0] in LastN(ids, c.dedupLru - 1)
  }

  predicate NeverDropsRecent(c: Config, ids: seq<string>) {
    ids == [] || (NeverDropsRecent(c, ids[..|ids| - 1]) && !DropsRecent(c, ids[..|ids| - 1], ids[|ids| - 1]))
  }

  predicate HoldsRecent(c: Config, ids: seq<string>) {
    forall x | x in Recent(c, ids) :: x in RecordAll(c, ids).dedup
  }

  // After every success the window has held all recent ids.
  predicate HoldsThroughout(c: Config, ids: seq<string>) {
    HoldsRecent(c, ids) && (ids == [] || HoldsThroughout(c, ids[..|ids| - 1]))
  }

  lemma LastNSnoc<T>(s: seq<T>, x: T, n: nat)
    requires n >= 1
    ensures LastN(s + [x], n) == LastN(s, n - 1) + [x]
    ensures LastN(s, n) == LastN(s, n - 1) || (|s| >= n && LastN(s, n) == [s[|s| - n]] + LastN(s, n - 1))
  {
  }

  lemma RepeatBreaksTracking(c: Config, ids: seq<string>, id: string)
    requires ValidConfig(c) && TracksThroughout(c, ids) && id in RecordAll(c, ids).dedup
    ensures RecordAll(c, ids + [id]).dedupOrder == Recent(c, ids + [id]) <==> c.dedupLru == 1
  {
    var n, order := c.dedupLru, RecordAll(c, ids).dedupOrder;
    RecordSnoc(c, ids, id);
    RecordAllIsValid(c, ids);
    LastNSnoc(ids, id, n);
    if n > 1 {
      var next := LastN(ids, n - 1) + [id];
      if |ids| < n {
        assert |next| == |order| + 1;
      } else {
        assert order[1] == next[0] || |order| < 2;
        assert next[0] == LastN(ids, n - 1)[0] == order[1] && order[0] != order[1];
      }
    }
  }

  lemma FreshKeepsTracking(c: Config, ids: seq<string>, id: string)
    requires ValidConfig(c) && RecordAll(c, ids).dedupOrder == Recent(c, ids) && id !in RecordAll(c, ids).dedup
    ensures RecordAll(c, ids + [id]).dedupOrder == Recent(c, ids + [id])
  {
    RecordSnoc(c, ids, id);
    assert LastN(LastN(ids, c.dedupLru) + [id], c.dedupLru) == LastN(ids + [id], c.dedupLru);
  }

  // The window is, after every success, exactly the last dedupLru successes if and only if the early
  // return is never taken, or the window has a single place.
  lemma {:induction false} WindowTracksSuccessesIff(c: Config, ids: seq<string>)
    requires ValidConfig(c)
    ensures TracksThroughout(c, ids) <==> c.dedupLru == 1 || AllFresh(c, ids)
  {
    if ids != [] {
      var before, id := ids[..|ids| - 1], ids[|ids| - 1];
      assert before + [id] == ids;
      WindowTracksSuccessesIff(c, before);
      if TracksThroughout(c, before) {
        if id in RecordAll(c, before).dedup { RepeatBreaksTracking(c, before, id); } else { FreshKeepsTracking(c, before, id); }
      }
    }
  }

  // Pushing a fresh id takes the oldest out of a full window, and nothing else.
  lemma PushMeans(c: Config, r: Receiver, id: string)
    requires ValidConfig(c) && WindowValid(c, r) && id !in r.dedup
    ensures forall x :: x in Recorded(c, r, id).dedup <==>
              x == id || (x in r.dedup && !(|r.dedupOrder| >= c.dedupLru && x == r.dedupOrder[0]))
  {
    var order := r.dedupOrder;
    assert |order| <= c.dedupLru;
    if |order| == c.dedupLru {
      assert order == [order[0]] + order[1..];
      assert LastN(order + [id], c.dedupLru) == order[1..] + [id];
      assert order[0] !in order[1..];
    } else {
      assert LastN(order + [id], c.dedupLru) == order + [id];
    }
  }

  lemma PushHoldsRecentIff(c: Config, ids: seq<string>, id: string)
    requires ValidConfig(c) && HoldsRecent(c, ids)
    ensures HoldsRecent(c, ids + [id]) <==> !DropsRecent(c, ids, id)
  {
    var r := RecordAll(c, ids);
    RecordSnoc(c, ids, id);
    RecordAllIsValid(c, ids);
    LastNSnoc(ids, id, c.dedupLru);
    var recent := LastN(ids, c.dedupLru - 1);
    assert forall x | x in recent :: x in Recent(c, ids);
    assert forall x :: x in recent + [id] <==> x in recent || x == id;
    if id !in r.dedup {
      PushMeans(c, r, id);
      if DropsRecent(c, ids, id) { assert r.dedupOrder[0] in r.dedup && r.dedupOrder[0] in recent + [id]; }
    }
  }

  // The window holds every recent id after every success if and only if no success pushes out an id
  // that succeeded again within the last dedupLru - 1.
  lemma {:induction false} RecentAreHeldIff(c: Config, ids: seq<string>)
    requires ValidConfig(c)
    ensures HoldsThroughout(c, ids) <==> NeverDropsRecent(c, ids)
  {
    if ids != [] {
      var before, id := ids[..|ids| - 1], ids[|ids| - 1];
      assert before + [id] == ids;
      RecentAreHeldIff(c, before);
      if HoldsThroughout(c, before) {
        assert HoldsRecent(c, before);
        PushHoldsRecentIff(c, before, id);
      }
    }
  }

  lemma HeadIsApart(order: seq<string>, x: string, rest: seq<string>)
    requires Distinct(order) && order == [x] + rest
    ensures x !in rest
  {
    forall i | 0 <= i < |rest| ensures rest[i] != x { assert order[i + 1] == rest[i] && order[0] == x; }
  }

  lemma TrackedDropsNothing(c: Config, ids: seq<string>, id: string)
    requires ValidConfig(c) && RecordAll(c, ids).dedupOrder == Recent(c, ids)
    ensures !DropsRecent(c, ids, id)
  {
    RecordAllIsValid(c, ids);
    LastNSnoc(ids, id, c.dedupLru);
    hide RecordAll;
    var order, n := RecordAll(c, ids).dedupOrder, c.dedupLru;
    if |ids| >= n {
      assert order == [order[0]] + LastN(ids, n - 1);
      HeadIsApart(order, order[0], LastN(ids, n - 1));
    }
  }

  // With fresh successes only, or a window of one, nothing recent is ever pushed out.
  lemma {:induction false} FreshNeverDropsRecent(c: Config, ids: seq<string>)
    requires ValidConfig(c) && (AllFresh(c, ids) || c.dedupLru == 1)
    ensures NeverDropsRecent(c, ids)
  {
    hide DropsRecent, RecordAll, Recent;
    if ids != [] {
      var before := ids[..|ids| - 1];
      FreshNeverDropsRecent(c, before);
      WindowTracksSuccessesIff(c, before);
      TrackedDropsNothing(c, before, ids[|ids| - 1]);
    }
  }

  // ---- The window in a run ----

  // The call whose inject resolves in this action, if any.
  function Succeeding(s: System, a: Action): Option<nat> {
    match a
    case DrainSettles(call, ok) =>
      if call in s.calls && s.calls[call].stage == Draining(None) && ok then Some(call) else None
    case Resume(call) =>
      if call in s.calls && s.calls[call].stage.Awaiting? && s.calls[call].stage.promise in s.pending.settled
         && s.pending.settled[s.calls[call].stage.promise].Resolved? then Some(call) else None
    case _ => None
  }

  lemma NextRecords(c: Config, s: System, a: Action)
    ensures var t, done := Next(c, s, a), Succeeding(s, a);
            && (done.None? ==> t.successes == s.successes && t.r.(inbox := {}) == s.r.(inbox := {}))
            && (done.Some? ==>
                  && t.successes == s.successes + [s.calls[done.value].env.id]
                  && t.r == Recorded(c, s.r, s.calls[done.value].env.id))
  {
    hide P.Registered, P.Settled, P.Fired, P.AllRejected, Triage, Recorded;
  }

  // In every run the window is that of the run's successes.
  lemma {:induction false} WindowIsOfSuccesses(c: Config, actions: seq<Action>)
    ensures Run(c, actions).r.(inbox := {}) == RecordAll(c, Run(c, actions).successes)
  {
    if actions != [] {
      var s, a := Run(c, actions[..|actions| - 1]), actions[|actions| - 1];
      WindowIsOfSuccesses(c, actions[..|actions| - 1]);
      NextRecords(c, s, a);
      if Succeeding(s, a).Some? { RecordSnoc(c, s.successes, s.calls[Succeeding(s, a).value].env.id); }
      hide Next, LastN;
    }
  }

  // ---- Calls in flight ----

  predicate Injecting(stage: Stage) { stage.InSession? || stage.Draining? || stage.Awaiting? }

  // An action moves calls along: what they carry stays, and inject is begun only for an id outside the window.
  lemma CallsMove(c: Config, s: System, a: Action, i: nat)
    requires i in s.calls
    ensures var t := Next(c, s, a);
            && i in t.calls
            && t.calls[i] == s.calls[i].(stage := t.calls[i].stage)
            && (InFlight(t.calls[i].stage) ==> InFlight(s.calls[i].stage))
            && (Injecting(t.calls[i].stage) ==> Injecting(s.calls[i].stage) || s.calls[i].env.id !in s.r.dedup)
  {
    hide P.Registered, P.Settled, P.Fired, P.AllRejected, Recorded, Busy, Subscribed, Verify, StartInject;
    match a
    case Verified(call, _, _, _, _) => if call in s.calls { VerifyMoves(c, s, a); }
    case CtxInject(call, enqueueThrows) => if call in s.calls { StartMoves(c, s, call, enqueueThrows); }
    case _ =>
  }

  lemma VerifyMoves(c: Config, s: System, a: Action)
    requires a.Verified? && a.call in s.calls
    ensures var t := Verify(c, s, a);
            && t.calls == s.calls[a.call := s.calls[a.call].(stage := t.calls[a.call].stage)]
            && (t.calls[a.call].stage.InSession? ==> s.calls[a.call].env.id !in s.r.dedup)
            && !t.calls[a.call].stage.Draining? && !t.calls[a.call].stage.Awaiting? && !t.calls[a.call].stage.Verifying?
  {
  }

  lemma StartMoves(c: Config, s: System, call: nat, enqueueThrows: bool)
    requires call in s.calls
    ensures var t := StartInject(c, s, call, enqueueThrows);
            && t.calls == s.calls[call := s.calls[call].(stage := t.calls[call].stage)]
            && (t.calls[call].stage.Naked? || t.calls[call].stage.Draining?)
  {
    hide P.Registered, P.Settled;
  }

  lemma NewCalls(c: Config, s: System, a: Action, i: nat)
    requires i in Next(c, s, a).calls && i !in s.calls
    ensures Takes(s, a) && i == a.call
    ensures Next(c, s, a).calls[i].loop == a.loop && Next(c, s, a).calls[i].env == a.env && !Injecting(Next(c, s, a).calls[i].stage)
  {
    hide P.Registered, P.Settled, P.Fired, P.AllRejected, Recorded, Busy, Subscribed, Verify, StartInject;
    match a
    case Verified(call, _, _, _, _) => if call in s.calls { VerifyMoves(c, s, a); }
    case CtxInject(call, enqueueThrows) => if call in s.calls { StartMoves(c, s, call, enqueueThrows); }
    case _ =>
  }

  // ---- Runs in which no id is in flight twice ----

  // A loop takes a message only while no other call bears its id.
  predicate ArrivesApart(s: System, a: Action) {
    Takes(s, a) ==> forall i | i in s.calls && InFlight(s.calls[i].stage) :: s.calls[i].env.id != a.env.id
  }

  ghost predicate RunsApart(c: Config, actions: seq<Action>) {
    actions == [] ||
    (RunsApart(c, actions[..|actions| - 1]) && ArrivesApart(Run(c, actions[..|actions| - 1]), actions[|actions| - 1]))
  }

  ghost predicate IdsApart(s: System) {
    forall i, j | i in s.calls && j in s.calls && i != j && InFlight(s.calls[i].stage) && InFlight(s.calls[j].stage) ::
      s.calls[i].env.id != s.calls[j].env.id
  }

  // No call that is being injected has its id in the window.
  ghost predicate NoneHeld(s: System) {
    forall i | i in s.calls && Injecting(s.calls[i].stage) :: s.calls[i].env.id !in s.r.dedup
  }

  lemma NextKeepsApart(c: Config, s: System, a: Action)
    requires IdsApart(s) && ArrivesApart(s, a)
    ensures IdsApart(Next(c, s, a))
  {
    var t := Next(c, s, a);
    forall i | i in t.calls
      ensures i in s.calls ==> t.calls[i].env == s.calls[i].env && (InFlight(t.calls[i].stage) ==> InFlight(s.calls[i].stage))
      ensures i !in s.calls ==> Takes(s, a) && i == a.call && t.calls[i].env == a.env
    {
      if i in s.calls { CallsMove(c, s, a, i); } else { NewCalls(c, s, a, i); }
    }
    hide Next, InFlight, Takes;
  }

  lemma NextKeepsNoneHeld(c: Config, s: System, a: Action)
    requires ValidConfig(c) && WindowValid(c, s.r) && IdsApart(s) && NoneHeld(s)
    ensures NoneHeld(Next(c, s, a))
  {
    var t, done := Next(c, s, a), Succeeding(s, a);
    NextRecords(c, s, a);
    if done.Some? { RecordedGrowsBy(c, s.r, s.calls[done.value].env.id); DoneIsPast(c, s, a); }
    hide Next, Recorded, WindowValid;
    forall i | i in t.calls && Injecting(t.calls[i].stage) ensures t.calls[i].env.id !in t.r.dedup {
      if i in s.calls { CallsMove(c, s, a, i); } else { NewCalls(c, s, a, i); }
    }
  }

  lemma RecordedGrowsBy(c: Config, r: Receiver, id: string)
    requires ValidConfig(c) && WindowValid(c, r)
    ensures forall x | x in Recorded(c, r, id).dedup :: x in r.dedup || x == id
  {
    if id !in r.dedup { PushMeans(c, r, id); }
  }

  lemma DoneIsPast(c: Config, s: System, a: Action)
    requires Succeeding(s, a).Some?
    ensures var i := Succeeding(s, a).value;
            Injecting(s.calls[i].stage) && i in Next(c, s, a).calls && Next(c, s, a).calls[i].stage.Acked?
  {
    hide Recorded;
  }

  lemma {:induction false} ApartRunsStayFresh(c: Config, actions: seq<Action>)
    requires ValidConfig(c) && RunsApart(c, actions)
    ensures IdsApart(Run(c, actions)) && NoneHeld(Run(c, actions)) && AllFresh(c, Run(c, actions).successes)
  {
    if actions != [] {
      var before, a := actions[..|actions| - 1], actions[|actions| - 1];
      var s := Run(c, before);
      ApartRunsStayFresh(c, before);
      RunKeepsInv(c, before);
      WindowIsOfSuccesses(c, before);
      NextKeepsApart(c, s, a);
      NextKeepsNoneHeld(c, s, a);
      NextRecords(c, s, a);
      hide Next, NoneHeld, IdsApart, RecordAll, Recorded;
      if Succeeding(s, a).Some? { DoneWasFresh(c, s, a); }
    }
  }

  lemma DoneWasFresh(c: Config, s: System, a: Action)
    requires NoneHeld(s) && Succeeding(s, a).Some? && AllFresh(c, s.successes)
    requires s.r.(inbox := {}) == RecordAll(c, s.successes)
    ensures AllFresh(c, s.successes + [s.calls[Succeeding(s, a).value].env.id])
  {
    var id := s.calls[Succeeding(s, a).value].env.id;
    assert (s.successes + [id])[..|s.successes|] == s.successes;
    DoneIsPast(c, s, a);
    hide RecordAll;
  }

  // ---- Injecting a recent id again ----

  // The action attempts to inject an id that is among the last dedupLru successes.
  predicate Reinjects(c: Config, s: System, a: Action) {
    var t := Next(c, s, a);
    t.attempts != s.attempts && |t.attempts| > 0 && t.attempts[|t.attempts| - 1] in Recent(c, s.successes)
  }

  lemma AttemptIsOutsideWindow(c: Config, s: System, a: Action)
    requires Next(c, s, a).attempts != s.attempts
    ensures exists x :: x !in s.r.dedup && Next(c, s, a).attempts == s.attempts + [x]
  {
    hide P.Registered, P.Settled, P.Fired, P.AllRejected, Recorded;
  }

  lemma HeldIsNotReinjected(c: Config, s: System, a: Action)
    requires s.r.(inbox := {}) == RecordAll(c, s.successes) && HoldsRecent(c, s.successes)
    ensures !Reinjects(c, s, a)
  {
    if Next(c, s, a).attempts != s.attempts { AttemptIsOutsideWindow(c, s, a); }
    hide Next;
  }

  // In a run in which no id is in flight twice, no id among the last dedupLru successes is injected again.
  lemma RecentIsNotInjectedAgain(c: Config, actions: seq<Action>, a: Action)
    requires ValidConfig(c) && RunsApart(c, actions)
    ensures !Reinjects(c, Run(c, actions), a)
  {
    ApartRunsStayFresh(c, actions);
    FreshNeverDropsRecent(c, Run(c, actions).successes);
    NeverDroppedIsNotReinjected(c, actions, a);
  }

  // More generally: in a run in which no success has pushed out a recent id.
  lemma NeverDroppedIsNotReinjected(c: Config, actions: seq<Action>, a: Action)
    requires ValidConfig(c) && NeverDropsRecent(c, Run(c, actions).successes)
    ensures !Reinjects(c, Run(c, actions), a)
  {
    RecentAreHeldIff(c, Run(c, actions).successes);
    WindowIsOfSuccesses(c, actions);
    HeldIsNotReinjected(c, Run(c, actions), a);
  }

  // ---- Sources ----

  // No id arrives on two loops.
  predicate SourcesApart(actions: seq<Action>) {
    forall i, j | 0 <= i < |actions| && 0 <= j < |actions| && actions[i].Arrive? && actions[j].Arrive?
                  && actions[i].env.id == actions[j].env.id :: actions[i].loop == actions[j].loop
  }

  ghost predicate CameFrom(actions: seq<Action>, k: Call) {
    exists i | 0 <= i < |actions| :: actions[i].Arrive? && actions[i].loop == k.loop && actions[i].env == k.env
  }

  lemma {:induction false} CallsCameFrom(c: Config, actions: seq<Action>, call: nat)
    requires call in Run(c, actions).calls
    ensures CameFrom(actions, Run(c, actions).calls[call])
  {
    var before, a := actions[..|actions| - 1], actions[|actions| - 1];
    var s := Run(c, before);
    if call in s.calls {
      CallsCameFrom(c, before, call);
      CallsMove(c, s, a, call);
      var i :| 0 <= i < |before| && before[i].Arrive? && before[i].loop == s.calls[call].loop && before[i].env == s.calls[call].env;
      assert actions[i] == before[i];
    } else {
      NewCalls(c, s, a, call);
      assert actions[|actions| - 1] == a;
    }
    hide Next;
  }

  lemma {:induction false} SourcesApartRunApart(c: Config, actions: seq<Action>)
    requires SourcesApart(actions)
    ensures RunsApart(c, actions)
  {
    if actions != [] {
      var before, a := actions[..|actions| - 1], actions[|actions| - 1];
      var s := Run(c, before);
      assert forall i | 0 <= i < |before| :: before[i] == actions[i];
      SourcesApartRunApart(c, before);
      hide Next, Run;
      forall i | Takes(s, a) && i in s.calls && InFlight(s.calls[i].stage) ensures s.calls[i].env.id != a.env.id {
        CallsCameFrom(c, before, i);
        var j :| 0 <= j < |before| && before[j].Arrive? && before[j].loop == s.calls[i].loop && before[j].env == s.calls[i].env;
        assert actions[j] == before[j] && actions[|actions| - 1] == a;
        assert s.calls[i].loop != a.loop;
      }
    }
  }

  // So when no id arrives on two subscription loops, no recent id is injected again.
  lemma OneSourcePerIdIsEnough(c: Config, actions: seq<Action>, a: Action)
    requires ValidConfig(c) && SourcesApart(actions)
    ensures !Reinjects(c, Run(c, actions), a)
  {
    SourcesApartRunApart(c, actions);
    RecentIsNotInjectedAgain(c, actions, a);
  }

  // ---- When a recent id can be injected again ----

  lemma {:induction false} FreshNumber(used: set<nat>) returns (n: nat)
    ensures n !in used && forall x <- used :: x < n
  {
    if used == {} {
      n := 0;
    } else {
      var x :| x in used;
      n := FreshNumber(used - {x});
      n := if n > x then n else x + 1;
      assert used == used - {x} + {x};
    }
  }

  lemma {:induction false} FreshTopic(used: set<string>) returns (t: string)
    ensures t !in used && forall x <- used :: |x| < |t|
  {
    if used == {} {
      t := "t";
    } else {
      var x :| x in used;
      t := FreshTopic(used - {x});
      if |t| <= |x| { t := x + "t"; }
      assert used == used - {x} + {x};
    }
  }

  lemma RunSnoc(c: Config, actions: seq<Action>, a: Action)
    ensures Run(c, actions + [a]) == Next(c, Run(c, actions), a)
  {
    assert (actions + [a])[..|actions|] == actions;
  }

  // A message with an id that the window does not hold is injected when it comes in on a new topic.
  lemma NewTopicInjects(c: Config, s: System, id: string, loop: nat, call: nat, topic: string)
    requires id !in s.r.dedup && loop !in s.loops && call !in s.calls && !Subscribed(s, Topic(topic))
    requires forall i | i in s.calls :: s.calls[i].loop != loop
    ensures var e := Envelope(id, c.agentId + "x", "topic:" + topic, None, None, "");
            var t := Next(c, Next(c, s, Subscribe(loop, Topic(topic))), Arrive(call, loop, e, true));
            t.successes == s.successes && Next(c, t, Verified(call, VerifyOk, 0, true, false)).attempts == s.attempts + [id]
  {
    var t := Next(c, s, Subscribe(loop, Topic(topic)));
    assert t.loops[loop] == Topic(topic) && loop in t.open && !Busy(t, loop);
    var e := Envelope(id, c.agentId + "x", "topic:" + topic, None, None, "");
    assert |e.from| != |c.agentId|;
    var u := Next(c, t, Arrive(call, loop, e, true));
    assert u.calls[call] == Call(loop, e, Topic(topic), Verifying) && u.r == s.r;
    assert Triage(c, u.r, e, Topic(topic), VerifyOk, 0, true).None?;
  }

  ghost predicate LoopsKnown(s: System) { forall i | i in s.calls :: s.calls[i].loop in s.loops }

  lemma {:induction false} CallsHaveLoops(c: Config, actions: seq<Action>)
    ensures LoopsKnown(Run(c, actions))
  {
    if actions != [] {
      CallsHaveLoops(c, actions[..|actions| - 1]);
      NextKeepsLoopsKnown(c, Run(c, actions[..|actions| - 1]), actions[|actions| - 1]);
      hide Next, LoopsKnown;
    }
  }

  lemma NextKeepsLoopsKnown(c: Config, s: System, a: Action)
    requires LoopsKnown(s)
    ensures LoopsKnown(Next(c, s, a))
  {
    LoopsGrow(c, s, a);
    forall i | i in Next(c, s, a).calls ensures Next(c, s, a).calls[i].loop in Next(c, s, a).loops.Keys {
      if i in s.calls {
        CallsMove(c, s, a, i);
        assert s.calls[i].loop in s.loops.Keys;
      } else {
        NewCalls(c, s, a, i);
        assert a.loop in s.loops.Keys;
      }
    }
    hide Next;
  }

  lemma LoopsGrow(c: Config, s: System, a: Action)
    ensures s.loops.Keys <= Next(c, s, a).loops.Keys
  {
    hide P.Registered, P.Settled, P.Fired, P.AllRejected, Recorded, Triage, Subscribed, Takes;
  }

  // An id that has been pushed out while recent is injected again by the next message that bears it.
  lemma DroppedIsReinjected(c: Config, actions: seq<Action>, id: string)
    requires var s := Run(c, actions); id in Recent(c, s.successes) && id !in s.r.dedup
    ensures exists more, a :: Run(c, actions + more).successes == Run(c, actions).successes && Reinjects(c, Run(c, actions + more), a)
  {
    var s := Run(c, actions);
    CallsHaveLoops(c, actions);
    hide Run, Next, Recent;
    var loop := FreshNumber(s.loops.Keys);
    var call := FreshNumber(s.calls.Keys);
    var topic := FreshTopic(set l | l in s.loops && s.loops[l].Topic? :: s.loops[l].topic);
    var one, two, b := NewTopicReinjects(c, s, id, loop, call, topic);
    RunSnoc(c, actions, one);
    RunSnoc(c, actions + [one], two);
    assert actions + [one] + [two] == actions + [one, two];
  }

  lemma NewTopicReinjects(c: Config, s: System, id: string, loop: nat, call: nat, topic: string) returns (one: Action, two: Action, b: Action)
    requires id in Recent(c, s.successes) && id !in s.r.dedup && loop !in s.loops && call !in s.calls && !Subscribed(s, Topic(topic))
    requires LoopsKnown(s)
    ensures var t := Next(c, Next(c, s, one), two); t.successes == s.successes && Reinjects(c, t, b)
  {
    NewTopicInjects(c, s, id, loop, call, topic);
    var e := Envelope(id, c.agentId + "x", "topic:" + topic, None, None, "");
    one, two, b := Subscribe(loop, Topic(topic)), Arrive(call, loop, e, true), Verified(call, VerifyOk, 0, true, false);
    ArriveAttemptsNothing(c, s, one);
    ArriveAttemptsNothing(c, Next(c, s, one), two);
    hide Next;
  }

  lemma ArriveAttemptsNothing(c: Config, s: System, a: Action)
    requires a.Subscribe? || a.Arrive?
    ensures Next(c, s, a).attempts == s.attempts && Next(c, s, a).successes == s.successes
  {
  }

  // In any state of any run: some message could be injected with an id among the last dedupLru
  // successes, before anything else succeeds, if and only if the window does not hold all of them.
  lemma RecentIsReinjectableIff(c: Config, actions: seq<Action>)
    requires ValidConfig(c)
    ensures HoldsRecent(c, Run(c, actions).successes) <==>
            forall more, a | Run(c, actions + more).successes == Run(c, actions).successes :: !Reinjects(c, Run(c, actions + more), a)
  {
    var s := Run(c, actions);
    WindowIsOfSuccesses(c, actions);
    if HoldsRecent(c, s.successes) {
      forall more, a | Run(c, actions + more).successes == s.successes ensures !Reinjects(c, Run(c, actions + more), a) {
        WindowIsOfSuccesses(c, actions + more);
        HeldIsNotReinjected(c, Run(c, actions + more), a);
      }
    } else {
      var id :| id in Recent(c, s.successes) && id !in RecordAll(c, s.successes).dedup;
      DroppedIsReinjected(c, actions, id);
    }
  }

  // ---- A run that does it ----

  // The next two steps of a call that is in the session, on a channel that awaits no confirmation.
  function Finished(c: Config, s: System, call: nat): System {
    Next(c, Next(c, s, CtxInject(call, false)), DrainSettles(call, true))
  }

  lemma FinishMeans(c: Config, s: System, call: nat)
    requires c.delivery.None? && call in s.calls && s.calls[call].stage == InSession
    ensures var id := s.calls[call].env.id;
            Finished(c, s, call) == s.(r := Recorded(c, s.r, id), successes := s.successes + [id],
                                       calls := s.calls[call := s.calls[call].(stage := Acked(Injected(None)))])
  {
    hide Recorded;
  }

  function Begun(c: Config, s: System, call: nat, loop: nat, env: Envelope): System {
    Next(c, Next(c, s, Arrive(call, loop, env, true)), Verified(call, VerifyOk, 0, true, false))
  }

  predicate Deliverable(c: Config, s: System, call: nat, loop: nat, env: Envelope) {
    && Takes(s, Arrive(call, loop, env, true)) && env.ttlMs.None? && env.from != c.agentId
    && env.to == match s.loops[loop] case Direct => c.agentId case Topic(t) => "topic:" + t
  }

  lemma BeginMeans(c: Config, s: System, call: nat, loop: nat, env: Envelope)
    requires Deliverable(c, s, call, loop, env) && env.id !in s.r.dedup
    ensures var t := Begun(c, s, call, loop, env);
            && t.r.(inbox := {}) == s.r.(inbox := {}) && t.loops == s.loops && t.open == s.open
            && t.calls == s.calls[call := Call(loop, env, s.loops[loop], InSession)]
            && t.attempts == s.attempts + [env.id] && t.successes == s.successes
  {
    hide Busy;
  }

  // A fresh id joins a window of two and pushes out the older of two.
  lemma WindowOfTwo(c: Config, r: Receiver, id: string)
    requires c.dedupLru == 2 && |r.dedupOrder| <= 2 && r.dedup == (set x | x in r.dedupOrder) && id !in r.dedup
    ensures var t := Recorded(c, r, id);
            && t.dedupOrder == (if |r.dedupOrder| == 2 then [r.dedupOrder[1], id] else r.dedupOrder + [id])
            && t.dedup == set x | x in t.dedupOrder
  {
  }

  // What the run below has to know of each state: the window, the successes, and which calls have ended.
  predicate Shows(s: System, order: seq<string>, successes: seq<string>, used: set<nat>, running: map<nat, (nat, string)>) {
    && s.loops == map[0 := Direct, 1 := Topic("t")] && s.open == {0, 1}
    && s.r.dedupOrder == order && s.r.dedup == (set x | x in order) && s.successes == successes
    && s.calls.Keys == used
    && (forall i | i in s.calls && i !in running :: s.calls[i].stage.Acked?)
    && forall i | i in running ::
         i in s.calls && s.calls[i].loop == running[i].0 && s.calls[i].env.id == running[i].1 && s.calls[i].stage == InSession
  }

  const Two := Config("me", 2, None)

  function Inbound(id: string, loop: nat): Envelope {
    Envelope(id, "a", if loop == 0 then "me" else "topic:t", None, None, "")
  }

  lemma BeginShows(s: System, order: seq<string>, successes: seq<string>, used: set<nat>, running: map<nat, (nat, string)>,
                   call: nat, loop: nat, id: string)
    requires Shows(s, order, successes, used, running) && call !in used && loop in {0, 1} && id !in order
    requires forall i | i in running :: running[i].0 != loop
    ensures Deliverable(Two, s, call, loop, Inbound(id, loop))
    ensures Shows(Begun(Two, s, call, loop, Inbound(id, loop)), order, successes, used + {call}, running[call := (loop, id)])
  {
    assert !Busy(s, loop);
    BeginMeans(Two, s, call, loop, Inbound(id, loop));
    hide Begun;
  }

  lemma FinishShows(s: System, order: seq<string>, successes: seq<string>, used: set<nat>, running: map<nat, (nat, string)>, call: nat)
    requires Shows(s, order, successes, used, running) && call in running && |order| <= 2
    ensures var id := running[call].1;
            Shows(Finished(Two, s, call),
                  if id in order then order else if |order| == 2 then [order[1], id] else order + [id],
                  successes + [id], used, running - {call})
  {
    var id := running[call].1;
    FinishMeans(Two, s, call);
    if id !in order { WindowOfTwo(Two, s.r, id); }
    hide Finished;
    hide Recorded;
  }

  lemma RunTwo(c: Config, actions: seq<Action>, a: Action, b: Action)
    ensures Run(c, actions + [a] + [b]) == Next(c, Next(c, Run(c, actions), a), b)
  {
    RunSnoc(c, actions, a);
    RunSnoc(c, actions + [a], b);
  }

  function Begins(call: nat, loop: nat, id: string): (Action, Action) {
    (Arrive(call, loop, Inbound(id, loop), true), Verified(call, VerifyOk, 0, true, false))
  }

  lemma RunBegins(actions: seq<Action>, call: nat, loop: nat, id: string) returns (longer: seq<Action>)
    ensures Run(Two, longer) == Begun(Two, Run(Two, actions), call, loop, Inbound(id, loop))
  {
    longer := actions + [Begins(call, loop, id).0] + [Begins(call, loop, id).1];
    RunTwo(Two, actions, Begins(call, loop, id).0, Begins(call, loop, id).1);
  }

  lemma RunFinishes(actions: seq<Action>, call: nat) returns (longer: seq<Action>)
    ensures Run(Two, longer) == Finished(Two, Run(Two, actions), call)
  {
    longer := actions + [CtxInject(call, false)] + [DrainSettles(call, true)];
    RunTwo(Two, actions, CtxInject(call, false), DrainSettles(call, true));
  }

  // Two envelopes with one id, one on the inbox and one on a topic, are both in the session before
  // either succeeds; ...
  lemma BothAreInSession() returns (actions: seq<Action>)
    ensures Shows(Run(Two, actions), [], [], {0, 1}, map[0 := (0, "x"), 1 := (1, "x")])
  {
    var e := [] + [Subscribe(0, Direct)] + [Subscribe(1, Topic("t"))];
    RunTwo(Two, [], Subscribe(0, Direct), Subscribe(1, Topic("t")));
    assert Shows(Run(Two, e), [], [], {}, map[]);
    hide Run, Shows, Begun, Next;
    var f := RunBegins(e, 0, 0, "x");
    BeginShows(Run(Two, e), [], [], {}, map[], 0, 0, "x");
    actions := RunBegins(f, 1, 1, "x");
    BeginShows(Run(Two, f), [], [], {0}, map[0 := (0, "x")], 1, 1, "x");
    assert {} + {0} == {0} && {0} + {1} == {0, 1};
  }

  // A message on the inbox that goes through while the calls in running wait.
  lemma GoesThrough(actions: seq<Action>, order: seq<string>, successes: seq<string>, used: set<nat>,
                    running: map<nat, (nat, string)>, call: nat, id: string) returns (longer: seq<Action>)
    requires Shows(Run(Two, actions), order, successes, used, running) && |order| <= 2
    requires call !in used && call !in running && id !in order && forall i | i in running :: running[i].0 != 0
    ensures Shows(Run(Two, longer), if |order| == 2 then [order[1], id] else order + [id], successes + [id], used + {call}, running)
  {
    hide Run, Shows, Begun, Finished, Next;
    BeginShows(Run(Two, actions), order, successes, used, running, call, 0, id);
    longer := RunBegins(actions, call, 0, id);
    FinishShows(Run(Two, longer), order, successes, used + {call}, running[call := (0, id)], call);
    longer := RunFinishes(longer, call);
    assert running[call := (0, id)] - {call} == running;
  }

  // ... another success comes between theirs, and the next one pushes the id out, ...
  lemma IdIsPushedOut() returns (actions: seq<Action>)
    ensures Shows(Run(Two, actions), ["y", "z"], ["x", "y", "x", "z"], {0, 1, 2, 3}, map[])
  {
    hide Run, Shows, Begun, Finished, Next;
    actions := BothAreInSession();
    actions := FirstEnds(actions);
    actions := GoesThrough(actions, ["x"], ["x"], {0, 1}, map[1 := (1, "x")], 2, "y");
    assert ["x"] + ["y"] == ["x", "y"] && {0, 1} + {2} == {0, 1, 2};
    actions := SecondEnds(actions);
    actions := GoesThrough(actions, ["x", "y"], ["x", "y", "x"], {0, 1, 2}, map[], 3, "z");
    assert ["x", "y", "x"] + ["z"] == ["x", "y", "x", "z"] && {0, 1, 2} + {3} == {0, 1, 2, 3};
  }

  lemma FirstEnds(actions: seq<Action>) returns (longer: seq<Action>)
    requires Shows(Run(Two, actions), [], [], {0, 1}, map[0 := (0, "x"), 1 := (1, "x")])
    ensures Shows(Run(Two, longer), ["x"], ["x"], {0, 1}, map[1 := (1, "x")])
  {
    hide Run, Shows, Begun, Finished, Next;
    var running := map[0 := (0, "x"), 1 := (1, "x")];
    FinishShows(Run(Two, actions), [], [], {0, 1}, running, 0);
    longer := RunFinishes(actions, 0);
    assert running - {0} == map[1 := (1, "x")] && running[0].1 == "x" && [] + ["x"] == ["x"];
  }

  lemma SecondEnds(actions: seq<Action>) returns (longer: seq<Action>)
    requires Shows(Run(Two, actions), ["x", "y"], ["x", "y"], {0, 1, 2}, map[1 := (1, "x")])
    ensures Shows(Run(Two, longer), ["x", "y"], ["x", "y", "x"], {0, 1, 2}, map[])
  {
    hide Run, Shows, Begun, Finished, Next;
    FinishShows(Run(Two, actions), ["x", "y"], ["x", "y"], {0, 1, 2}, map[1 := (1, "x")], 1);
    longer := RunFinishes(actions, 1);
    assert map[1 := (1, "x")] - {1} == map[] && ["x", "y"] + ["x"] == ["x", "y", "x"];
  }

  // ... and the next message that bears it is injected although it is among the last two successes.
  lemma RecentIdInjectedAgain()
    ensures exists actions, a :: Run(Two, actions).successes == ["x", "y", "x", "z"] && Reinjects(Two, Run(Two, actions), a)
  {
    var actions := IdIsPushedOut();
    var s := Run(Two, actions);
    BeginShows(s, ["y", "z"], ["x", "y", "x", "z"], {0, 1, 2, 3}, map[], 4, 1, "x");
    var (a, b) := Begins(4, 1, "x");
    BeginMeans(Two, s, 4, 1, Inbound("x", 1));
    RunSnoc(Two, actions, a);
    ArriveAttemptsNothing(Two, s, a);
    var t := Run(Two, actions + [a]);
    assert LastN(["x", "y", "x", "z"], 2) == ["x", "z"];
    assert Recent(Two, t.successes)[0] == "x";
    hide Run, Next;
    assert Reinjects(Two, t, b);
  }
}
