// What becomes of one inbound message step by step: which check drops it, when the injector registers
// it, which frame confirms it, and that a good message is acked.
module DeliveryProgress {
  import opened Wrappers
  import P = Pending
  import opened DeliveryChain

  // ---- The checks ----

  datatype Check = Check(fails: bool, reason: Reason)

  // In the order in which handleInbound makes them.
  function Checks(c: Config, r: Receiver, env: Envelope, kind: Kind, verdict: Verdict, now: int, gateOpen: bool): seq<Check> {
    [Check(verdict == Downgrade, SigDowngrade),
     Check(verdict == BadSig, BadSignature),
     Check(env.id in r.dedup, Duplicate),
     Check(env.ttlMs != None && env.ts != None && now > env.ts.value + env.ttlMs.value, Expired),
     Check(env.from == c.agentId, if kind == Direct then SelfInbox else SelfEcho),
     Check(env.to != (match kind case Direct => c.agentId case Topic(t) => "topic:" + t), Misroute),
     Check(kind == Direct && !gateOpen, Throttled)]
  }

  // A dropped message names the first check that fails.
  lemma DropNamesTheFirstFailure(c: Config, r: Receiver, env: Envelope, kind: Kind, verdict: Verdict, now: int, gateOpen: bool, i: nat)
    requires var checks := Checks(c, r, env, kind, verdict, now, gateOpen);
             i < |checks| && checks[i].fails && forall j | 0 <= j < i :: !checks[j].fails
    ensures Triage(c, r, env, kind, verdict, now, gateOpen) == Some(Checks(c, r, env, kind, verdict, now, gateOpen)[i].reason)
  {
    var checks := Checks(c, r, env, kind, verdict, now, gateOpen);
    assert i > 0 ==> !checks[0].fails;
    assert i > 1 ==> !checks[1].fails;
    assert i > 2 ==> !checks[2].fails;
    assert i > 3 ==> !checks[3].fails;
    assert i > 4 ==> !checks[4].fails;
    assert i > 5 ==> !checks[5].fails;
  }

  predicate Passes(c: Config, s: System, k: Call, a: Action)
    requires a.Verified?
  {
    && a.verdict == VerifyOk && k.env.id !in s.r.dedup
    && (k.env.ttlMs.Some? && k.env.ts.Some? ==> a.now <= k.env.ts.value + k.env.ttlMs.value)
    && k.env.from != c.agentId
    && k.env.to == (match k.kind case Direct => c.agentId case Topic(t) => "topic:" + t)
    && (k.kind.Direct? ==> a.gateOpen)
  }

  // A message that passes is attempted, a direct one once it is stored; one that cannot be stored is
  // naked. One that does not pass is acked, with nothing else done.
  lemma PassedIsAttempted(c: Config, s: System, a: Action)
    requires a.Verified? && a.call in s.calls && s.calls[a.call].stage.Verifying?
    ensures var k, t := s.calls[a.call], Next(c, s, a);
            if !Passes(c, s, k, a) then t.calls[a.call].stage.Acked? && t.calls[a.call].stage.how.Dropped? && t == s.(calls := t.calls)
            else if k.kind.Direct? && a.persistFails then t == At(s, a.call, Naked)
            else t == At(s.(attempts := s.attempts + [k.env.id], r := s.r.(inbox := s.r.inbox + (if k.kind.Direct? then {k.env.id} else {}))), a.call, InSession)
  {
    var k := s.calls[a.call];
    DropsAreNamed(c, s.r, k.env, k.kind, a.verdict, a.now, a.gateOpen);
    hide Triage;
    assert s.r.inbox + {} == s.r.inbox;
  }

  // ---- The injector ----

  // A confirming inject registers a promise under the message's id and goes on exactly while there is
  // room and the id is free; otherwise, or when the frame cannot be enqueued, it naks and leaves the
  // waiting promises as they were.
  lemma InjectRegistersExactly(c: Config, s: System, call: nat, enqueueThrows: bool)
    requires Inv(c, s) && call in s.calls && s.calls[call].stage.InSession? && Confirms(c, s.calls[call])
    ensures var id, t, p := s.calls[call].env.id, Next(c, s, CtxInject(call, enqueueThrows)), |s.pending.keys|;
            if |s.pending.entries| < c.delivery.value.maxInflight && id !in s.pending.entries && !enqueueThrows then
              && t.calls[call].stage == Draining(Some(p))
              && t.pending.entries == s.pending.entries[id := p] && p in t.pending.timers
              && t.pending.settled == s.pending.settled && t.pending.keys == s.pending.keys + [id]
            else t.calls[call].stage == Naked && t.pending.entries == s.pending.entries
  {
    var id := s.calls[call].env.id;
    if id !in s.pending.entries {
      var b := P.Registered(s.pending, id).value;
      assert P.Settled(b, id, P.Rejected).0.entries == s.pending.entries;
    }
    hide Inv;
  }

  // One that is not to be confirmed registers nothing.
  lemma PlainInjectRegistersNothing(c: Config, s: System, call: nat, enqueueThrows: bool)
    requires call in s.calls && s.calls[call].stage.InSession? && !Confirms(c, s.calls[call])
    ensures Next(c, s, CtxInject(call, enqueueThrows)) == At(s, call, if enqueueThrows then Naked else Draining(None))
  {
  }

  // A drain that fails, or a session that refuses the notification, naks the call; its promise no
  // longer waits.
  lemma FailedDrainNaks(c: Config, s: System, call: nat)
    requires Inv(c, s) && call in s.calls
    ensures s.calls[call].stage.Draining? ==>
              var t := Next(c, s, DrainSettles(call, false));
              t.calls[call].stage == Naked && (Confirms(c, s.calls[call]) ==> s.calls[call].env.id !in t.pending.entries) && t.r == s.r
    ensures s.calls[call].stage.InSession? ==> Next(c, s, SessionRejects(call)) == At(s, call, Naked)
  {
    hide Inv;
  }

  // ---- The delivered frame ----

  // A frame settles a promise exactly when it bears the id of one that waits, of 1 to 128 characters,
  // this session's epoch and an ok status; any other changes nothing.
  lemma FrameSettlesExactly(c: Config, s: System, f: Delivered)
    ensures var t := Next(c, s, CtrlDelivered(f));
            if c.delivery != None && f.epoch == c.delivery.value.epoch && f.statusOk
               && f.notifId != None && 1 <= |f.notifId.value| <= 128 && f.notifId.value in s.pending.entries
            then
              var p := s.pending.entries[f.notifId.value];
              && t.pending.settled == s.pending.settled[p := P.Resolved(f.epoch)] && t.confirmed == s.confirmed[p := f]
              && f.notifId.value !in t.pending.entries && p !in t.pending.timers && t.calls == s.calls
            else t == s
  {
  }

  // ---- A good message ----

  // A direct message on a confirming session that passes the checks, with room in the table and its id
  // free, is stored, attempted, registered, confirmed by its frame and acked; its id is a success.
  lemma GoodMessageIsAcked(c: Config, s: System, call: nat, loop: nat, env: Envelope, now: int)
    requires ValidConfig(c) && Inv(c, s) && Takes(s, Arrive(call, loop, env, true)) && s.loops[loop] == Direct
    requires c.delivery.Some? && |s.pending.entries| < c.delivery.value.maxInflight && env.id !in s.pending.entries
    requires env.id !in s.r.dedup && env.from != c.agentId && env.to == c.agentId && 1 <= |env.id| <= 128
    requires env.ttlMs.Some? && env.ts.Some? ==> now <= env.ts.value + env.ttlMs.value
    ensures var t := Confirmed(c, Enqueued(c, s, call, loop, env, now), call, env.id);
            && call in t.calls && t.calls[call].stage == Acked(Injected(Some(|s.pending.keys|)))
            && t.successes == s.successes + [env.id] && t.attempts == s.attempts + [env.id]
            && env.id in t.r.inbox && env.id in t.r.dedup && t.pending.entries == s.pending.entries
  {
    hide Next, Inv, Recorded, WindowValid, Enqueued;
    EnqueuedAwaits(c, s, call, loop, env, now);
    var s4 := Enqueued(c, s, call, loop, env, now);
    var f := Delivered(Some(env.id), c.delivery.value.epoch, true);
    FrameSettlesExactly(c, s4, f);
    FrameLeavesRest(c, s4, f);
    var s5 := Next(c, s4, CtrlDelivered(f));
    RecordKeepsWindow(c, s5.r, env.id);
    ResumeSucceeds(c, s5, call);
    Unsettled(s.pending.entries, env.id, |s.pending.keys|);
  }

  lemma Unsettled(m: map<string, nat>, key: string, p: nat)
    requires key !in m
    ensures m[key := p] - {key} == m
  {
  }

  // The steps up to the await of the delivered frame, and those from it.
  function Enqueued(c: Config, s: System, call: nat, loop: nat, env: Envelope, now: int): System {
    var s2 := Next(c, Next(c, s, Arrive(call, loop, env, true)), Verified(call, VerifyOk, now, true, false));
    Next(c, Next(c, s2, CtxInject(call, false)), DrainSettles(call, true))
  }

  function Confirmed(c: Config, s: System, call: nat, id: string): System
    requires c.delivery.Some?
  {
    Next(c, Next(c, s, CtrlDelivered(Delivered(Some(id), c.delivery.value.epoch, true))), Resume(call))
  }

  lemma EnqueuedAwaits(c: Config, s: System, call: nat, loop: nat, env: Envelope, now: int)
    requires ValidConfig(c) && Inv(c, s) && Takes(s, Arrive(call, loop, env, true)) && s.loops[loop] == Direct
    requires c.delivery.Some? && |s.pending.entries| < c.delivery.value.maxInflight && env.id !in s.pending.entries
    requires env.id !in s.r.dedup && env.from != c.agentId && env.to == c.agentId
    requires env.ttlMs.Some? && env.ts.Some? ==> now <= env.ts.value + env.ttlMs.value
    ensures var t, p := Enqueued(c, s, call, loop, env, now), |s.pending.keys|;
            && t.calls == s.calls[call := Call(loop, env, Direct, Awaiting(p))]
            && t.successes == s.successes && t.attempts == s.attempts + [env.id]
            && t.r == s.r.(inbox := s.r.inbox + {env.id}) && t.pending.entries == s.pending.entries[env.id := p]
            && WindowValid(c, t.r)
  {
    var s1 := Next(c, s, Arrive(call, loop, env, true));
    var s2 := Next(c, s1, Verified(call, VerifyOk, now, true, false));
    ArrivalIsTaken(c, s, call, loop, env);
    NextKeepsInv(c, s, Arrive(call, loop, env, true));
    NextKeepsInv(c, s1, Verified(call, VerifyOk, now, true, false));
    PassedIsAttempted(c, s1, Verified(call, VerifyOk, now, true, false));
    InjectRegistersExactly(c, s2, call, false);
    var s3 := Next(c, s2, CtxInject(call, false));
    InjectLeavesRest(c, s2, call);
    DrainGoesOn(c, s3, call);
    hide Next, Inv, Recorded;
  }

  lemma ArrivalIsTaken(c: Config, s: System, call: nat, loop: nat, env: Envelope)
    requires Takes(s, Arrive(call, loop, env, true))
    ensures Next(c, s, Arrive(call, loop, env, true)) == s.(calls := s.calls[call := Call(loop, env, s.loops[loop], Verifying)])
  {
  }

  lemma InjectLeavesRest(c: Config, s: System, call: nat)
    requires call in s.calls && s.calls[call].stage.InSession?
    ensures var t := Next(c, s, CtxInject(call, false));
            && t.r == s.r && t.successes == s.successes && t.attempts == s.attempts
            && t.calls == s.calls[call := s.calls[call].(stage := t.calls[call].stage)]
  {
    hide P.Settled, P.Registered;
  }

  lemma DrainGoesOn(c: Config, s: System, call: nat)
    requires call in s.calls && s.calls[call].stage.Draining? && s.calls[call].stage.registered.Some?
    ensures Next(c, s, DrainSettles(call, true)) == At(s, call, Awaiting(s.calls[call].stage.registered.value))
  {
  }

  lemma FrameLeavesRest(c: Config, s: System, f: Delivered)
    ensures var t := Next(c, s, CtrlDelivered(f));
            && t.r == s.r && t.successes == s.successes && t.attempts == s.attempts && t.calls == s.calls
            && t.pending.entries == if f.notifId.Some? && t != s then s.pending.entries - {f.notifId.value} else s.pending.entries
  {
    if f.notifId.Some? {
      assert P.Without(s.pending.entries, f.notifId.value) == s.pending.entries - {f.notifId.value};
    }
  }

  lemma ResumeSucceeds(c: Config, s: System, call: nat)
    requires call in s.calls && s.calls[call].stage.Awaiting? && s.calls[call].stage.promise in s.pending.settled
    requires s.pending.settled[s.calls[call].stage.promise].Resolved?
    ensures var id, t := s.calls[call].env.id, Next(c, s, Resume(call));
            && call in t.calls && t.r.inbox == s.r.inbox
            && t.calls[call].stage == Acked(Injected(Some(s.calls[call].stage.promise))) && t.successes == s.successes + [id]
            && t.r == Recorded(c, s.r, id) && t.attempts == s.attempts && t.pending == s.pending
  {
    assert Recorded(c, s.r, s.calls[call].env.id).inbox == s.r.inbox;
    hide Recorded;
  }

  // On a session that does not confirm, the message is acked once it has been drained.
  lemma DrainedMessageIsAcked(c: Config, s: System, call: nat)
    requires call in s.calls && s.calls[call].stage == Draining(None)
    ensures var t := Next(c, s, DrainSettles(call, true));
            && t.calls[call].stage == Acked(Injected(None)) && t.successes == s.successes + [s.calls[call].env.id]
            && t.r == Recorded(c, s.r, s.calls[call].env.id)
  {
    hide Recorded;
  }

  // ---- Subscriptions ----

  // One open loop for each source, in every run.
  lemma {:induction false} OneLoopForEachSource(c: Config, actions: seq<Action>, l: nat, m: nat)
    requires var s := Run(c, actions); l in s.open && m in s.open && l in s.loops && m in s.loops && s.loops[l] == s.loops[m]
    ensures l == m
  {
    if actions != [] {
      var s, a := Run(c, actions[..|actions| - 1]), actions[|actions| - 1];
      OpenMoves(c, s, a);
      OpenAreKnown(c, actions[..|actions| - 1]);
      if l in s.open && m in s.open { OneLoopForEachSource(c, actions[..|actions| - 1], l, m); }
      hide Next, Run;
    }
  }

  lemma {:induction false} OpenAreKnown(c: Config, actions: seq<Action>)
    ensures forall l <- Run(c, actions).open :: l in Run(c, actions).loops
  {
    if actions != [] {
      OpenAreKnown(c, actions[..|actions| - 1]);
      OpenMoves(c, Run(c, actions[..|actions| - 1]), actions[|actions| - 1]);
      hide Next;
    }
  }

  lemma OpenMoves(c: Config, s: System, a: Action)
    ensures var t := Next(c, s, a);
            if a.Subscribe? then
              if a.loop in s.loops || Subscribed(s, a.kind) then t == s
              else t.loops == s.loops[a.loop := a.kind] && t.open == s.open + {a.loop}
            else t.loops == s.loops && t.open == s.open - (if a.Unsubscribe? then {a.loop} else {})
  {
    hide P.Registered, P.Settled, P.Fired, P.AllRejected, Recorded, Subscribed, Verify, StartInject, Takes;
    match a
    case Verified(call, _, _, _, _) => if call in s.calls { VerifyLeavesLoops(c, s, a); }
    case CtxInject(call, enqueueThrows) => if call in s.calls { StartLeavesLoops(c, s, call, enqueueThrows); }
    case _ =>
  }

  lemma VerifyLeavesLoops(c: Config, s: System, a: Action)
    requires a.Verified? && a.call in s.calls
    ensures Verify(c, s, a).loops == s.loops && Verify(c, s, a).open == s.open
  {
  }

  lemma StartLeavesLoops(c: Config, s: System, call: nat, enqueueThrows: bool)
    requires call in s.calls
    ensures StartInject(c, s, call, enqueueThrows).loops == s.loops && StartInject(c, s, call, enqueueThrows).open == s.open
  {
    hide P.Registered, P.Settled;
  }
}
