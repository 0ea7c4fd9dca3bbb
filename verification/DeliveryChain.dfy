// The delivery of one inbox message: handleInbound and the subscription loops of a2a-channel.ts, the
// injector and the delivered control frame of uds_transport.ts. Calls interleave at their awaits.
module DeliveryChain {
  import opened Wrappers
  import P = Pending

  datatype Envelope = Envelope(id: string, from: string, to: string, ts: Option<int>, ttlMs: Option<int>, body: string)

  // A direct message came through the inbox, a topic message through the named topic.
  datatype Kind = Direct | Topic(topic: string)

  datatype Verdict = VerifyOk | Downgrade | BadSig

  datatype Reason =
    | BadShape | SigDowngrade | BadSignature | Duplicate | Expired | SelfEcho | SelfInbox | Misroute | Throttled

  // delivery is None for a session that does not confirm deliveries.
  datatype Config = Config(agentId: string, dedupLru: nat, delivery: Option<Confirming>)
  datatype Confirming = Confirming(epoch: int, maxInflight: nat)

  predicate ValidConfig(c: Config) { c.dedupLru >= 1 }

  // ---- The dedup window ----

  function LastN<T>(s: seq<T>, n: nat): seq<T> {
    if |s| <= n then s else s[|s| - n..]
  }

  // recorded is every id that ever entered the window, in order.
  datatype Receiver = Receiver(recorded: seq<string>, dedup: set<string>, dedupOrder: seq<string>, inbox: set<string>)

  function Recorded(c: Config, r: Receiver, id: string): Receiver {
    if id in r.dedup then r
    else
      var order := LastN(r.dedupOrder + [id], c.dedupLru);
      r.(recorded := r.recorded + [id], dedupOrder := order, dedup := set x | x in order)
  }

  predicate Distinct<T(==)>(s: seq<T>) {
    forall i, j :: 0 <= i < j < |s| ==> s[i] != s[j]
  }

  predicate WindowValid(c: Config, r: Receiver) {
    && r.dedupOrder == LastN(r.recorded, c.dedupLru)
    && Distinct(r.dedupOrder)
    && r.dedup == set x | x in r.dedupOrder
  }

  lemma PushNewest(order: seq<string>, id: string)
    requires Distinct(order) && id !in order
    ensures Distinct(order + [id])
    ensures (set x | x in order + [id]) == (set x | x in order) + {id}
  {}

  lemma DropOldest(order: seq<string>, n: nat)
    requires Distinct(order) && |order| > n
    ensures Distinct(order[1..]) && LastN(order[1..], n) == LastN(order, n)
    ensures (set x | x in order[1..]) == (set x | x in order) - {order[0]}
  {
    assert order == [order[0]] + order[1..];
  }

  lemma ShortIsLast(order: seq<string>, n: nat)
    requires |order| <= n
    ensures LastN(order, n) == order
  {}

  lemma RecordKeepsWindow(c: Config, r: Receiver, id: string)
    requires ValidConfig(c) && WindowValid(c, r)
    ensures WindowValid(c, Recorded(c, r, id)) && id in Recorded(c, r, id).dedup
  {
    if id !in r.dedup {
      var order := r.dedupOrder + [id];
      assert Distinct(order);
      assert LastN(order, c.dedupLru) == LastN(r.recorded + [id], c.dedupLru);
      assert id == LastN(order, c.dedupLru)[|LastN(order, c.dedupLru)| - 1];
    }
  }

  // ---- The checks of handleInbound, in order ----

  function Triage(c: Config, r: Receiver, env: Envelope, kind: Kind, verdict: Verdict, now: int, gateOpen: bool): Option<Reason> {
    if verdict == Downgrade then Some(SigDowngrade)
    else if verdict == BadSig then Some(BadSignature)
    else if env.id in r.dedup then Some(Duplicate)
    else if env.ttlMs.Some? && env.ts.Some? && env.ts.value + env.ttlMs.value < now then Some(Expired)
    else if env.from == c.agentId then Some(if kind.Topic? then SelfEcho else SelfInbox)
    else if kind.Direct? && env.to != c.agentId then Some(Misroute)
    else if kind.Topic? && env.to != "topic:" + kind.topic then Some(Misroute)
    else if kind.Direct? && !gateOpen then Some(Throttled)
    else None
  }

  datatype Admission = Drop(reason: Reason) | NotPersisted | Inject

  // The code from the dedup check to the call of inject runs without an await.
  function Admit(c: Config, r: Receiver, env: Envelope, kind: Kind, verdict: Verdict, now: int,
                 gateOpen: bool, persistFails: bool): (Receiver, Admission) {
    match Triage(c, r, env, kind, verdict, now, gateOpen)
    case Some(reason) => (r, Drop(reason))
    case None =>
      if kind.Direct? then
        if persistFails then (r, NotPersisted) else (r.(inbox := r.inbox + {env.id}), Inject)
      else (r, Inject)
  }

  class A2AChannel {
    const config: Config
    var dedup: set<string>
    var dedupOrder: seq<string>
    var inbox: set<string>
    ghost var recorded: seq<string>

    ghost function Now(): Receiver reads this { Receiver(recorded, dedup, dedupOrder, inbox) }

    ghost predicate Valid() reads this { ValidConfig(config) && WindowValid(config, Now()) }

    constructor (config: Config)
      requires ValidConfig(config)
      ensures Valid() && this.config == config && Now() == Receiver([], {}, [], {})
    {
      this.config := config;
      dedup, dedupOrder, inbox, recorded := {}, [], {}, [];
    }

    method RecordDedup(id: string)
      requires Valid()
      modifies this
      ensures Valid() && Now() == Recorded(config, old(Now()), id)
    {
      hide LastN, Distinct;
      RecordKeepsWindow(config, Now(), id);
      if id in dedup { return; }
      ghost var all := dedupOrder + [id];
      PushNewest(dedupOrder, id);
      dedup := dedup + {id};
      dedupOrder := dedupOrder + [id];
      recorded := recorded + [id];
      while |dedupOrder| > config.dedupLru
        invariant Distinct(dedupOrder) && dedup == set x | x in dedupOrder
        invariant LastN(dedupOrder, config.dedupLru) == LastN(all, config.dedupLru)
        invariant |all| >= config.dedupLru ==> |dedupOrder| >= config.dedupLru
        invariant recorded == old(recorded) + [id] && inbox == old(inbox)
      {
        DropOldest(dedupOrder, config.dedupLru);
        var oldest := dedupOrder[0];
        dedupOrder := dedupOrder[1..];
        dedup := dedup - {oldest};
      }
      ShortIsLast(dedupOrder, config.dedupLru);
    }

    method AdmitInbound(env: Envelope, kind: Kind, verdict: Verdict, now: int, gateOpen: bool, persistFails: bool)
      returns (a: Admission)
      requires Valid()
      modifies this
      ensures Valid() && (Now(), a) == Admit(config, old(Now()), env, kind, verdict, now, gateOpen, persistFails)
    {
      if verdict == Downgrade { return Drop(SigDowngrade); }
      if verdict != VerifyOk { return Drop(BadSignature); }
      if env.id in dedup { return Drop(Duplicate); }
      if env.ttlMs.Some? && env.ts.Some? && env.ts.value + env.ttlMs.value < now { return Drop(Expired); }
      if env.from == config.agentId { return Drop(if kind.Topic? then SelfEcho else SelfInbox); }
      match kind {
        case Direct =>
          if env.to != config.agentId { return Drop(Misroute); }
          if !gateOpen { return Drop(Throttled); }
          if persistFails { return NotPersisted; }
          inbox := inbox + {env.id};
        case Topic(topic) =>
          if env.to != "topic:" + topic { return Drop(Misroute); }
      }
      a := Inject;
    }
  }

  // ---- Calls interleaved at their awaits ----

  datatype Ack = Dropped(reason: Reason) | Injected(promise: Option<nat>)

  // Where a call of handleInbound stands: awaiting the signature check, awaiting its turn in the
  // session, awaiting the writer's drain, awaiting the delivered frame, or finished.
  datatype Stage =
    | Verifying
    | InSession
    | Draining(registered: Option<nat>)
    | Awaiting(promise: nat)
    | Acked(how: Ack)
    | Naked

  // A call of handleInbound, awaited by the loop of one subscription.
  datatype Call = Call(loop: nat, env: Envelope, kind: Kind, stage: Stage)

  datatype Delivered = Delivered(notifId: Option<string>, epoch: int, statusOk: bool)

  // loops holds what every subscription loop ever started consumes, open those not stopped. attempts
  // lists the ids inject was called with, successes those whose inject resolved, in order; confirmed
  // holds the frame that resolved each promise.
  datatype System = System(r: Receiver, loops: map<nat, Kind>, open: set<nat>, calls: map<nat, Call>,
                           pending: P.Book<string, int>, confirmed: map<nat, Delivered>,
                           attempts: seq<string>, successes: seq<string>)

  datatype Action =
    | Subscribe(loop: nat, kind: Kind)
    | Unsubscribe(loop: nat)
    | Arrive(call: nat, loop: nat, env: Envelope, wellFormed: bool)
    | Verified(call: nat, verdict: Verdict, now: int, gateOpen: bool, persistFails: bool)
    | SessionRejects(call: nat)
    | CtxInject(call: nat, enqueueThrows: bool)
    | DrainSettles(call: nat, ok: bool)
    | Resume(call: nat)
    | CtrlDelivered(frame: Delivered)
    | Timer(promise: nat)
    | Teardown

  function At(s: System, call: nat, stage: Stage): System
    requires call in s.calls
  {
    s.(calls := s.calls[call := s.calls[call].(stage := stage)])
  }

  predicate Confirms(c: Config, k: Call) { c.delivery.Some? && k.kind.Direct? }

  // The catch block of the injector, then the nak.
  function Failed(c: Config, s: System, call: nat): System
    requires call in s.calls
  {
    var k := s.calls[call];
    var t := if Confirms(c, k) then s.(pending := P.Settled(s.pending, k.env.id, P.Rejected).0) else s;
    At(t, call, Naked)
  }

  // The injection resolved: remember the id, then ack.
  function Succeeded(c: Config, s: System, call: nat, promise: Option<nat>): System
    requires call in s.calls
  {
    var id := s.calls[call].env.id;
    At(s.(r := Recorded(c, s.r, id), successes := s.successes + [id]), call, Acked(Injected(promise)))
  }

  function Verify(c: Config, s: System, a: Action): System
    requires a.Verified? && a.call in s.calls
  {
    var k := s.calls[a.call];
    var (r, admission) := Admit(c, s.r, k.env, k.kind, a.verdict, a.now, a.gateOpen, a.persistFails);
    var t := s.(r := r);
    match admission
    case Drop(reason) => At(t, a.call, Acked(Dropped(reason)))
    case NotPersisted => At(t, a.call, Naked)
    case Inject => At(t.(attempts := s.attempts + [k.env.id]), a.call, InSession)
  }

  // The injector up to its first await. Outside the try block a full or duplicate table just throws.
  function StartInject(c: Config, s: System, call: nat, enqueueThrows: bool): System
    requires call in s.calls
  {
    var k := s.calls[call];
    if !Confirms(c, k) then At(s, call, if enqueueThrows then Naked else Draining(None))
    else if |s.pending.entries| >= c.delivery.value.maxInflight then At(s, call, Naked)
    else
      match P.Registered(s.pending, k.env.id)
      case None => At(s, call, Naked)
      case Some(b) =>
        var t := s.(pending := b);
        if enqueueThrows then Failed(c, t, call) else At(t, call, Draining(Some(|s.pending.keys|)))
  }

  function FeedDelivered(c: Config, s: System, f: Delivered): System {
    if c.delivery.None? || f.notifId.None? || |f.notifId.value| == 0 || |f.notifId.value| > 128
       || f.epoch != c.delivery.value.epoch || !f.statusOk then s
    else
      var id := f.notifId.value;
      if id !in s.pending.entries then s
      else
        s.(pending := P.Settled(s.pending, id, P.Resolved(f.epoch)).0,
           confirmed := s.confirmed[s.pending.entries[id] := f])
  }

  predicate InFlight(stage: Stage) { !stage.Acked? && !stage.Naked? }

  // A loop awaits each message before it takes the next.
  predicate Busy(s: System, loop: nat) {
    exists i | i in s.calls :: s.calls[i].loop == loop && InFlight(s.calls[i].stage)
  }

  // One open loop for the inbox and one for each topic; a stopped loop still finishes its call.
  predicate Subscribed(s: System, kind: Kind) {
    exists l | l in s.open :: l in s.loops && s.loops[l] == kind
  }

  predicate Takes(s: System, a: Action) {
    a.Arrive? && a.call !in s.calls && a.loop in s.open && a.loop in s.loops && !Busy(s, a.loop)
  }

  function Next(c: Config, s: System, a: Action): System {
    match a
    case Subscribe(loop, kind) =>
      if loop in s.loops || Subscribed(s, kind) then s else s.(loops := s.loops[loop := kind], open := s.open + {loop})
    case Unsubscribe(loop) => s.(open := s.open - {loop})
    case Arrive(call, loop, env, wellFormed) =>
      if !Takes(s, a) then s
      else
        var stage := if wellFormed then Verifying else Acked(Dropped(BadShape));
        s.(calls := s.calls[call := Call(loop, env, s.loops[loop], stage)])
    case Verified(call, _, _, _, _) =>
      if call in s.calls && s.calls[call].stage.Verifying? then Verify(c, s, a) else s
    case SessionRejects(call) =>
      if call in s.calls && s.calls[call].stage.InSession? then At(s, call, Naked) else s
    case CtxInject(call, enqueueThrows) =>
      if call in s.calls && s.calls[call].stage.InSession? then StartInject(c, s, call, enqueueThrows) else s
    case DrainSettles(call, ok) =>
      if call in s.calls && s.calls[call].stage.Draining? then
        match s.calls[call].stage.registered
        case None => if ok then Succeeded(c, s, call, None) else Failed(c, s, call)
        case Some(i) => if ok then At(s, call, Awaiting(i)) else Failed(c, s, call)
      else s
    case Resume(call) =>
      if call in s.calls && s.calls[call].stage.Awaiting? && s.calls[call].stage.promise in s.pending.settled then
        var i := s.calls[call].stage.promise;
        if s.pending.settled[i].Resolved? then Succeeded(c, s, call, Some(i)) else Failed(c, s, call)
      else s
    case CtrlDelivered(frame) => FeedDelivered(c, s, frame)
    case Timer(promise) =>
      if promise in s.pending.timers && promise < |s.pending.keys| then s.(pending := P.Fired(s.pending, promise)) else s
    case Teardown => s.(pending := P.AllRejected(s.pending))
  }

  const Start := System(Receiver([], {}, [], {}), map[], {}, map[], P.EmptyBook(), map[], [], [])

  function Run(c: Config, actions: seq<Action>): System {
    if actions == [] then Start else Next(c, Run(c, actions[..|actions| - 1]), actions[|actions| - 1])
  }

  // ---- What every action keeps ----

  function Held(stage: Stage): Option<nat> {
    match stage
    case Draining(p) => p
    case Awaiting(i) => Some(i)
    case Acked(Injected(p)) => p
    case _ => None
  }

  predicate PastInject(stage: Stage) {
    stage.InSession? || stage.Draining? || stage.Awaiting? || (stage.Acked? && stage.how.Injected?)
  }

  // A direct call past its inject is persisted; past its registration it holds its own promise.
  predicate CallValid(c: Config, s: System, k: Call) {
    && (k.kind.Direct? && PastInject(k.stage) ==> k.env.id in s.r.inbox)
    && (Confirms(c, k) && PastInject(k.stage) && !k.stage.InSession? ==> Held(k.stage).Some?)
    && (Held(k.stage).Some? ==>
          var i := Held(k.stage).value; Confirms(c, k) && i < |s.pending.keys| && s.pending.keys[i] == k.env.id)
    && (k.stage.Acked? && Held(k.stage).Some? ==>
          Held(k.stage).value in s.pending.settled && s.pending.settled[Held(k.stage).value].Resolved?)
  }

  predicate CallsValid(c: Config, s: System) {
    && (forall i <- s.calls :: CallValid(c, s, s.calls[i]))
    && (forall i, j | i in s.calls && j in s.calls && i != j && Held(s.calls[i].stage).Some? ::
          Held(s.calls[i].stage) != Held(s.calls[j].stage))
  }

  // A resolved promise was resolved by an ok frame with its id and this session's epoch.
  predicate Genuine(c: Config, s: System, i: nat) {
    && i in s.confirmed && i < |s.pending.keys| && c.delivery.Some?
    && s.confirmed[i] == Delivered(Some(s.pending.keys[i]), c.delivery.value.epoch, true)
  }

  ghost predicate PendingValid(c: Config, s: System) {
    && P.Valid(s.pending)
    && |s.pending.entries| <= (if c.delivery.Some? then c.delivery.value.maxInflight else 0)
    && (forall i <- s.pending.settled :: s.pending.settled[i].Resolved? ==> Genuine(c, s, i))
  }

  ghost predicate Inv(c: Config, s: System) {
    WindowValid(c, s.r) && CallsValid(c, s) && PendingValid(c, s)
  }

  // Moving one call to a stage that is valid for it and holds no promise of another call.
  lemma AtKeepsCalls(c: Config, s: System, call: nat, stage: Stage)
    requires CallsValid(c, s) && call in s.calls && CallValid(c, s, s.calls[call].(stage := stage))
    requires Held(stage).None? || Held(stage) == Held(s.calls[call].stage) ||
             forall i <- s.calls :: Held(s.calls[i].stage) != Held(stage)
    ensures CallsValid(c, At(s, call, stage))
  {
    hide CallValid;
    var t := At(s, call, stage);
    forall i | i in t.calls ensures CallValid(c, t, t.calls[i]) { SameCall(c, s, t, t.calls[i]); }
  }

  lemma SameCall(c: Config, s: System, t: System, k: Call)
    requires s.r.inbox == t.r.inbox && s.pending == t.pending
    ensures CallValid(c, s, k) == CallValid(c, t, k)
  {}

  // The table moving on, or the inbox growing, invalidates no call.
  lemma LaterKeepsCalls(c: Config, s: System, t: System)
    requires CallsValid(c, s) && t.calls == s.calls && P.Later(s.pending, t.pending) && s.r.inbox <= t.r.inbox
    ensures CallsValid(c, t)
  {
    hide Held;
  }

  lemma FailKeepsInv(c: Config, s: System, call: nat)
    requires Inv(c, s) && call in s.calls
    ensures Inv(c, Failed(c, s, call))
  {
    hide WindowValid, CallsValid, P.Valid, P.Later, P.Settled;
    var k := s.calls[call];
    var t := if Confirms(c, k) then s.(pending := P.Settled(s.pending, k.env.id, P.Rejected).0) else s;
    P.SettleKeeps(s.pending, k.env.id, P.Rejected);
    if Confirms(c, k) { LaterKeepsCalls(c, s, t); }
    AtKeepsCalls(c, t, call, Naked);
  }

  lemma SucceedKeepsInv(c: Config, s: System, call: nat, promise: Option<nat>)
    requires ValidConfig(c) && Inv(c, s) && call in s.calls && PastInject(s.calls[call].stage) && !s.calls[call].stage.InSession?
    requires promise == Held(s.calls[call].stage)
    requires promise.Some? ==> promise.value in s.pending.settled && s.pending.settled[promise.value].Resolved?
    ensures Inv(c, Succeeded(c, s, call, promise))
  {
    hide WindowValid, PendingValid;
    StillPending(c, s, Succeeded(c, s, call, promise));
    RecordKeepsWindow(c, s.r, s.calls[call].env.id);
    var t := s.(r := Recorded(c, s.r, s.calls[call].env.id));
    LaterKeepsCalls(c, s, t);
    assert CallValid(c, s, s.calls[call]);
    AtKeepsCalls(c, t, call, Acked(Injected(promise)));
  }

  lemma VerifyKeepsInv(c: Config, s: System, a: Action)
    requires Inv(c, s) && a.Verified? && a.call in s.calls && s.calls[a.call].stage.Verifying?
    ensures Inv(c, Verify(c, s, a))
  {
    hide PendingValid, Triage;
    StillPending(c, s, Verify(c, s, a));
    var k := s.calls[a.call];
    var (r, admission) := Admit(c, s.r, k.env, k.kind, a.verdict, a.now, a.gateOpen, a.persistFails);
    var t := s.(r := r);
    LaterKeepsCalls(c, s, t);
    match admission
    case Drop(reason) => AtKeepsCalls(c, t, a.call, Acked(Dropped(reason)));
    case NotPersisted => AtKeepsCalls(c, t, a.call, Naked);
    case Inject => AtKeepsCalls(c, t, a.call, InSession);
                   LaterKeepsCalls(c, At(t, a.call, InSession), At(t.(attempts := s.attempts + [k.env.id]), a.call, InSession));
  }

  lemma RegisterKeepsPending(c: Config, s: System, id: string)
    requires PendingValid(c, s) && c.delivery.Some? && |s.pending.entries| < c.delivery.value.maxInflight
    requires P.Registered(s.pending, id).Some?
    ensures PendingValid(c, s.(pending := P.Registered(s.pending, id).value))
  {
    P.RegisterKeeps(s.pending, id);
    hide P.Valid;
  }

  lemma RegisterKeepsCalls(c: Config, s: System, call: nat)
    requires Inv(c, s) && call in s.calls && s.calls[call].stage.InSession? && Confirms(c, s.calls[call])
    requires P.Registered(s.pending, s.calls[call].env.id).Some?
    ensures var t := s.(pending := P.Registered(s.pending, s.calls[call].env.id).value);
            CallsValid(c, At(t, call, Draining(Some(|s.pending.keys|))))
  {
    hide WindowValid, P.Valid, PendingValid;
    var id := s.calls[call].env.id;
    PendingIsValid(c, s);
    P.RegisterKeeps(s.pending, id);
    var t := s.(pending := P.Registered(s.pending, id).value);
    LaterKeepsCalls(c, s, t);
    assert CallValid(c, s, s.calls[call]);
    assert forall i | i in s.calls && Held(s.calls[i].stage).Some? :: Held(s.calls[i].stage).value < |s.pending.keys|;
    AtKeepsCalls(c, t, call, Draining(Some(|s.pending.keys|)));
  }

  lemma RegisterKeepsInv(c: Config, s: System, call: nat)
    requires Inv(c, s) && call in s.calls && s.calls[call].stage.InSession?
    requires Confirms(c, s.calls[call]) && |s.pending.entries| < c.delivery.value.maxInflight
    requires P.Registered(s.pending, s.calls[call].env.id).Some?
    ensures Inv(c, At(s.(pending := P.Registered(s.pending, s.calls[call].env.id).value), call, Draining(Some(|s.pending.keys|))))
  {
    hide WindowValid, PendingValid, CallsValid;
    var t := s.(pending := P.Registered(s.pending, s.calls[call].env.id).value);
    RegisterKeepsPending(c, s, s.calls[call].env.id);
    RegisterKeepsCalls(c, s, call);
    StillPending(c, t, At(t, call, Draining(Some(|s.pending.keys|))));
  }

  lemma PendingIsValid(c: Config, s: System)
    requires PendingValid(c, s)
    ensures P.Valid(s.pending)
  {
  }

  lemma StartInjectKeepsInv(c: Config, s: System, call: nat, enqueueThrows: bool)
    requires Inv(c, s) && call in s.calls && s.calls[call].stage.InSession?
    ensures Inv(c, StartInject(c, s, call, enqueueThrows))
  {
    hide WindowValid, PendingValid, CallsValid;
    var k := s.calls[call];
    AtKeepsCalls(c, s, call, Naked);
    if !Confirms(c, k) {
      assert CallValid(c, s, k) by { CallIsValid(c, s, call); }
      AtKeepsCalls(c, s, call, Draining(None));
    } else if |s.pending.entries| < c.delivery.value.maxInflight && P.Registered(s.pending, k.env.id).Some? {
      RegisterKeepsInv(c, s, call);
      if enqueueThrows {
        var t := s.(pending := P.Registered(s.pending, k.env.id).value);
        FailKeepsInv(c, At(t, call, Draining(Some(|s.pending.keys|))), call);
        assert Failed(c, At(t, call, Draining(Some(|s.pending.keys|))), call) == Failed(c, t, call);
      }
    }
    StillPending(c, s, At(s, call, Naked));
    StillPending(c, s, At(s, call, Draining(None)));
  }

  lemma CallIsValid(c: Config, s: System, call: nat)
    requires CallsValid(c, s) && call in s.calls
    ensures CallValid(c, s, s.calls[call])
  {}

  lemma StillPending(c: Config, s: System, t: System)
    requires s.pending == t.pending && s.confirmed == t.confirmed
    ensures PendingValid(c, s) ==> PendingValid(c, t)
  {}

  lemma DeliveredKeepsInv(c: Config, s: System, f: Delivered)
    requires Inv(c, s)
    ensures Inv(c, FeedDelivered(c, s, f))
  {
    hide WindowValid, CallsValid;
    if FeedDelivered(c, s, f) != s {
      P.SettleKeeps(s.pending, f.notifId.value, P.Resolved(f.epoch));
      LaterKeepsCalls(c, s, FeedDelivered(c, s, f));
    }
  }

  lemma TimersKeepInv(c: Config, s: System, a: Action)
    requires Inv(c, s) && (a.Timer? || a.Teardown?)
    ensures Inv(c, Next(c, s, a))
  {
    hide WindowValid, CallsValid, P.Valid, P.Later, P.AllRejected, P.Fired, P.Settled;
    var t := Next(c, s, a);
    if a.Teardown? {
      P.AllRejectedKeeps(s.pending);
      LaterKeepsCalls(c, s, t);
    } else if t != s {
      P.FireKeeps(s.pending, a.promise);
      P.SettleKeeps(s.pending, s.pending.keys[a.promise], P.TimedOut);
      LaterKeepsCalls(c, s, t);
    }
  }

  lemma ArriveKeepsInv(c: Config, s: System, a: Action)
    requires Inv(c, s) && (a.Subscribe? || a.Unsubscribe? || a.Arrive?)
    ensures Inv(c, Next(c, s, a))
  {
    hide WindowValid, PendingValid;
    StillPending(c, s, Next(c, s, a));
  }

  // A call that gives up, or goes on to await its promise, keeps what it holds.
  lemma MoveKeepsInv(c: Config, s: System, call: nat, stage: Stage)
    requires Inv(c, s) && call in s.calls
    requires stage.Naked? || (s.calls[call].stage.Draining? && Some(stage) == AwaitingOf(s.calls[call].stage))
    ensures Inv(c, At(s, call, stage))
  {
    hide WindowValid, PendingValid, CallsValid;
    StillPending(c, s, At(s, call, stage));
    CallIsValid(c, s, call);
    AtKeepsCalls(c, s, call, stage);
  }

  function AwaitingOf(stage: Stage): Option<Stage> {
    if stage.Draining? && stage.registered.Some? then Some(Awaiting(stage.registered.value)) else None
  }

  lemma NextKeepsInv(c: Config, s: System, a: Action)
    requires ValidConfig(c) && Inv(c, s)
    ensures Inv(c, Next(c, s, a))
  {
    hide WindowValid, CallsValid, PendingValid, Verify, StartInject, FeedDelivered, Failed, Succeeded, P.Fired, P.AllRejected;
    match a
    case Subscribe(_, _) => ArriveKeepsInv(c, s, a);
    case Unsubscribe(_) => ArriveKeepsInv(c, s, a);
    case Arrive(_, _, _, _) => ArriveKeepsInv(c, s, a);
    case Verified(call, _, _, _, _) => if call in s.calls && s.calls[call].stage.Verifying? { VerifyKeepsInv(c, s, a); }
    case SessionRejects(call) =>
      if call in s.calls && s.calls[call].stage.InSession? { MoveKeepsInv(c, s, call, Naked); }
    case CtxInject(call, enqueueThrows) =>
      if call in s.calls && s.calls[call].stage.InSession? { StartInjectKeepsInv(c, s, call, enqueueThrows); }
    case DrainSettles(call, ok) =>
      if call in s.calls && s.calls[call].stage.Draining? {
        if !ok { FailKeepsInv(c, s, call); }
        else if s.calls[call].stage.registered.None? { SucceedKeepsInv(c, s, call, None); }
        else { MoveKeepsInv(c, s, call, Awaiting(s.calls[call].stage.registered.value)); }
      }
    case Resume(call) =>
      if call in s.calls && s.calls[call].stage.Awaiting? && s.calls[call].stage.promise in s.pending.settled {
        var i := s.calls[call].stage.promise;
        if s.pending.settled[i].Resolved? { SucceedKeepsInv(c, s, call, Some(i)); } else { FailKeepsInv(c, s, call); }
      }
    case CtrlDelivered(frame) => DeliveredKeepsInv(c, s, frame);
    case Timer(_) => TimersKeepInv(c, s, a);
    case Teardown => TimersKeepInv(c, s, a);
  }

  lemma {:induction false} RunKeepsInv(c: Config, actions: seq<Action>)
    requires ValidConfig(c)
    ensures Inv(c, Run(c, actions))
  {
    hide Next;
    if actions != [] {
      RunKeepsInv(c, actions[..|actions| - 1]);
      NextKeepsInv(c, Run(c, actions[..|actions| - 1]), actions[|actions| - 1]);
    }
  }

  // ---- What a run guarantees ----

  // On a confirming session a direct message is acked without a drop reason only after an ok
  // delivered frame with its id and this session's epoch resolved the promise of this very call.
  lemma AckedMeansDelivered(c: Config, actions: seq<Action>, call: nat)
    requires ValidConfig(c)
    requires var s := Run(c, actions); call in s.calls && s.calls[call].stage.Acked? && Confirms(c, s.calls[call])
    ensures var s := Run(c, actions);
            s.calls[call].stage.how.Injected? ==>
              exists i ::
                && s.calls[call].stage.how == Injected(Some(i)) && i in s.confirmed
                && s.confirmed[i] == Delivered(Some(s.calls[call].env.id), c.delivery.value.epoch, true)
                && forall other | other in s.calls && other != call :: Held(s.calls[other].stage) != Some(i)
  {
    hide Run, P.Valid;
    RunKeepsInv(c, actions);
    var s := Run(c, actions);
    CallIsValid(c, s, call);
    if s.calls[call].stage.how.Injected? {
      assert Held(s.calls[call].stage).Some?;
    }
  }

  // Waiting promises never exceed the limit, and each promise either waits or has settled.
  lemma InflightIsBounded(c: Config, actions: seq<Action>)
    requires ValidConfig(c)
    ensures var b := Run(c, actions).pending;
            && |b.entries| <= (if c.delivery.Some? then c.delivery.value.maxInflight else 0)
            && forall i: nat | i < |b.keys| :: i in b.settled <==> i !in b.entries.Values
  {
    RunKeepsInv(c, actions);
  }

  lemma FailedIsLater(c: Config, s: System, call: nat)
    requires P.Valid(s.pending) && call in s.calls
    ensures P.Later(s.pending, Failed(c, s, call).pending)
  {
    hide P.Valid, P.Later, P.Settled;
    P.SettleKeeps(s.pending, s.calls[call].env.id, P.Rejected);
    LaterItself(s.pending);
  }

  lemma LaterItself(b: P.Book<string, int>)
    ensures P.Later(b, b)
  {}

  // Settlements are final: no action changes how a promise settled.
  lemma SettlementsAreFinal(c: Config, s: System, a: Action)
    requires Inv(c, s)
    ensures P.Later(s.pending, Next(c, s, a).pending)
  {
    hide WindowValid, CallsValid, P.Valid, P.Later, P.Settled, P.Fired, P.AllRejected, P.Registered, Admit;
    LaterItself(s.pending);
    match a
    case CtxInject(call, _) =>
      if call in s.calls && s.calls[call].stage.InSession? { StartInjectIsLater(c, s, call, a.enqueueThrows); }
    case DrainSettles(call, _) => if call in s.calls { FailedIsLater(c, s, call); }
    case Resume(call) => if call in s.calls { FailedIsLater(c, s, call); }
    case CtrlDelivered(f) => if f.notifId.Some? { P.SettleKeeps(s.pending, f.notifId.value, P.Resolved(f.epoch)); }
    case Timer(i) =>
      if i in s.pending.timers {
        P.FireKeeps(s.pending, i);
      }
    case Teardown => P.AllRejectedKeeps(s.pending);
    case _ =>
  }

  lemma StartInjectIsLater(c: Config, s: System, call: nat, enqueueThrows: bool)
    requires P.Valid(s.pending) && call in s.calls
    ensures P.Later(s.pending, StartInject(c, s, call, enqueueThrows).pending)
  {
    hide P.Valid, P.Settled, P.Registered;
    P.RegisterKeeps(s.pending, s.calls[call].env.id);
    var r := P.Registered(s.pending, s.calls[call].env.id);
    if r.Some? { FailedIsLater(c, s.(pending := r.value), call); }
  }

  lemma AwaitedIsEntry(s: System, i: nat)
    requires P.Valid(s.pending) && i < |s.pending.keys| && i !in s.pending.settled
    ensures s.pending.keys[i] in s.pending.entries && s.pending.entries[s.pending.keys[i]] == i && i in s.pending.timers
  {
  }

  // A waiting call is acked, and its id remembered, once the frame with its id and epoch has come in; ...
  lemma DeliveredLeadsToAck(c: Config, s: System, call: nat)
    requires ValidConfig(c) && Inv(c, s) && call in s.calls && s.calls[call].stage.Awaiting?
    requires s.calls[call].stage.promise !in s.pending.settled && 1 <= |s.calls[call].env.id| <= 128
    ensures c.delivery.Some?
    ensures var k := s.calls[call];
            var t := Next(c, Next(c, s, CtrlDelivered(Delivered(Some(k.env.id), c.delivery.value.epoch, true))), Resume(call));
            t.calls[call].stage == Acked(Injected(Some(k.stage.promise))) && k.env.id in t.r.dedup
  {
    var k := s.calls[call];
    assert CallValid(c, s, k);
    AwaitedIsEntry(s, k.stage.promise);
    RecordKeepsWindow(c, s.r, k.env.id);
    hide Inv, CallValid, WindowValid, Recorded;
  }

  // ... it is naked once its timer or the teardown has come first.
  lemma GivingUpLeadsToNak(c: Config, s: System, call: nat)
    requires Inv(c, s) && call in s.calls && s.calls[call].stage.Awaiting?
    requires s.calls[call].stage.promise !in s.pending.settled
    ensures Next(c, Next(c, s, Timer(s.calls[call].stage.promise)), Resume(call)).calls[call].stage == Naked
    ensures Next(c, Next(c, s, Teardown), Resume(call)).calls[call].stage == Naked
  {
    var k := s.calls[call];
    assert CallValid(c, s, k);
    AwaitedIsEntry(s, k.stage.promise);
    hide Inv, CallValid;
  }

  // inject is attempted only for a message that passed every check: its id is not among the last
  // dedupLru ids that entered the window, it is in time, not our own, addressed to where it arrived,
  // and a direct one is already in the inbox store.
  lemma AttemptIsAdmissible(c: Config, s: System, a: Action)
    requires ValidConfig(c) && Inv(c, s) && Next(c, s, a).attempts != s.attempts
    ensures a.Verified? && a.call in s.calls && a.verdict == VerifyOk
    ensures var k := s.calls[a.call];
            && Next(c, s, a).attempts == s.attempts + [k.env.id]
            && k.env.id !in LastN(s.r.recorded, c.dedupLru)
            && (k.env.ttlMs.Some? && k.env.ts.Some? ==> a.now <= k.env.ts.value + k.env.ttlMs.value)
            && k.env.from != c.agentId
            && k.env.to == (match k.kind case Direct => c.agentId case Topic(t) => "topic:" + t)
            && (k.kind.Direct? ==> a.gateOpen && k.env.id in Next(c, s, a).r.inbox)
  {
    hide CallsValid, PendingValid;
  }

  // Nothing but an attempt that passed the checks reaches the session, and nothing is dropped that
  // would have passed them.
  lemma DropsAreNamed(c: Config, r: Receiver, env: Envelope, kind: Kind, verdict: Verdict, now: int, gateOpen: bool)
    ensures Triage(c, r, env, kind, verdict, now, gateOpen).None? <==>
            && verdict == VerifyOk && env.id !in r.dedup
            && (env.ttlMs.Some? && env.ts.Some? ==> now <= env.ts.value + env.ttlMs.value)
            && env.from != c.agentId
            && env.to == (match kind case Direct => c.agentId case Topic(t) => "topic:" + t)
            && (kind.Direct? ==> gateOpen)
  {}

  lemma VerifyLeaves(c: Config, s: System, a: Action, call: nat)
    requires a.Verified? && a.call in s.calls && call in s.calls && call != a.call
    ensures call in Verify(c, s, a).calls && Verify(c, s, a).calls[call] == s.calls[call]
  {
  }

  lemma StartLeaves(c: Config, s: System, i: nat, enqueueThrows: bool, call: nat)
    requires i in s.calls && call in s.calls && call != i
    ensures call in StartInject(c, s, i, enqueueThrows).calls && StartInject(c, s, i, enqueueThrows).calls[call] == s.calls[call]
  {
    hide P.Registered, P.Settled;
  }

  // A call that has acked or naked stays as it is.
  lemma OutcomesAreFinal(c: Config, s: System, a: Action, call: nat)
    requires call in s.calls && (s.calls[call].stage.Acked? || s.calls[call].stage.Naked?)
    ensures call in Next(c, s, a).calls && Next(c, s, a).calls[call] == s.calls[call]
  {
    hide Verify, StartInject, Recorded, P.Settled, P.Fired, P.AllRejected, Takes, Subscribed;
    match a
    case Verified(i, _, _, _, _) => if i in s.calls && i != call { VerifyLeaves(c, s, a, call); }
    case CtxInject(i, enqueueThrows) => if i in s.calls && i != call { StartLeaves(c, s, i, enqueueThrows, call); }
    case Arrive(_, _, _, _) => ArriveLeaves(c, s, a, call);
    case _ =>
  }

  lemma ArriveLeaves(c: Config, s: System, a: Action, call: nat)
    requires a.Arrive? && call in s.calls
    ensures call in Next(c, s, a).calls && Next(c, s, a).calls[call] == s.calls[call]
  {
  }
}
