// The subscription reconciler of nats-channel.ts: reload() triggers, the chain of passes they share,
// and what one pass does to the active subscriptions. Each event is a stretch of code without an await.
module Reconciler {
  import opened Wrappers

  // ---- Specs ----

  datatype Mode = CoreSub | JetStream | OtherMode(name: string)

  // The fields as a template string writes them, an absent stream or durable as ""; rest stands for the
  // throttle, filter and attribute fields. A field may hold an object that cannot be written at all, as
  // {"toString": 1} cannot: printable says that those the id and the cursor are written from can.
  datatype Spec = Spec(subject: string, mode: Mode, stream: string, durable: string, rest: string, printable: bool)

  // An entry of a list nobody has validated: null, one whose subject is no string, or any other.
  datatype Raw = Null | Malformed(spec: Spec) | Parsed(spec: Spec)

  function IdOf(s: Spec): string {
    (match s.mode case CoreSub => "core" case JetStream => "jetstream" case OtherMode(name) => name)
    + ":" + s.subject + ":" + s.durable
  }

  // idOf throws for anything else.
  predicate HasId(r: Raw) { !r.Null? && r.spec.printable }

  const A2A_PREFIX := "alloyium.a2a."

  function CursorKey(s: Spec): string { s.stream + ":" + s.durable }

  predicate Acceptable(r: Raw) {
    && r.Parsed? && !r.spec.mode.OtherMode? && !(A2A_PREFIX <= r.spec.subject)
    && (r.spec.mode == JetStream ==> r.spec.stream != "" && r.spec.durable != "")
  }

  // validateSpecs throws where it writes the cursor of such an entry.
  predicate Unwritable(r: Raw) { Acceptable(r) && r.spec.mode == JetStream && !r.spec.printable }

  // The cursors that the accepted specs of a list take.
  function Cursors(specs: seq<Spec>): set<string> {
    set s | s in specs && s.mode == JetStream :: CursorKey(s)
  }

  // A spec is kept unless it is malformed or takes the cursor of one kept before it.
  function Valid(raws: seq<Raw>): seq<Spec> {
    if raws == [] then []
    else
      var before, r := Valid(raws[..|raws| - 1]), raws[|raws| - 1];
      if Acceptable(r) && !(r.spec.mode == JetStream && CursorKey(r.spec) in Cursors(before)) then before + [r.spec] else before
  }

  lemma {:induction false} ValidSharesNoCursor(raws: seq<Raw>)
    ensures var v := Valid(raws);
            && |v| <= |raws|
            && (forall s | s in v :: Acceptable(Parsed(s)) && Parsed(s) in raws)
            && forall i, j | 0 <= i < j < |v| && v[i].mode == JetStream && v[j].mode == JetStream ::
                 CursorKey(v[i]) != CursorKey(v[j])
  {
    if raws != [] {
      ValidSharesNoCursor(raws[..|raws| - 1]);
      assert raws == raws[..|raws| - 1] + [raws[|raws| - 1]];
    }
  }

  // What a list is to hold: a core subject, or a JetStream one with stream and durable, outside the
  // subjects of the A2A bus.
  predicate Usable(r: Raw) {
    && r.Parsed? && !(A2A_PREFIX <= r.spec.subject)
    && (r.spec.mode == CoreSub || (r.spec.mode == JetStream && !(r.spec.stream == "" || r.spec.durable == "")))
  }

  // Nothing is rejected exactly when every entry is usable and no two take one cursor.
  ghost predicate AllUsable(raws: seq<Raw>) {
    && (forall r | r in raws :: Usable(r))
    && forall i, j | 0 <= i < j < |raws| ::
         raws[i].Parsed? && raws[j].Parsed? && raws[i].spec.mode == JetStream && raws[j].spec.mode == JetStream ==>
         CursorKey(raws[i].spec) != CursorKey(raws[j].spec)
  }

  lemma UsableIsAcceptable(r: Raw)
    ensures Usable(r) <==> Acceptable(r)
  {
  }

  lemma {:induction false} CleanIffAllUsable(raws: seq<Raw>)
    ensures |Valid(raws)| == |raws| <==> AllUsable(raws)
    ensures AllUsable(raws) ==> forall i | 0 <= i < |raws| :: |Valid(raws)| == |raws| && raws[i] == Parsed(Valid(raws)[i])
  {
    if raws != [] {
      forall x ensures Usable(x) <==> Acceptable(x) { UsableIsAcceptable(x); }
      hide Usable, Acceptable;
      var rest, r := raws[..|raws| - 1], raws[|raws| - 1];
      CleanIffAllUsable(rest);
      ValidSharesNoCursor(rest);
      assert raws == rest + [r];
    }
  }

  // ---- One pass ----

  // A subscription; its number tells the object apart from every other, and a dead one's loop has ended.
  datatype Sub = Sub(spec: Spec, number: nat)

  // What loadSpecs gets from Redis.
  datatype Got = Unavailable | Absent | BadJson | Value(raws: seq<Raw>)

  // A pass after its load: the ids to look at for dropping, with the subscription each had, then the
  // ids to look at for adding. failed and died are the ids whose subscribe failed, and whose loop
  // died, during the pass.
  datatype Work = Work(desired: map<string, Spec>, clean: bool, drops: seq<(string, Sub)>, adds: seq<(string, Spec)>,
                       failed: set<string>, died: set<string>)

  // A link of the chain: not started, awaiting its load, awaiting stopSub or subscribe, or thrown and
  // not yet caught.
  datatype Link =
    | Waiting | Loading
    | Dropping(work: Work)
    | Restarting(work: Work, id: string, spec: Spec)
    | Subscribing(work: Work, id: string, spec: Spec, number: nat)
    | Thrown

  // A durable deleted by the pass with this number.
  datatype Deletion = Deletion(pass: nat, id: string)

  // exposed records that a throw was caught while a pass was queued, and that pass has not started.
  datatype Channel = Channel(
    active: map<string, Sub>, chain: seq<Link>, reloadQueued: bool, everLoaded: bool, nextSub: nat,
    calls: nat, started: nat, loads: map<nat, Work>, deletions: seq<Deletion>, finished: Option<Work>, exposed: bool)

  datatype Config = Config(defaults: seq<Raw>, deleteOnDrop: bool)

  const Fresh := Channel(map[], [], false, false, 0, 0, 0, map[], [], None, false)

  // Only a subscription that is not a core one has a durable to delete.
  predicate HasDurable(s: Spec) { s.mode != CoreSub && s.stream != "" && s.durable != "" }

  // new Map(specs.map(s => [idOf(s), s])): a repeated id keeps its place and takes the last spec.
  function Desired(specs: seq<Spec>): map<string, Spec> {
    if specs == [] then map[] else Desired(specs[..|specs| - 1])[IdOf(specs[|specs| - 1]) := specs[|specs| - 1]]
  }

  function Order(specs: seq<Spec>): (ids: seq<string>)
    ensures forall id :: id in ids <==> id in Desired(specs)
  {
    if specs == [] then []
    else
      var before, id := Order(specs[..|specs| - 1]), IdOf(specs[|specs| - 1]);
      if id in before then before else before + [id]
  }

  function WithHead(s: Channel, l: Link): Channel
    requires s.chain != []
  {
    s.(chain := s.chain[0 := l])
  }

  // stopSub up to its await.
  function SubStopped(s: Channel, id: string, deleted: bool): Channel {
    s.(active := s.active - {id}, deletions := if deleted then s.deletions + [Deletion(s.started, id)] else s.deletions)
  }

  // The pass runs on to its next await, or to its end.
  function Proceed(c: Config, s: Channel, w: Work): Channel
    requires s.chain != []
    decreases |w.drops| + |w.adds|
  {
    if w.drops != [] then
      var (id, sub) := w.drops[0];
      var rest := w.(drops := w.drops[1..]);
      if id in w.desired then Proceed(c, s, rest)
      else
        var deleted := HasDurable(sub.spec) && w.clean && c.deleteOnDrop;
        WithHead(SubStopped(s, id, deleted), Dropping(rest))
    else if w.adds != [] then
      var (id, spec) := w.adds[0];
      var rest := w.(adds := w.adds[1..]);
      if id !in s.active then WithHead(s.(nextSub := s.nextSub + 1), Subscribing(rest, id, spec, s.nextSub))
      else if s.active[id].spec != spec then WithHead(SubStopped(s, id, false), Restarting(rest, id, spec))
      else Proceed(c, s, rest)
    else s.(chain := s.chain[1..], finished := Some(w))
  }

  // The order in which the Map of active subscriptions is walked: each of its entries, once.
  predicate Walks(order: seq<string>, active: map<string, Sub>) {
    && (forall id | id in order :: id in active)
    && (forall id <- active :: id in order)
    && forall i, j | 0 <= i < j < |order| :: order[i] != order[j]
  }

  function Entries<V>(order: seq<string>, m: map<string, V>): (es: seq<(string, V)>)
    requires forall id | id in order :: id in m
    ensures |es| == |order| && forall i | 0 <= i < |es| :: es[i] == (order[i], m[order[i]])
  {
    if order == [] then [] else [(order[0], m[order[0]])] + Entries(order[1..], m)
  }

  // loadSpecs and the ids of what it returns: keep the current subscriptions, throw, or go on.
  datatype Outcome = Keep | Fails(everLoaded: bool) | Use(specs: seq<Spec>, clean: bool)

  function SpecsOf(raws: seq<Raw>): seq<Spec>
    requires forall r | r in raws :: HasId(r)
  {
    if raws == [] then []
    else
      var r := raws[|raws| - 1];
      assert HasId(r);
      SpecsOf(raws[..|raws| - 1]) + [r.spec]
  }

  // The defaults are seeded as they are; what was loaded is validated, and the flag is set in between.
  function Loaded(c: Config, everLoaded: bool, got: Got): Outcome {
    match got
    case Absent =>
      if everLoaded then Keep
      else if forall r | r in c.defaults :: HasId(r) then Use(SpecsOf(c.defaults), true)
      else Fails(true)
    case Value(raws) =>
      if exists r | r in raws :: Unwritable(r) then Fails(everLoaded)
      else if exists s | s in Valid(raws) :: !s.printable then Fails(true)
      else Use(Valid(raws), |Valid(raws)| == |raws|)
    case _ => Keep
  }

  function WorkOf(active: map<string, Sub>, specs: seq<Spec>, clean: bool, order: seq<string>): Work
    requires Walks(order, active)
  {
    Work(Desired(specs), clean, Entries(order, active), Entries(Order(specs), Desired(specs)), {}, {})
  }

  function AfterLoad(c: Config, s: Channel, got: Got, order: seq<string>): Channel
    requires s.chain != [] && Walks(order, s.active)
  {
    match Loaded(c, s.everLoaded, got)
    case Keep => s.(chain := s.chain[1..])
    case Fails(ever) => WithHead(s.(everLoaded := ever), Thrown)
    case Use(specs, clean) =>
      var w := WorkOf(s.active, specs, clean, order);
      Proceed(c, s.(everLoaded := true, loads := s.loads[s.started := w]), w)
  }

  // ---- The channel ----

  // Who calls reload(): a timer, a message or a new caller, in a turn of its own of the event loop, or
  // code that goes on after it awaited the promise of a pass.
  datatype Caller = NewTurn | Awaiter(pass: nat)

  datatype Event =
    | Reload(caller: Caller) | StartPass | LoadEnds(got: Got, order: seq<string>) | StopEnds | SubscribeEnds(ok: bool)
    | Catch | LoopDies(id: string, number: nat)

  // From the throw to the start of the next pass there are only microtasks, so no new turn comes
  // between; code that awaited a pass goes on once that pass has ended.
  predicate MayCall(s: Channel, caller: Caller) {
    match caller
    case NewTurn => !s.exposed && !(s.chain != [] && s.chain[0].Thrown?)
    case Awaiter(pass) => 1 <= pass <= s.started && (pass == s.started ==> s.chain == [] || s.chain[0].Waiting?)
  }

  function Reloaded(s: Channel): Channel {
    if s.reloadQueued then s.(calls := s.calls + 1)
    else s.(calls := s.calls + 1, reloadQueued := true, chain := s.chain + [Waiting])
  }

  predicate InPass(l: Link) { l.Dropping? || l.Restarting? || l.Subscribing? }

  // The pass under way notes that an id's loop died.
  function Noted(s: Channel, id: string): Channel {
    if s.chain == [] || !InPass(s.chain[0]) then s
    else
      var w := s.chain[0].work.(died := s.chain[0].work.died + {id});
      WithHead(s, match s.chain[0]
                  case Dropping(_) => Dropping(w)
                  case Restarting(_, i, spec) => Restarting(w, i, spec)
                  case Subscribing(_, i, spec, n) => Subscribing(w, i, spec, n))
  }

  // reapIfStale: a dead loop takes out its own subscription, never a newer one.
  function Reaped(s: Channel, id: string, number: nat): Channel {
    if id in s.active && s.active[id].number == number then Noted(s, id).(active := s.active - {id}) else s
  }

  function Step(c: Config, s: Channel, e: Event): Channel {
    if e.Reload? then (if MayCall(s, e.caller) then Reloaded(s) else s)
    else if e.LoopDies? then Reaped(s, e.id, e.number)
    else if s.chain == [] then s
    else
      var l := s.chain[0];
      match e
      case StartPass => if l.Waiting? then WithHead(s, Loading).(reloadQueued := false, started := s.started + 1, exposed := false) else s
      case LoadEnds(got, order) => if l.Loading? && Walks(order, s.active) then AfterLoad(c, s, got, order) else s
      case StopEnds =>
        if l.Dropping? then Proceed(c, s, l.work)
        else if l.Restarting? then WithHead(s.(nextSub := s.nextSub + 1), Subscribing(l.work, l.id, l.spec, s.nextSub))
        else s
      case SubscribeEnds(ok) =>
        if !l.Subscribing? then s
        else if ok then Proceed(c, s.(active := s.active[l.id := Sub(l.spec, l.number)]), l.work)
        else Proceed(c, s, l.work.(failed := l.work.failed + {l.id}))
      case Catch =>
        if l.Thrown? then s.(chain := s.chain[1..], reloadQueued := false, exposed := |s.chain| > 1) else s
  }

  function Next(c: Config, s: Channel, e: Event): Channel {
    Step(c, s.(finished := None), e)
  }

  function Run(c: Config, es: seq<Event>): Channel {
    if es == [] then Fresh else Next(c, Run(c, es[..|es| - 1]), es[|es| - 1])
  }

  // ---- The chain ----

  // Only the head of the chain may have started; while a reload is queued, the last link has not.
  ghost predicate ChainValid(s: Channel) {
    && (forall k | 0 < k < |s.chain| :: s.chain[k].Waiting?)
    && (s.reloadQueued ==> s.chain != [] && s.chain[|s.chain| - 1].Waiting?)
  }

  // How many passes are queued and not started.
  function Queued(s: Channel): nat {
    if s.chain == [] then 0 else if s.chain[0].Waiting? then |s.chain| else |s.chain| - 1
  }

  // The head of the chain moves on within its pass, or ends; nothing else of the chain changes.
  ghost predicate Moves(s: Channel, t: Channel) {
    && s.chain != []
    && (t.chain == s.chain[1..] || (t.chain != [] && t.chain == s.chain[0 := t.chain[0]] && (InPass(t.chain[0]) || t.chain[0].Thrown?)))
    && t.reloadQueued == s.reloadQueued && t.calls == s.calls && t.started == s.started && t.exposed == s.exposed
  }

  lemma {:induction false} ProceedMoves(c: Config, s: Channel, w: Work)
    requires s.chain != []
    ensures var t := Proceed(c, s, w);
            Moves(s, t) && (t.chain == s.chain[1..] || (t.chain != [] && InPass(t.chain[0]))) && t.everLoaded == s.everLoaded && t.loads == s.loads
    decreases |w.drops| + |w.adds|
  {
    if w.drops != [] {
      if w.drops[0].0 in w.desired { ProceedMoves(c, s, w.(drops := w.drops[1..])); }
    } else if w.adds != [] {
      var (id, spec) := w.adds[0];
      if id in s.active && s.active[id].spec == spec { ProceedMoves(c, s, w.(adds := w.adds[1..])); }
    }
  }

  lemma LoadMoves(c: Config, s: Channel, got: Got, order: seq<string>)
    requires s.chain != [] && Walks(order, s.active)
    ensures Moves(s, AfterLoad(c, s, got, order))
  {
    hide Proceed, Walks, Loaded, WorkOf;
    match Loaded(c, s.everLoaded, got)
    case Use(specs, clean) =>
      var w := WorkOf(s.active, specs, clean, order);
      ProceedMoves(c, s.(everLoaded := true, loads := s.loads[s.started := w]), w);
    case _ =>
  }

  lemma PassMoves(c: Config, s: Channel, e: Event)
    requires s.chain != [] && (e.LoadEnds? || e.StopEnds? || e.SubscribeEnds? || e.LoopDies?)
    ensures var t := Step(c, s, e);
            Moves(s, t) || (t.chain == s.chain && t.reloadQueued == s.reloadQueued && t.started == s.started && t.exposed == s.exposed)
  {
    hide Proceed, AfterLoad, Walks;
    match e
    case LoadEnds(got, order) => if Walks(order, s.active) { LoadMoves(c, s, got, order); }
    case StopEnds => if s.chain[0].Dropping? { ProceedMoves(c, s, s.chain[0].work); }
    case SubscribeEnds(ok) =>
      if s.chain[0].Subscribing? {
        var l := s.chain[0];
        ProceedMoves(c, s.(active := s.active[l.id := Sub(l.spec, l.number)]), l.work);
        ProceedMoves(c, s, l.work.(failed := l.work.failed + {l.id}));
      }
    case _ =>
  }

  lemma OutsideOnChain(c: Config, s: Channel, e: Event)
    requires ChainValid(s)
    requires s.chain == [] || e.Reload? || e.StartPass? || e.Catch?
    ensures var t := Step(c, s, e);
            && ChainValid(t)
            && s.started <= t.started && s.started + Queued(s) <= t.started + Queued(t)
            && (e.Reload? && MayCall(s, e.caller) ==> Queued(t) > 0)
  {
    hide Proceed, AfterLoad, Walks, SubStopped;
  }

  // A reload() leaves a pass queued; passes that are queued are started, never dropped.
  lemma NextOnChain(c: Config, s: Channel, e: Event)
    requires ChainValid(s)
    ensures var t := Next(c, s, e);
            && ChainValid(t)
            && s.started <= t.started && s.started + Queued(s) <= t.started + Queued(t)
            && (e.Reload? && MayCall(s, e.caller) ==> Queued(t) > 0)
  {
    var s0 := s.(finished := None);
    if s.chain != [] && (e.LoadEnds? || e.StopEnds? || e.SubscribeEnds? || e.LoopDies?) {
      PassMoves(c, s0, e);
      hide Step;
    } else {
      OutsideOnChain(c, s0, e);
      hide Step;
    }
  }

  lemma {:induction false} RunKeepsChain(c: Config, es: seq<Event>)
    ensures ChainValid(Run(c, es))
  {
    if es != [] {
      RunKeepsChain(c, es[..|es| - 1]);
      NextOnChain(c, Run(c, es[..|es| - 1]), es[|es| - 1]);
    }
  }

  lemma PassesNeverOverlap(c: Config, es: seq<Event>, j: nat, k: nat)
    requires j < |Run(c, es).chain| && k < |Run(c, es).chain|
    requires !Run(c, es).chain[j].Waiting? && !Run(c, es).chain[k].Waiting?
    ensures j == k == 0
  {
    RunKeepsChain(c, es);
  }

  lemma {:induction false} QueuedAreStarted(c: Config, es: seq<Event>, fs: seq<Event>)
    ensures Run(c, es).started + Queued(Run(c, es)) <= Run(c, es + fs).started + Queued(Run(c, es + fs))
  {
    if fs == [] {
      assert es + fs == es;
    } else {
      var gs := fs[..|fs| - 1];
      assert (es + fs)[..|es + fs| - 1] == es + gs;
      QueuedAreStarted(c, es, gs);
      RunKeepsChain(c, es + gs);
      NextOnChain(c, Run(c, es + gs), fs[|fs| - 1]);
    }
  }

  // Every reload() is followed by a pass that starts after it: until one has, one is still queued.
  lemma EveryReloadIsServed(c: Config, es: seq<Event>, caller: Caller, fs: seq<Event>)
    requires MayCall(Run(c, es), caller)
    ensures var before, after := Run(c, es), Run(c, es + [Reload(caller)] + fs);
            before.started < after.started || Queued(after) > 0
  {
    RunSnoc(c, es, Reload(caller));
    RunKeepsChain(c, es);
    NextOnChain(c, Run(c, es), Reload(caller));
    QueuedAreStarted(c, es + [Reload(caller)], fs);
  }

  lemma RunSnoc(c: Config, es: seq<Event>, e: Event)
    ensures Run(c, es + [e]) == Next(c, Run(c, es), e)
  {
    assert (es + [e])[..|es|] == es;
  }

  // ---- How many passes are queued ----

  // At most one, and either the flag says so or a throw has cleared the flag too early.
  ghost predicate Announced(s: Channel) {
    && Queued(s) == (if s.reloadQueued || s.exposed then 1 else 0)
    && (s.exposed ==> !s.reloadQueued && s.chain[0].Waiting?)
  }

  // A reload() falls between the catch of a throw with a pass queued and the start of that pass.
  ghost predicate SlipsIn(s: Channel, e: Event) { e.Reload? && MayCall(s, e.caller) && s.exposed }

  ghost predicate SomeSlipsIn(c: Config, es: seq<Event>) {
    es != [] && (SomeSlipsIn(c, es[..|es| - 1]) || SlipsIn(Run(c, es[..|es| - 1]), es[|es| - 1]))
  }

  ghost predicate NeverTwoQueued(c: Config, es: seq<Event>) {
    Queued(Run(c, es)) <= 1 && (es == [] || NeverTwoQueued(c, es[..|es| - 1]))
  }

  lemma NextStaysAnnounced(c: Config, s: Channel, e: Event)
    requires ChainValid(s) && Announced(s)
    ensures SlipsIn(s, e) ==> Queued(Next(c, s, e)) == 2
    ensures !SlipsIn(s, e) ==> Announced(Next(c, s, e))
  {
    if s.chain != [] && (e.LoadEnds? || e.StopEnds? || e.SubscribeEnds? || e.LoopDies?) {
      PassMoves(c, s.(finished := None), e);
      if s.chain[0].Waiting? { WaitingHeadStays(c, s, e); }
      hide Step;
    } else {
      hide Proceed, AfterLoad;
    }
  }

  // A pass that has not started awaits nothing.
  lemma WaitingHeadStays(c: Config, s: Channel, e: Event)
    requires s.chain != [] && s.chain[0].Waiting? && !e.Reload? && !e.StartPass?
    ensures Next(c, s, e).chain == s.chain
  {
  }

  // Over any run, at most one pass is queued at all times if and only if no reload() slips in.
  lemma {:induction false} AtMostOneIsQueuedIff(c: Config, es: seq<Event>)
    ensures NeverTwoQueued(c, es) <==> !SomeSlipsIn(c, es)
    ensures NeverTwoQueued(c, es) ==> Announced(Run(c, es))
  {
    if es != [] {
      AtMostOneIsQueuedIff(c, es[..|es| - 1]);
      RunKeepsChain(c, es[..|es| - 1]);
      if NeverTwoQueued(c, es[..|es| - 1]) { NextStaysAnnounced(c, Run(c, es[..|es| - 1]), es[|es| - 1]); }
      hide Next, Announced;
    }
  }

  // ---- When a pass throws ----

  // The load brings an entry whose id or cursor cannot be written: a default when nothing was ever
  // loaded, or one that validation would accept.
  predicate LoadThrows(c: Config, everLoaded: bool, got: Got) {
    match got
    case Absent => !everLoaded && exists r | r in c.defaults :: r.Null? || !r.spec.printable
    case Value(raws) => exists r | r in raws :: Usable(r) && !r.spec.printable
    case _ => false
  }

  lemma {:induction false} AcceptedIsKept(raws: seq<Raw>, r: Raw)
    requires r in raws && Acceptable(r) && r.spec.mode == CoreSub
    ensures r.spec in Valid(raws)
  {
    var n := |raws| - 1;
    assert raws == raws[..n] + [raws[n]];
    if r in raws[..n] { AcceptedIsKept(raws[..n], r); }
  }

  lemma LoadedFailsIff(c: Config, everLoaded: bool, got: Got)
    ensures Loaded(c, everLoaded, got).Fails? <==> LoadThrows(c, everLoaded, got)
  {
    if got.Value? {
      ValidSharesNoCursor(got.raws);
      if s :| s in Valid(got.raws) && !s.printable { assert Parsed(s) in got.raws; }
      if r :| r in got.raws && Usable(r) && !r.spec.printable {
        if r.spec.mode == CoreSub { AcceptedIsKept(got.raws, r); } else { assert Unwritable(r); }
      }
    }
  }

  lemma {:induction false} SpecsOfAre(raws: seq<Raw>)
    requires forall r | r in raws :: HasId(r)
    ensures |SpecsOf(raws)| == |raws|
    ensures forall i | 0 <= i < |raws| :: raws[i] in raws && SpecsOf(raws)[i] == raws[i].spec
  {
    if raws != [] { SpecsOfAre(raws[..|raws| - 1]); }
  }

  // A load that does not throw seeds every default, in order and clean, when the key was absent and
  // nothing ever loaded; of a list it takes what is valid, clean exactly when every entry was usable and
  // no two share a cursor; otherwise the subscriptions stay as they are.
  lemma GoodLoadIsUsed(c: Config, everLoaded: bool, got: Got)
    requires !LoadThrows(c, everLoaded, got)
    ensures var load := Loaded(c, everLoaded, got);
            match got
            case Absent =>
              if everLoaded then load == Keep
              else
                && load.Use? && load.clean && |load.specs| == |c.defaults|
                && forall i | 0 <= i < |c.defaults| :: !c.defaults[i].Null? && load.specs[i] == c.defaults[i].spec
            case Value(raws) => load.Use? && load.specs == Valid(raws) && (load.clean <==> AllUsable(raws))
            case _ => load == Keep
  {
    LoadedFailsIff(c, everLoaded, got);
    match got
    case Absent =>
      if !everLoaded {
        assert forall r | r in c.defaults :: HasId(r);
        SpecsOfAre(c.defaults);
        assert forall i | 0 <= i < |c.defaults| :: c.defaults[i] in c.defaults;
      }
    case Value(raws) => CleanIffAllUsable(raws);
    case _ =>
  }

  ghost predicate HeadThrew(s: Channel) { s.chain != [] && s.chain[0].Thrown? }

  // A pass throws exactly when its load ends with such an entry; nothing else throws.
  lemma PassThrowsIff(c: Config, s: Channel, e: Event)
    requires ChainValid(s) && !HeadThrew(s)
    ensures HeadThrew(Next(c, s, e)) <==>
              e.LoadEnds? && s.chain != [] && s.chain[0].Loading? && Walks(e.order, s.active) && LoadThrows(c, s.everLoaded, e.got)
  {
    hide Proceed, Walks, WorkOf, Loaded, LoadThrows;
    var s0 := s.(finished := None);
    if s.chain != [] && s.chain[0].Loading? && e.LoadEnds? && Walks(e.order, s.active) {
      LoadedFailsIff(c, s.everLoaded, e.got);
      var o := Loaded(c, s.everLoaded, e.got);
      if o.Use? {
        var w := WorkOf(s.active, o.specs, o.clean, e.order);
        ProceedMoves(c, s0.(everLoaded := true, loads := s.loads[s.started := w]), w);
      }
    } else if s.chain != [] && s.chain[0].Dropping? {
      ProceedMoves(c, s0, s.chain[0].work);
    } else if s.chain != [] && s.chain[0].Subscribing? {
      var l := s.chain[0];
      ProceedMoves(c, s0.(active := s.active[l.id := Sub(l.spec, l.number)]), l.work);
      ProceedMoves(c, s0, l.work.(failed := l.work.failed + {l.id}));
    }
  }

  // So two passes are never queued when every default has an id and every acceptable entry of every
  // list that is loaded can be written, ...
  lemma {:induction false} WritableSpecsQueueOne(c: Config, es: seq<Event>)
    requires forall r | r in c.defaults :: HasId(r)
    requires forall i | 0 <= i < |es| && es[i].LoadEnds? && es[i].got.Value? :: !LoadThrows(c, true, es[i].got)
    ensures NeverTwoQueued(c, es) && !Run(c, es).exposed && !HeadThrew(Run(c, es))
  {
    if es != [] {
      var before, e := es[..|es| - 1], es[|es| - 1];
      var s := Run(c, before);
      assert forall i | 0 <= i < |before| :: before[i] == es[i];
      WritableSpecsQueueOne(c, before);
      RunKeepsChain(c, before);
      PassThrowsIff(c, s, e);
      NothingThrownNothingExposed(c, s, e);
      AtMostOneIsQueuedIff(c, before);
      AtMostOneIsQueuedIff(c, es);
      hide Next;
    }
  }

  lemma NothingThrownNothingExposed(c: Config, s: Channel, e: Event)
    requires !s.exposed && !HeadThrew(s)
    ensures !Next(c, s, e).exposed
  {
    if s.chain != [] && (e.LoadEnds? || e.StopEnds? || e.SubscribeEnds? || e.LoopDies?) {
      PassMoves(c, s.(finished := None), e);
      hide Step;
    } else {
      hide Proceed, AfterLoad;
    }
  }

  // ... nor when every reload() comes in a turn of its own.
  lemma {:induction false} TurnsQueueOne(c: Config, es: seq<Event>)
    requires forall i | 0 <= i < |es| && es[i].Reload? :: es[i].caller.NewTurn?
    ensures !SomeSlipsIn(c, es) && NeverTwoQueued(c, es)
  {
    if es != [] {
      assert forall i | 0 <= i < |es| - 1 :: es[..|es| - 1][i] == es[i];
      TurnsQueueOne(c, es[..|es| - 1]);
    }
    AtMostOneIsQueuedIff(c, es);
  }

  // With a null among the defaults, the first pass throws while a second one is queued; a caller that
  // awaited the first and calls reload() at once queues a third.
  lemma AwaiterQueuesASecond(c: Config)
    requires exists r | r in c.defaults :: !HasId(r)
    ensures Queued(Run(c, [Reload(NewTurn), StartPass, Reload(NewTurn), LoadEnds(Absent, []), Catch, Reload(Awaiter(1))])) == 2
  {
    var e1 := [] + [Reload(NewTurn)];
    var e2 := e1 + [StartPass];
    var e3 := e2 + [Reload(NewTurn)];
    var e4 := e3 + [LoadEnds(Absent, [])];
    var e5 := e4 + [Catch];
    assert e5 + [Reload(Awaiter(1))] == [Reload(NewTurn), StartPass, Reload(NewTurn), LoadEnds(Absent, []), Catch, Reload(Awaiter(1))];
    RunSnoc(c, [], Reload(NewTurn));
    RunSnoc(c, e1, StartPass);
    assert Run(c, e2) == Fresh.(chain := [Loading], calls := 1, started := 1);
    RunSnoc(c, e2, Reload(NewTurn));
    assert Run(c, e3) == Fresh.(chain := [Loading, Waiting], reloadQueued := true, calls := 2, started := 1);
    hide Run;
    RunSnoc(c, e3, LoadEnds(Absent, []));
    assert Run(c, e4) == Fresh.(chain := [Thrown, Waiting], reloadQueued := true, calls := 2, started := 1, everLoaded := true);
    RunSnoc(c, e4, Catch);
    RunSnoc(c, e5, Reload(Awaiter(1)));
  }

  // ---- What a pass does ----

  // Of the ids the work has passed over, every active one is wanted and has the wanted spec; and every
  // wanted id not ahead is active, or its subscribe failed or its loop died in this pass.
  ghost predicate WorkValid(active: map<string, Sub>, w: Work, busy: Option<string>) {
    && (forall e | e in w.adds :: e.0 in w.desired && w.desired[e.0] == e.1)
    && (forall id <- active :: id in w.desired || exists e :: e in w.drops && e.0 == id)
    && (forall id <- active :: id in w.desired && Ahead(w, id) == false ==> active[id].spec == w.desired[id])
    && (forall id <- w.desired :: Ahead(w, id) || busy == Some(id) || id in active || id in w.failed || id in w.died)
  }

  ghost predicate Ahead(w: Work, id: string) { exists e :: e in w.adds && e.0 == id }

  ghost predicate PassValid(s: Channel) {
    s.chain != [] ==>
      match s.chain[0]
      case Dropping(w) => WorkValid(s.active, w, None)
      case Restarting(w, id, spec) =>
        WorkValid(s.active, w, Some(id)) && w.drops == [] && id in w.desired && w.desired[id] == spec
      case Subscribing(w, id, spec, _) =>
        WorkValid(s.active, w, Some(id)) && w.drops == [] && id in w.desired && w.desired[id] == spec
      case _ => true
  }

  // The active subscriptions are the wanted ones, up to failed subscribes and dead loops.
  ghost predicate Reconciled(active: map<string, Sub>, w: Work) {
    && (forall id <- active :: id in w.desired && active[id].spec == w.desired[id])
    && (forall id <- w.desired :: id in active || id in w.failed || id in w.died)
  }

  // An id that need not be dropped, one that is dropped, and one that is as wanted: the work behind grows.
  lemma PassOver(active: map<string, Sub>, w: Work)
    requires w.drops != [] && WorkValid(active, w, None)
    ensures w.drops[0].0 in w.desired ==> WorkValid(active, w.(drops := w.drops[1..]), None)
    ensures w.drops[0].0 !in w.desired ==> WorkValid(active - {w.drops[0].0}, w.(drops := w.drops[1..]), None)
  {
    assert w.drops == [w.drops[0]] + w.drops[1..];
  }

  lemma AddOver(active: map<string, Sub>, w: Work)
    requires w.drops == [] && w.adds != [] && WorkValid(active, w, None)
    ensures var (id, spec) := w.adds[0];
            var rest := w.(adds := w.adds[1..]);
            && id in w.desired && w.desired[id] == spec
            && (id in active && active[id].spec == spec ==> WorkValid(active, rest, None))
            && WorkValid(active - {id}, rest, Some(id))
  {
    assert w.adds == [w.adds[0]] + w.adds[1..];
    var rest := w.(adds := w.adds[1..]);
    assert forall id | id != w.adds[0].0 :: Ahead(w, id) == Ahead(rest, id);
  }

  lemma {:induction false} ProceedKeepsPass(c: Config, s: Channel, w: Work)
    requires s.chain != [] && WorkValid(s.active, w, None) && (|s.chain| > 1 ==> s.chain[1].Waiting?)
    ensures PassValid(Proceed(c, s, w))
    ensures var t := Proceed(c, s, w);
            t.chain == s.chain[1..] ==> t.finished.Some? && Reconciled(t.active, t.finished.value)
    decreases |w.drops| + |w.adds|
  {
    hide WorkValid;
    if w.drops != [] {
      PassOver(s.active, w);
      if w.drops[0].0 in w.desired { ProceedKeepsPass(c, s, w.(drops := w.drops[1..])); }
    } else if w.adds != [] {
      var (id, spec) := w.adds[0];
      AddOver(s.active, w);
      assert id !in s.active ==> s.active - {id} == s.active;
      if id in s.active && s.active[id].spec == spec { ProceedKeepsPass(c, s, w.(adds := w.adds[1..])); }
    } else {
      AllBehind(s.active, w);
    }
  }

  lemma AllBehind(active: map<string, Sub>, w: Work)
    requires w.drops == [] && w.adds == [] && WorkValid(active, w, None)
    ensures Reconciled(active, w)
  {
  }

  lemma WorkBegins(active: map<string, Sub>, specs: seq<Spec>, clean: bool, order: seq<string>)
    requires Walks(order, active)
    ensures WorkValid(active, WorkOf(active, specs, clean, order), None)
  {
    var w := WorkOf(active, specs, clean, order);
    forall id <- active ensures exists e :: e in w.drops && e.0 == id {
      var i :| 0 <= i < |order| && order[i] == id;
      assert w.drops[i] in w.drops;
    }
    forall id <- w.desired ensures Ahead(w, id) {
      var i :| 0 <= i < |Order(specs)| && Order(specs)[i] == id;
      assert w.adds[i] in w.adds;
    }
  }

  lemma DeathNoted(active: map<string, Sub>, w: Work, busy: Option<string>, id: string)
    requires WorkValid(active, w, busy)
    ensures WorkValid(active - {id}, w.(died := w.died + {id}), busy)
  {
    var v := w.(died := w.died + {id});
    assert forall i :: Ahead(w, i) == Ahead(v, i);
  }

  lemma SubscribeNoted(active: map<string, Sub>, w: Work, id: string, spec: Spec, number: nat)
    requires WorkValid(active, w, Some(id)) && id in w.desired && w.desired[id] == spec
    ensures WorkValid(active[id := Sub(spec, number)], w, None)
    ensures WorkValid(active, w.(failed := w.failed + {id}), None)
  {
    var v := w.(failed := w.failed + {id});
    assert forall i :: Ahead(w, i) == Ahead(v, i);
  }

  predicate Exhausted(w: Work) { w.drops == [] && w.adds == [] }

  lemma ProceedEndsWell(c: Config, s: Channel, w: Work)
    requires ChainValid(s) && s.chain != [] && WorkValid(s.active, w, None) && s.finished.None?
    ensures PassValid(Proceed(c, s, w))
    ensures var t := Proceed(c, s, w);
            t.finished.Some? ==> Reconciled(t.active, t.finished.value) && Exhausted(t.finished.value)
  {
    ProceedKeepsPass(c, s, w);
    ProceedEndsAlone(c, s, w);
    hide Proceed, WorkValid, Reconciled, Exhausted;
  }

  lemma LoadKeepsPass(c: Config, s: Channel, got: Got, order: seq<string>)
    requires ChainValid(s) && s.chain != [] && Walks(order, s.active) && s.finished.None?
    ensures var t := AfterLoad(c, s, got, order);
            PassValid(t) && (t.finished.Some? ==> Reconciled(t.active, t.finished.value) && Exhausted(t.finished.value))
  {
    hide WorkValid, Proceed, Walks, Loaded, WorkOf, Reconciled, Exhausted;
    match Loaded(c, s.everLoaded, got)
    case Use(specs, clean) =>
      var w := WorkOf(s.active, specs, clean, order);
      WorkBegins(s.active, specs, clean, order);
      ProceedEndsWell(c, s.(everLoaded := true, loads := s.loads[s.started := w]), w);
    case _ =>
  }

  lemma NextKeepsPass(c: Config, s: Channel, e: Event)
    requires ChainValid(s) && PassValid(s)
    ensures PassValid(Next(c, s, e))
    ensures var t := Next(c, s, e);
            t.finished.Some? ==> Reconciled(t.active, t.finished.value) && Exhausted(t.finished.value)
  {
    hide WorkValid, Proceed, AfterLoad, Walks, Reconciled, Exhausted, MayCall;
    var s0 := s.(finished := None);
    if s.chain != [] && e.LoadEnds? && Walks(e.order, s.active) {
      LoadKeepsPass(c, s0, e.got, e.order);
    } else if s.chain != [] && e.StopEnds? && s.chain[0].Dropping? {
      ProceedEndsWell(c, s0, s.chain[0].work);
    } else if s.chain != [] && e.SubscribeEnds? && s.chain[0].Subscribing? {
      var l := s.chain[0];
      SubscribeNoted(s.active, l.work, l.id, l.spec, l.number);
      ProceedEndsWell(c, s0.(active := s.active[l.id := Sub(l.spec, l.number)]), l.work);
      ProceedEndsWell(c, s0, l.work.(failed := l.work.failed + {l.id}));
    } else if s.chain != [] && e.LoopDies? && InPass(s.chain[0]) {
      DeathNoted(s.active, s.chain[0].work,
                 if s.chain[0].Dropping? then None else Some(s.chain[0].id), e.id);
    }
  }

  // finished is set only by the pass that ends.
  lemma {:induction false} ProceedEndsAlone(c: Config, s: Channel, w: Work)
    requires s.chain != [] && s.finished.None?
    ensures var t := Proceed(c, s, w);
            t.finished.Some? ==> t.chain == s.chain[1..] && Exhausted(t.finished.value)
    decreases |w.drops| + |w.adds|
  {
    if w.drops != [] {
      if w.drops[0].0 in w.desired { ProceedEndsAlone(c, s, w.(drops := w.drops[1..])); }
    } else if w.adds != [] {
      var (id, spec) := w.adds[0];
      if id in s.active && s.active[id].spec == spec { ProceedEndsAlone(c, s, w.(adds := w.adds[1..])); }
    }
  }

  lemma {:induction false} RunKeepsPass(c: Config, es: seq<Event>)
    ensures PassValid(Run(c, es))
    ensures var t := Run(c, es);
            t.finished.Some? ==> Reconciled(t.active, t.finished.value) && Exhausted(t.finished.value)
  {
    if es != [] {
      RunKeepsChain(c, es[..|es| - 1]);
      RunKeepsPass(c, es[..|es| - 1]);
      NextKeepsPass(c, Run(c, es[..|es| - 1]), es[|es| - 1]);
    }
  }

  // When a pass ends whose load succeeded, whose subscribes all succeeded and during which no loop
  // died, the active subscriptions are exactly the wanted ones, each with its wanted spec.
  lemma PassEndsReconciled(c: Config, es: seq<Event>)
    requires Run(c, es).finished.Some?
    requires Run(c, es).finished.value.failed == {} && Run(c, es).finished.value.died == {}
    ensures var s := Run(c, es);
            && s.active.Keys == s.finished.value.desired.Keys
            && forall id <- s.active :: s.active[id].spec == s.finished.value.desired[id]
  {
    RunKeepsPass(c, es);
  }

  // The wanted spec of an id is the last one listed under it.
  lemma {:induction false} DesiredIsLastListed(specs: seq<Spec>, id: string)
    ensures id in Desired(specs) <==> exists i :: 0 <= i < |specs| && IdOf(specs[i]) == id
    ensures id in Desired(specs) ==>
              exists i :: 0 <= i < |specs| && specs[i] == Desired(specs)[id] && IdOf(specs[i]) == id
                          && forall j | i < j < |specs| :: IdOf(specs[j]) != id
  {
    if specs != [] {
      var n := |specs| - 1;
      DesiredIsLastListed(specs[..n], id);
      assert forall i | 0 <= i < n :: specs[..n][i] == specs[i];
      if IdOf(specs[n]) == id {
        assert specs[n] == Desired(specs)[id];
      } else if id in Desired(specs[..n]) {
        var i :| 0 <= i < n && specs[..n][i] == Desired(specs[..n])[id] && IdOf(specs[i]) == id
                 && forall j | i < j < n :: IdOf(specs[..n][j]) != id;
        assert specs[i] == Desired(specs)[id];
        assert forall j | i < j < |specs| :: IdOf(specs[j]) != id;
      }
    }
  }

  // A load that fails, finds the key gone after it was once loaded, or throws leaves the subscriptions
  // and their durables as they were.
  lemma FailedLoadKeepsSubscriptions(c: Config, s: Channel, got: Got, order: seq<string>)
    requires ChainValid(s) && s.chain != [] && s.chain[0].Loading? && Walks(order, s.active)
    ensures var t := Next(c, s, LoadEnds(got, order));
            && (got.Unavailable? || got.BadJson? || (got.Absent? && s.everLoaded) || (t.chain != [] && t.chain[0].Thrown?) ==>
                  t.active == s.active && t.deletions == s.deletions && t.finished.None?)
            && (got.Unavailable? || got.BadJson? || got.Absent? ==> (t.everLoaded <==> s.everLoaded || got.Absent?))
            && (got.Value? ==> (t.everLoaded <==> s.everLoaded || forall r | r in got.raws :: !Unwritable(r)))
  {
    hide Proceed, Walks, WorkOf, Valid;
    var s0 := s.(finished := None);
    match Loaded(c, s.everLoaded, got)
    case Use(specs, clean) =>
      var w := WorkOf(s.active, specs, clean, order);
      ProceedMoves(c, s0.(everLoaded := true, loads := s.loads[s.started := w]), w);
    case _ =>
  }

  // ---- Deleted durables ----

  // A subscription whose durable the pass with this load is to delete.
  predicate Condemned(c: Config, load: Work, e: (string, Sub)) {
    && e in load.drops && e.0 !in load.desired && load.clean && c.deleteOnDrop
    && e.1.spec.mode != CoreSub && e.1.spec.stream != "" && e.1.spec.durable != ""
  }

  // The work is what is left of the load's, and the condemned it has passed over have been deleted.
  ghost predicate FromLoad(c: Config, s: Channel, w: Work) {
    && s.started in s.loads && s.loads[s.started].desired == w.desired && s.loads[s.started].clean == w.clean
    && (forall e | e in w.drops :: e in s.loads[s.started].drops)
    && forall e | Condemned(c, s.loads[s.started], e) :: e in w.drops || Deletion(s.started, e.0) in s.deletions
  }

  ghost predicate Justified(c: Config, s: Channel, d: Deletion) {
    d.pass in s.loads && exists e :: Condemned(c, s.loads[d.pass], e) && e.0 == d.id
  }

  ghost predicate DeletionsValid(c: Config, s: Channel) {
    && (forall p <- s.loads :: p <= s.started)
    && (s.chain != [] && s.chain[0].Loading? ==> s.started !in s.loads)
    && (s.chain != [] && InPass(s.chain[0]) ==> FromLoad(c, s, s.chain[0].work))
    && (forall d | d in s.deletions :: Justified(c, s, d))
  }

  lemma OnlyLoadsMatter(c: Config, s: Channel, t: Channel)
    requires forall d | d in s.deletions :: Justified(c, s, d)
    requires t.loads == s.loads && t.deletions == s.deletions
    ensures forall d | d in t.deletions :: Justified(c, t, d)
  {
    forall d | d in t.deletions ensures Justified(c, t, d) { assert Justified(c, s, d); }
  }

  lemma LoadStays(c: Config, s: Channel, t: Channel, w: Work, v: Work)
    requires FromLoad(c, s, w) && t.loads == s.loads && t.started == s.started && t.deletions == s.deletions
    requires v.desired == w.desired && v.clean == w.clean && v.drops == w.drops
    ensures FromLoad(c, t, v)
  {
  }

  lemma DropKeepsAccount(c: Config, s: Channel, w: Work)
    requires w.drops != [] && FromLoad(c, s, w) && forall d | d in s.deletions :: Justified(c, s, d)
    ensures var (id, sub) := w.drops[0];
            var rest := w.(drops := w.drops[1..]);
            var t := SubStopped(s, id, HasDurable(sub.spec) && w.clean && c.deleteOnDrop);
            && (id in w.desired ==> FromLoad(c, s, rest))
            && (id !in w.desired ==> FromLoad(c, t, rest) && forall d | d in t.deletions :: Justified(c, t, d))
  {
    assert w.drops == [w.drops[0]] + w.drops[1..];
    var (id, sub) := w.drops[0];
    var t := SubStopped(s, id, HasDurable(sub.spec) && w.clean && c.deleteOnDrop);
    forall d | d in t.deletions && id !in w.desired ensures Justified(c, t, d) {
      if d in s.deletions { assert Justified(c, s, d); } else { assert Condemned(c, s.loads[s.started], w.drops[0]); }
    }
  }

  lemma {:induction false} ProceedJustifies(c: Config, s: Channel, w: Work)
    requires s.chain != [] && FromLoad(c, s, w) && forall d | d in s.deletions :: Justified(c, s, d)
    requires |s.chain| > 1 ==> s.chain[1].Waiting?
    ensures var t := Proceed(c, s, w);
            && t.loads == s.loads && t.started == s.started
            && (forall d | d in t.deletions :: Justified(c, t, d))
            && (t.chain != [] && InPass(t.chain[0]) ==> FromLoad(c, t, t.chain[0].work))
            && (t.finished.Some? && s.finished.None? ==> FromLoad(c, t, t.finished.value))
    decreases |w.drops| + |w.adds|
  {
    hide FromLoad, Justified, HasDurable, Condemned;
    var t := Proceed(c, s, w);
    if w.drops != [] {
      var (id, sub) := w.drops[0];
      var rest := w.(drops := w.drops[1..]);
      DropKeepsAccount(c, s, w);
      if id in w.desired {
        ProceedJustifies(c, s, rest);
      } else {
        var u := SubStopped(s, id, HasDurable(sub.spec) && w.clean && c.deleteOnDrop);
        OnlyLoadsMatter(c, u, t);
        LoadStays(c, u, t, rest, rest);
      }
    } else if w.adds != [] {
      var (id, spec) := w.adds[0];
      var rest := w.(adds := w.adds[1..]);
      LoadStays(c, s, s, w, rest);
      if id in s.active && s.active[id].spec == spec {
        ProceedJustifies(c, s, rest);
      } else {
        OnlyLoadsMatter(c, s, t);
        LoadStays(c, s, t, rest, rest);
      }
    } else {
      OnlyLoadsMatter(c, s, t);
      LoadStays(c, s, t, w, w);
    }
  }

  lemma LoadIsAccount(c: Config, s: Channel, w: Work)
    requires DeletionsValid(c, s) && s.chain != [] && s.chain[0].Loading?
    ensures var t := s.(everLoaded := true, loads := s.loads[s.started := w]);
            FromLoad(c, t, w) && forall d | d in s.deletions :: Justified(c, t, d)
  {
    var t := s.(everLoaded := true, loads := s.loads[s.started := w]);
    forall d | d in s.deletions ensures Justified(c, t, d) { assert Justified(c, s, d); }
  }

  lemma LoadKeepsDeletions(c: Config, s: Channel, got: Got, order: seq<string>)
    requires ChainValid(s) && DeletionsValid(c, s) && s.chain != [] && s.chain[0].Loading? && Walks(order, s.active)
    requires s.finished.None?
    ensures var t := AfterLoad(c, s, got, order);
            DeletionsValid(c, t) && (t.finished.Some? ==> FromLoad(c, t, t.finished.value))
  {
    hide Proceed, Walks, Loaded, WorkOf, FromLoad, Justified;
    var t := AfterLoad(c, s, got, order);
    match Loaded(c, s.everLoaded, got)
    case Use(specs, clean) =>
      var w := WorkOf(s.active, specs, clean, order);
      var s1 := s.(everLoaded := true, loads := s.loads[s.started := w]);
      LoadIsAccount(c, s, w);
      ProceedJustifies(c, s1, w);
      ProceedMoves(c, s1, w);
    case _ => OnlyLoadsMatter(c, s, t);
  }

  lemma StepKeepsDeletions(c: Config, s: Channel, w: Work)
    requires ChainValid(s) && DeletionsValid(c, s) && s.chain != [] && InPass(s.chain[0]) && FromLoad(c, s, w)
    requires s.finished.None?
    ensures var t := Proceed(c, s, w);
            DeletionsValid(c, t) && (t.finished.Some? ==> FromLoad(c, t, t.finished.value))
  {
    ProceedJustifies(c, s, w);
    ProceedMoves(c, s, w);
    hide Proceed, Justified, FromLoad;
  }

  lemma SubscribedKeepsDeletions(c: Config, s: Channel, ok: bool)
    requires ChainValid(s) && DeletionsValid(c, s) && s.chain != [] && s.chain[0].Subscribing? && s.finished.None?
    ensures var t := Step(c, s, SubscribeEnds(ok));
            DeletionsValid(c, t) && (t.finished.Some? ==> FromLoad(c, t, t.finished.value))
  {
    hide Proceed, Justified, FromLoad;
    var l := s.chain[0];
    var s1, v := s.(active := s.active[l.id := Sub(l.spec, l.number)]), l.work.(failed := l.work.failed + {l.id});
    OnlyLoadsMatter(c, s, s1);
    LoadStays(c, s, s1, l.work, l.work);
    LoadStays(c, s, s, l.work, v);
    StepKeepsDeletions(c, s1, l.work);
    StepKeepsDeletions(c, s, v);
  }

  lemma DeathKeepsDeletions(c: Config, s: Channel, id: string, number: nat)
    requires DeletionsValid(c, s)
    ensures DeletionsValid(c, Reaped(s, id, number)) && Reaped(s, id, number).finished == s.finished
  {
    hide Justified, FromLoad;
    var t := Reaped(s, id, number);
    OnlyLoadsMatter(c, s, t);
    if s.chain != [] && InPass(s.chain[0]) { LoadStays(c, s, t, s.chain[0].work, t.chain[0].work); }
  }

  lemma NextKeepsDeletions(c: Config, s: Channel, e: Event)
    requires ChainValid(s) && DeletionsValid(c, s)
    ensures DeletionsValid(c, Next(c, s, e))
    ensures Next(c, s, e).finished.Some? ==> FromLoad(c, Next(c, s, e), Next(c, s, e).finished.value)
  {
    hide Proceed, Walks, AfterLoad, Justified, FromLoad, MayCall, Reaped;
    var s0, t := s.(finished := None), Next(c, s, e);
    OnlyLoadsMatter(c, s, s0);
    if s.chain != [] && InPass(s.chain[0]) { LoadStays(c, s, s0, s.chain[0].work, s.chain[0].work); }
    if s.chain != [] && e.LoadEnds? && s.chain[0].Loading? && Walks(e.order, s.active) {
      LoadKeepsDeletions(c, s0, e.got, e.order);
    } else if s.chain != [] && e.StopEnds? && s.chain[0].Dropping? {
      StepKeepsDeletions(c, s0, s.chain[0].work);
    } else if s.chain != [] && e.SubscribeEnds? && s.chain[0].Subscribing? {
      SubscribedKeepsDeletions(c, s0, e.ok);
    } else if e.LoopDies? {
      DeathKeepsDeletions(c, s0, e.id, e.number);
    } else {
      OnlyLoadsMatter(c, s, t);
      if s.chain != [] && InPass(s.chain[0]) && t.chain != [] && InPass(t.chain[0]) {
        LoadStays(c, s, t, s.chain[0].work, t.chain[0].work);
      }
    }
  }

  lemma {:induction false} RunKeepsDeletions(c: Config, es: seq<Event>)
    ensures DeletionsValid(c, Run(c, es))
    ensures Run(c, es).finished.Some? ==> FromLoad(c, Run(c, es), Run(c, es).finished.value)
  {
    if es != [] {
      RunKeepsChain(c, es[..|es| - 1]);
      RunKeepsDeletions(c, es[..|es| - 1]);
      NextKeepsDeletions(c, Run(c, es[..|es| - 1]), es[|es| - 1]);
    }
  }

  // A durable is deleted only by a pass whose load was clean and did not want its subscription, ...
  lemma DeletionsNeedACleanLoad(c: Config, es: seq<Event>, d: Deletion)
    requires d in Run(c, es).deletions
    ensures var loads := Run(c, es).loads;
            && d.pass in loads && loads[d.pass].clean && c.deleteOnDrop && d.id !in loads[d.pass].desired
            && exists e :: e in loads[d.pass].drops && e.0 == d.id && e.1.spec.mode != CoreSub
  {
    RunKeepsDeletions(c, es);
    var s := Run(c, es);
    assert Justified(c, s, d);
    var e :| Condemned(c, s.loads[d.pass], e) && e.0 == d.id;
  }

  // ... and a pass that comes to its end has deleted exactly those that were active at its load.
  lemma EndedPassDeletedTheCondemned(c: Config, es: seq<Event>, id: string)
    requires Run(c, es).finished.Some?
    ensures var s := Run(c, es);
            && s.started in s.loads && s.loads[s.started].desired == s.finished.value.desired
            && (Deletion(s.started, id) in s.deletions <==> exists e :: Condemned(c, s.loads[s.started], e) && e.0 == id)
  {
    RunKeepsDeletions(c, es);
    RunKeepsPass(c, es);
    var s := Run(c, es);
    if Deletion(s.started, id) in s.deletions { assert Justified(c, s, Deletion(s.started, id)); }
  }

  // ---- Passes end ----

  function Rank(l: Link): nat {
    match l
    case Dropping(w) => 3 * (|w.drops| + |w.adds|)
    case Subscribing(w, _, _, _) => 3 * (|w.drops| + |w.adds|) + 1
    case Restarting(w, _, _) => 3 * (|w.drops| + |w.adds|) + 2
    case _ => 0
  }

  lemma {:induction false} ProceedShrinks(c: Config, s: Channel, w: Work)
    requires s.chain != []
    ensures var t := Proceed(c, s, w);
            t.chain == s.chain[1..] || (t.chain != [] && Rank(t.chain[0]) < 3 * (|w.drops| + |w.adds|))
    decreases |w.drops| + |w.adds|
  {
    if w.drops != [] {
      if w.drops[0].0 in w.desired { ProceedShrinks(c, s, w.(drops := w.drops[1..])); }
    } else if w.adds != [] {
      var (id, spec) := w.adds[0];
      if id in s.active && s.active[id].spec == spec { ProceedShrinks(c, s, w.(adds := w.adds[1..])); }
    }
  }

  // Every await that settles brings a pass nearer to its end, so that it takes a bounded number of them.
  lemma PassComesToAnEnd(c: Config, s: Channel, ok: bool)
    requires s.chain != [] && InPass(s.chain[0])
    ensures var t := Next(c, s, if s.chain[0].Subscribing? then SubscribeEnds(ok) else StopEnds);
            t.chain == s.chain[1..] || (t.chain != [] && Rank(t.chain[0]) < Rank(s.chain[0]))
  {
    hide Proceed;
    var s0, l := s.(finished := None), s.chain[0];
    if l.Dropping? {
      ProceedShrinks(c, s0, l.work);
    } else if l.Subscribing? {
      ProceedShrinks(c, s0.(active := s.active[l.id := Sub(l.spec, l.number)]), l.work);
      ProceedShrinks(c, s0, l.work.(failed := l.work.failed + {l.id}));
    }
  }

  // ---- Queued passes start ----

  // The event that ends what the head of the chain awaits.
  predicate Settles(s: Channel, e: Event) {
    && s.chain != []
    && match s.chain[0]
       case Waiting => e.StartPass?
       case Loading => e.LoadEnds? && Walks(e.order, s.active)
       case Subscribing(_, _, _, _) => e.SubscribeEnds?
       case Thrown => e.Catch?
       case _ => e.StopEnds?
  }

  function After(c: Config, s: Channel, es: nat -> Event, n: nat): Channel {
    if n == 0 then s else Next(c, After(c, s, es, n - 1), es(n - 1))
  }

  ghost predicate SettlesFrom(c: Config, s: Channel, es: nat -> Event, n: nat) {
    exists m: nat | n <= m :: Settles(After(c, s, es, m), es(m))
  }

  // While a pass is queued, what the head of the chain awaits settles sooner or later; reload() calls
  // and dying loops may come in between as often as they like.
  ghost predicate Fair(c: Config, s: Channel, es: nat -> Event) {
    forall n: nat :: Queued(After(c, s, es, n)) > 0 ==> SettlesFrom(c, s, es, n)
  }

  // How far the head of the chain is from its end.
  function Stage(s: Channel): nat {
    if s.chain == [] then 0
    else if s.chain[0].Loading? then 3 else if InPass(s.chain[0]) then 2 else if s.chain[0].Thrown? then 1 else 0
  }

  function Left(s: Channel): nat { if s.chain == [] then 0 else Rank(s.chain[0]) }

  lemma SettlingComesNearer(c: Config, s: Channel, e: Event)
    requires ChainValid(s) && Queued(s) > 0 && Settles(s, e)
    ensures var t := Next(c, s, e);
            || s.started < t.started
            || (t.started == s.started && Queued(t) > 0 && (Stage(t) < Stage(s) || (Stage(t) == Stage(s) && Left(t) < Left(s))))
  {
    hide Walks, Rank, Proceed, AfterLoad;
    NextOnChain(c, s, e);
    if InPass(s.chain[0]) {
      PassComesToAnEnd(c, s, e.SubscribeEnds? && e.ok);
      PassMoves(c, s.(finished := None), e);
      hide Step;
    } else if s.chain[0].Loading? {
      PassMoves(c, s.(finished := None), e);
      LoadLeaves(c, s.(finished := None), e.got, e.order);
    }
  }

  lemma LoadLeaves(c: Config, s: Channel, got: Got, order: seq<string>)
    requires s.chain != [] && s.chain[0].Loading? && Walks(order, s.active)
    ensures AfterLoad(c, s, got, order).chain != s.chain
  {
    LoadMoves(c, s, got, order);
    hide AfterLoad;
  }

  lemma OtherEventsKeepTheHead(c: Config, s: Channel, e: Event)
    requires ChainValid(s) && Queued(s) > 0 && !Settles(s, e)
    ensures var t := Next(c, s, e);
            t.started == s.started && Queued(t) > 0 && Stage(t) == Stage(s) && Left(t) == Left(s)
  {
    hide Walks, Proceed, AfterLoad;
  }

  lemma AfterNext(c: Config, s: Channel, es: nat -> Event, n: nat)
    ensures After(c, s, es, n + 1) == Next(c, After(c, s, es, n), es(n))
  {
  }

  lemma {:induction false} StartComes(c: Config, s: Channel, es: nat -> Event, n: nat, m: nat)
    requires Fair(c, s, es) && n <= m && Settles(After(c, s, es, m), es(m))
    requires ChainValid(After(c, s, es, n)) && Queued(After(c, s, es, n)) > 0
    ensures exists k: nat :: After(c, s, es, n).started < After(c, s, es, k).started
    decreases Stage(After(c, s, es, n)), Left(After(c, s, es, n)), m - n
  {
    hide Next, After, Stage, Left, ChainValid, Queued, Settles, Fair, SettlesFrom;
    var now, next := After(c, s, es, n), After(c, s, es, n + 1);
    AfterNext(c, s, es, n);
    NextOnChain(c, now, es(n));
    if !Settles(now, es(n)) {
      OtherEventsKeepTheHead(c, now, es(n));
      StartComes(c, s, es, n + 1, m);
    } else {
      SettlingComesNearer(c, now, es(n));
      if next.started == now.started {
        var k := FairFrom(c, s, es, n + 1);
        StartComes(c, s, es, n + 1, k);
      }
    }
  }

  // After a reload() a pass starts, whatever else happens, once the awaits before it have settled.
  lemma ReloadIsFollowedByAPass(c: Config, es: seq<Event>, caller: Caller, later: nat -> Event)
    requires MayCall(Run(c, es), caller) && Fair(c, Run(c, es + [Reload(caller)]), later)
    ensures exists k: nat :: Run(c, es).started < After(c, Run(c, es + [Reload(caller)]), later, k).started
  {
    var s, t := Run(c, es), Run(c, es + [Reload(caller)]);
    RunSnoc(c, es, Reload(caller));
    RunKeepsChain(c, es);
    NextOnChain(c, s, Reload(caller));
    hide Fair, Next, Run, SettlesFrom;
    assert After(c, t, later, 0) == t;
    var m := FairFrom(c, t, later, 0);
    StartComes(c, t, later, 0, m);
  }

  lemma FairFrom(c: Config, s: Channel, es: nat -> Event, n: nat) returns (m: nat)
    requires Fair(c, s, es) && Queued(After(c, s, es, n)) > 0
    ensures n <= m && Settles(After(c, s, es, m), es(m))
  {
    assert SettlesFrom(c, s, es, n);
    m :| n <= m && Settles(After(c, s, es, m), es(m));
  }

  // ---- The class ----

  method ValidateSpecs(raws: seq<Raw>) returns (thrown: bool, valid: seq<Spec>, errors: nat)
    ensures thrown <==> exists r :: r in raws && Unwritable(r)
    ensures !thrown ==> valid == Valid(raws) && errors == |raws| - |valid|
    ensures !thrown ==> (errors == 0 <==> AllUsable(raws))
  {
    thrown, valid, errors := false, [], 0;
    var durables: set<string> := {};
    for i := 0 to |raws|
      invariant !thrown && valid == Valid(raws[..i]) && errors == i - |valid| && durables == Cursors(valid)
      invariant forall k | 0 <= k < i :: !Unwritable(raws[k])
    {
      assert raws[..i + 1][..i] == raws[..i];
      var r := raws[i];
      if r.Null? || r.Malformed? || r.spec.mode.OtherMode? || A2A_PREFIX <= r.spec.subject {
        errors := errors + 1;
      } else if r.spec.mode == JetStream {
        if r.spec.stream == "" || r.spec.durable == "" {
          errors := errors + 1;
        } else if !r.spec.printable {
          assert Unwritable(r);
          return true, [], 0;
        } else if CursorKey(r.spec) in durables {
          errors := errors + 1;
        } else {
          durables := durables + {CursorKey(r.spec)};
          valid := valid + [r.spec];
        }
      } else {
        valid := valid + [r.spec];
      }
    }
    assert raws[..|raws|] == raws;
    CleanIffAllUsable(raws);
  }

  class NatsChannel {
    const config: Config

    var active: map<string, Sub>
    var chain: seq<Link>
    var reloadQueued: bool
    var everLoaded: bool
    var nextSub: nat
    ghost var calls: nat
    ghost var started: nat
    ghost var loads: map<nat, Work>
    ghost var deletions: seq<Deletion>
    ghost var finished: Option<Work>
    ghost var exposed: bool

    ghost function Now(): Channel
      reads this
    {
      Channel(active, chain, reloadQueued, everLoaded, nextSub, calls, started, loads, deletions, finished, exposed)
    }

    constructor (config: Config)
      ensures Now() == Fresh && this.config == config
    {
      this.config := config;
      active, chain, reloadQueued, everLoaded, nextSub := map[], [], false, false, 0;
      calls, started, loads, deletions, finished, exposed := 0, 0, map[], [], None, false;
    }

    method ReloadNow()
      modifies this
      ensures Now() == Reloaded(old(Now()).(finished := None))
    {
      finished, calls := None, calls + 1;
      if reloadQueued { return; }
      reloadQueued := true;
      chain := chain + [Waiting];
    }

    method BeginPass()
      requires chain != [] && chain[0].Waiting?
      modifies this
      ensures Now() == Next(config, old(Now()), StartPass)
    {
      reloadQueued := false;
      chain := chain[0 := Loading];
      finished, started, exposed := None, started + 1, false;
    }

    method StopSub(id: string, deleteDurable: bool)
      modifies this`active, this`deletions
      ensures Now() == SubStopped(old(Now()), id, deleteDurable)
    {
      active := active - {id};
      if deleteDurable { deletions := deletions + [Deletion(started, id)]; }
    }

    // The two loops of _reload, up to the next await or the end of the pass.
    method RunOn(work: Work)
      requires chain != []
      modifies this
      ensures Now() == Proceed(config, old(Now()), work)
    {
      var w := work;
      while w.drops != []
        invariant Now() == old(Now()) && Proceed(config, Now(), w) == Proceed(config, old(Now()), work)
        decreases |w.drops|
      {
        var (id, sub) := w.drops[0];
        w := w.(drops := w.drops[1..]);
        if id !in w.desired {
          StopSub(id, HasDurable(sub.spec) && w.clean && config.deleteOnDrop);
          chain := chain[0 := Dropping(w)];
          return;
        }
      }
      while w.adds != []
        invariant w.drops == []
        invariant Now() == old(Now()) && Proceed(config, Now(), w) == Proceed(config, old(Now()), work)
        decreases |w.adds|
      {
        var (id, spec) := w.adds[0];
        w := w.(adds := w.adds[1..]);
        if id !in active {
          chain := chain[0 := Subscribing(w, id, spec, nextSub)];
          nextSub := nextSub + 1;
          return;
        }
        if active[id].spec != spec {
          StopSub(id, false);
          chain := chain[0 := Restarting(w, id, spec)];
          return;
        }
      }
      chain, finished := chain[1..], Some(w);
    }

    method RunOnLoaded(specs: seq<Spec>, clean: bool, order: seq<string>)
      requires chain != [] && Walks(order, active)
      modifies this
      ensures var was, w := old(Now()), WorkOf(old(active), specs, clean, order);
              Now() == Proceed(config, was.(everLoaded := true, loads := was.loads[was.started := w]), w)
    {
      everLoaded := true;
      var work := WorkOf(active, specs, clean, order);
      loads := loads[started := work];
      hide Proceed;
      RunOn(work);
    }

    method EndLoad(got: Got, order: seq<string>)
      requires chain != [] && chain[0].Loading? && Walks(order, active)
      modifies this
      ensures Now() == Next(config, old(Now()), LoadEnds(got, order))
    {
      hide Proceed, WorkOf, AllUsable, Valid, Walks;
      finished := None;
      var specs: seq<Spec>, clean := [], true;
      match got {
        case Absent =>
          if everLoaded { chain := chain[1..]; return; }
          everLoaded := true;
          if exists r | r in config.defaults :: !HasId(r) { chain := chain[0 := Thrown]; return; }
          specs := SpecsOf(config.defaults);
        case Value(raws) =>
          var thrown, errors;
          thrown, specs, errors := ValidateSpecs(raws);
          if thrown { chain := chain[0 := Thrown]; return; }
          everLoaded := true;
          if exists s | s in specs :: !s.printable { chain := chain[0 := Thrown]; return; }
          clean := errors == 0;
        case _ =>
          chain := chain[1..];
          return;
      }
      RunOnLoaded(specs, clean, order);
    }

    method EndStop()
      requires chain != [] && (chain[0].Dropping? || chain[0].Restarting?)
      modifies this
      ensures Now() == Next(config, old(Now()), StopEnds)
    {
      finished := None;
      if chain[0].Dropping? {
        RunOn(chain[0].work);
      } else {
        chain := chain[0 := Subscribing(chain[0].work, chain[0].id, chain[0].spec, nextSub)];
        nextSub := nextSub + 1;
      }
    }

    method EndSubscribe(ok: bool)
      requires chain != [] && chain[0].Subscribing?
      modifies this
      ensures Now() == Next(config, old(Now()), SubscribeEnds(ok))
    {
      finished := None;
      var l := chain[0];
      if ok {
        active := active[l.id := Sub(l.spec, l.number)];
        RunOn(l.work);
      } else {
        RunOn(l.work.(failed := l.work.failed + {l.id}));
      }
    }

    method CatchPass()
      requires chain != [] && chain[0].Thrown?
      modifies this
      ensures Now() == Next(config, old(Now()), Catch)
    {
      finished, exposed := None, |chain| > 1;
      reloadQueued := false;
      chain := chain[1..];
    }

    method ReapIfStale(id: string, number: nat)
      modifies this
      ensures Now() == Next(config, old(Now()), LoopDies(id, number))
    {
      finished := None;
      if id in active && active[id].number == number {
        chain := Noted(Channel(active, chain, reloadQueued, everLoaded, nextSub, 0, 0, map[], [], None, false), id).chain;
        active := active - {id};
      }
    }
  }
}
