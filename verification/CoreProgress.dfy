// What start(), addSession, removeSession and stop() of a2a_core.ts bring about when their awaits go
// well, and that a start that failed can be tried again.
module CoreProgress {
  import opened Wrappers
  import opened CoreLifecycle

  // ---- start() ----

  // How many awaits a start has: one for each connection, the presence and the signer.
  function Awaits(n: int): nat { if n >= 3 then 5 else if n == 2 then 4 else 3 }

  // The connections a start opens; o is the number of the first.
  function Opened(n: int): nat { if n >= 3 then 3 else if n == 2 then 2 else 1 }

  function Min(a: nat, b: nat): nat { if a < b then a else b }

  // A start past its first k awaits. With three connections or more the three fields differ, with two
  // control shares the publish one, with one all share it.
  ghost predicate StartedUpTo(n: int, b: Boot, o: nat, k: nat) {
    && b.startPromise && b.openings == o + Min(k, Opened(n))
    && (b.started <==> k >= Awaits(n))
    && b.nc == (if k >= 1 then Some(o) else None)
    && b.ncPublish == (if k >= Opened(n) || k >= 2 then Some(if n >= 2 then o + 1 else o) else None)
    && b.ncControl == (if k >= Opened(n) then Some(o + Opened(n) - 1) else None)
    && (b.redis <==> k >= Opened(n))
    && b.start == (
      if k >= Awaits(n) then NoStart
      else if k < Opened(n) then (if k == 0 then ConnectConsume else if k == 1 then ConnectPublish else ConnectControl)
      else if k == Opened(n) then ClaimPresence else LoadSigner)
  }

  // stop() is not called and no await of the start fails; anything else may go on meanwhile.
  predicate Undisturbed(es: seq<Event>) {
    forall i | 0 <= i < |es| :: !es[i].CallStop? && es[i] != ResumeStart(false)
  }

  function StartAwaits(es: seq<Event>): nat {
    if es == [] then 0 else StartAwaits(es[..|es| - 1]) + if es[|es| - 1].ResumeStart? then 1 else 0
  }

  lemma RunSnoc(n: int, es: seq<Event>, e: Event)
    ensures Run(n, es + [e]) == Next(n, Run(n, es), e)
  {
    assert (es + [e])[..|es|] == es;
  }

  // Redis is connected once the pool is complete.
  lemma {:induction false} RedisComesLast(n: int, es: seq<Event>)
    ensures Run(n, es).boot.redis ==> Run(n, es).boot.ncControl.Some?
  {
    if es != [] {
      RedisComesLast(n, es[..|es| - 1]);
      RedisMovesLast(n, Run(n, es[..|es| - 1]), es[|es| - 1]);
      hide Next;
    }
  }

  lemma RedisMovesLast(n: int, s: Core, e: Event)
    requires s.boot.redis ==> s.boot.ncControl.Some?
    ensures Next(n, s, e).boot.redis ==> Next(n, s, e).boot.ncControl.Some?
  {
    hide AddCalled, AddResumed, RemoveCalled, RemoveResumed, First, Pool;
  }

  lemma StartGoesOn(n: int, s: Core, e: Event, o: nat, k: nat)
    requires !s.stopping && s.stop.NoStop? && StartedUpTo(n, s.boot, o, k) && !e.CallStop? && e != ResumeStart(false)
    ensures var t := Next(n, s, e);
            !t.stopping && t.stop.NoStop? && StartedUpTo(n, t.boot, o, if e.ResumeStart? then k + 1 else k)
  {
    hide AddCalled, AddResumed, RemoveCalled, RemoveResumed;
  }

  // A start whose awaits succeed brings the core up, at its last await and not before, whatever adds
  // and removals go on meanwhile.
  lemma {:induction false} StartBringsUp(n: int, es: seq<Event>, fs: seq<Event>)
    requires var s := Run(n, es); s.stop.NoStop? && !s.boot.startPromise
    requires Undisturbed(fs)
    ensures var t, o := Run(n, es + [CallStart] + fs), Run(n, es).boot.openings;
            && !t.stopping && t.stop.NoStop?
            && StartedUpTo(n, t.boot, o, StartAwaits(fs))
            && (CoreUp(t) <==> StartAwaits(fs) >= Awaits(n))
  {
    if fs == [] {
      RunKeepsInv(n, es);
      RedisComesLast(n, es);
      assert es + [CallStart] + fs == es + [CallStart];
      RunSnoc(n, es, CallStart);
    } else {
      var gs, e := fs[..|fs| - 1], fs[|fs| - 1];
      assert es + [CallStart] + fs == (es + [CallStart] + gs) + [e];
      StartBringsUp(n, es, gs);
      RunSnoc(n, es + [CallStart] + gs, e);
      StartGoesOn(n, Run(n, es + [CallStart] + gs), e, Run(n, es).boot.openings, StartAwaits(gs));
      hide Next, Run;
    }
  }

  // k further awaits of the start, whichever way they end.
  function Resumes(n: int, b: Boot, oks: seq<bool>): Boot
    decreases |oks|
  {
    if oks == [] then b else Resumes(n, BootResumed(n, b, oks[0]), oks[1..])
  }

  // A start that fails gives its connections back and can be tried again: after the failure, the
  // presence's release and one await for each connection end it.
  lemma {:induction false} FailedStartComesToItsEnd(n: int, b: Boot, oks: seq<bool>)
    requires b.start.UndoDrain? && |oks| == |b.start.rest| + 1
    ensures var c := Resumes(n, b, oks);
            && !c.startPromise && c.start == NoStart && Pool(c) == [] && !c.redis && c.started == b.started
            && c.drained == b.drained + b.start.rest
    decreases |oks|
  {
    var c, rest := BootResumed(n, b, oks[0]), b.start.rest;
    if rest != [] {
      FailedStartComesToItsEnd(n, c, oks[1..]);
      assert rest == [rest[0]] + rest[1..];
      assert b.drained + rest == (b.drained + [rest[0]]) + rest[1..];
    } else {
      assert oks[1..] == [];
    }
  }

  lemma FailedStartCanBeRetried(n: int, b: Boot, oks: seq<bool>)
    requires BootValid(b) && b.start != NoStart && !b.start.UndoPresence? && !b.start.UndoDrain?
    requires |oks| == 2 + |Pool(b)| && !oks[0]
    ensures var c := Resumes(n, b, oks);
            && !c.startPromise && !c.started && c.start == NoStart && Pool(c) == [] && !c.redis
            && c.drained == b.drained + Pool(b)
  {
    var pool := Pool(b);
    var c := b.(start := UndoPresence);
    var d := BootDrained(c, pool);
    assert Resumes(n, b, oks) == Resumes(n, d, oks[2..]) by {
      assert oks[1..][1..] == oks[2..];
    }
    if pool != [] {
      FailedStartComesToItsEnd(n, d, oks[2..]);
      assert b.drained + pool == (b.drained + [pool[0]]) + pool[1..];
    }
  }

  // ---- addSession ----

  predicate Free(k: Book, agentId: string, toolOnly: bool, epoch: Option<int>) {
    if toolOnly then !HasKey(k.sessions, KeyOf(agentId, true, epoch)) else !HasOwning(k.sessions, agentId)
  }

  // The awaits of an add: the channel's start and, for a UDS session, the connect of its server.
  function AddAwaits(n: int, s: Core, id: nat, epoch: Option<int>): Core {
    var t := Next(n, s, ResumeAdd(id, true));
    if epoch.Some? then Next(n, t, ResumeAdd(id, true)) else t
  }

  // On a core that is up, an add of a free id whose awaits succeed ends with its session in the map.
  lemma FreeIdIsAdded(n: int, s: Core, id: nat, agentId: string, toolOnly: bool, epoch: Option<int>)
    requires Inv(s) && CoreUp(s) && id !in s.book.adds && IsToken(agentId) && (toolOnly ==> epoch.Some?)
    requires Free(s.book, agentId, toolOnly, epoch)
    ensures var t := AddAwaits(n, Next(n, s, CallAdd(id, agentId, toolOnly, epoch)), id, epoch);
            && t.book.sessions == s.book.sessions + [Session(KeyOf(agentId, toolOnly, epoch), agentId, id, toolOnly, epoch)]
            && t.book.adds[id].stage == Settled(true) && id in t.book.startedChannels && t.book.stoppedChannels == s.book.stoppedChannels
            && t.boot == s.boot && t.stop == s.stop
            && Next(n, t, ResumeAdd(id, true)).book.inflightAdds == s.book.inflightAdds - {id}
  {
    hide IsToken, KeyOf;
    FreshKeyWhenUnique(s.book, Add(agentId, toolOnly, epoch, Starting));
    var k := Next(n, s, CallAdd(id, agentId, toolOnly, epoch)).book;
    assert k.sessions == s.book.sessions;
  }

  // An add on a core that is not up, or of an owned id, is refused at once and touches nothing else.
  lemma OwnedIdIsRefused(n: int, s: Core, id: nat, agentId: string, toolOnly: bool, epoch: Option<int>)
    requires id !in s.book.adds && (toolOnly ==> epoch.Some?)
    requires !CoreUp(s) || (!toolOnly && HasOwning(s.book.sessions, agentId))
    ensures var t := Next(n, s, CallAdd(id, agentId, toolOnly, epoch));
            t == s.(book := s.book.(adds := s.book.adds[id := Add(agentId, toolOnly, epoch, Settled(false))]))
  {
  }

  // An add that fails, or finds its id taken when it is resumed, stops its channel and settles as refused.
  lemma RefusedAddIsRolledBack(n: int, s: Core, id: nat, ok: bool)
    requires Inv(s) && id in s.book.adds && s.book.adds[id].stage.Connecting?
    requires !ok || !CoreUp(s) || !Free(s.book, s.book.adds[id].agentId, s.book.adds[id].toolOnly, s.book.adds[id].epoch)
    ensures var t := Next(n, Next(n, s, ResumeAdd(id, ok)), ResumeAdd(id, true));
            && t.book.sessions == s.book.sessions && t.book.adds[id].stage == Settled(false) && id in t.book.stoppedChannels
  {
    hide HasOwning, HasKey, KeyOf;
  }

  // ---- removeSession and stop() ----

  // A removal by id alone takes the session under that key, else the first of that agent, and stops it.
  lemma RemovalByIdTakesOne(n: int, s: Core, id: nat, agentId: string, i: nat)
    requires id !in s.book.removals && i < |s.book.sessions|
    requires
      || (s.book.sessions[i].key == agentId && forall j | 0 <= j < i :: s.book.sessions[j].key != agentId)
      || (s.book.sessions[i].agentId == agentId && (forall j | 0 <= j < i :: s.book.sessions[j].agentId != agentId)
          && forall j | 0 <= j < |s.book.sessions| :: s.book.sessions[j].key != agentId)
    ensures var t := Next(n, Next(n, s, CallRemove(id, agentId, None)), ResumeRemove(id));
            && t.book.sessions == s.book.sessions[..i] + s.book.sessions[i + 1..]
            && s.book.sessions[i].channel in t.book.stoppedChannels && t.book.removals[id].settled
  {
    var xs := s.book.sessions;
    var direct, byAgent := First(xs, (x: Session) => x.key == agentId), First(xs, (x: Session) => x.agentId == agentId);
    assert direct.Some? || byAgent.Some?;
  }

  function StopAwaits(n: int, es: seq<Event>, k: nat): seq<Event> {
    if k == 0 then es else StopAwaits(n, es, k - 1) + [ResumeStop]
  }

  lemma {:induction false} StepsAreRun(n: int, es: seq<Event>, k: nat)
    ensures Run(n, StopAwaits(n, es, k)) == StopSteps(Run(n, es), k)
  {
    hide StopResumed;
    if k > 0 {
      StepsAreRun(n, es, k - 1);
      RunSnoc(n, StopAwaits(n, es, k - 1), ResumeStop);
      StopStepsSnoc(Run(n, es), k - 1);
    }
  }

  lemma {:induction false} StopStepsSnoc(s: Core, k: nat)
    ensures StopSteps(s, k + 1) == StopResumed(StopSteps(s, k))
    decreases k
  {
    if k > 0 { StopStepsSnoc(StopResumed(s), k - 1); }
  }

  // stop() latches at once; with no start or add pending, finitely many awaits end it, with no
  // session left and every connection drained.
  lemma StopIsCarriedOut(n: int, es: seq<Event>) returns (k: nat)
    requires Run(n, es).boot.start == NoStart && AddsSettled(Run(n, es).book.adds, Run(n, es).book.adds.Keys)
    ensures Run(n, es + [CallStop]).stopping
    ensures var t := Run(n, StopAwaits(n, es + [CallStop], k));
            t.stop.Stopped? && t.book.sessions == [] && Pool(t.boot) == [] && !t.boot.started
  {
    RunSnoc(n, es, CallStop);
    RunKeepsInv(n, es);
    var s := Run(n, es + [CallStop]);
    StopCalledKeeps(Run(n, es));
    StopLatches(Run(n, es));
    k := StopFinishes(s);
    StepsAreRun(n, es + [CallStop], k);
    StoppedHasReleasedAll(n, StopAwaits(n, es + [CallStop], k));
  }

  lemma StopLatches(s: Core)
    requires StopValid(s)
    ensures var t := StopCalled(s);
            t.stopping && t.boot == s.boot && t.book == s.book
  {
  }
}
