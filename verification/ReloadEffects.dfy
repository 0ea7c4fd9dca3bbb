// What a reload pass of nats-channel.ts leaves alone: a subscription whose spec is unchanged.
module ReloadEffects {
  import opened Wrappers
  import opened Reconciler

  // The work wants the id as it is.
  ghost predicate Unchanged(w: Work, id: string, sub: Sub) {
    && id in w.desired && w.desired[id] == sub.spec
    && forall e | e in w.adds && e.0 == id :: e.1 == sub.spec
  }

  // The subscription is active, and the pass under way, if any, is past its load and not at this id.
  ghost predicate Spared(s: Channel, id: string, sub: Sub) {
    && id in s.active && s.active[id] == sub
    && (s.chain != [] ==>
          match s.chain[0]
          case Loading => false
          case Dropping(w) => Unchanged(w, id, sub)
          case Restarting(w, i, _) => i != id && Unchanged(w, id, sub)
          case Subscribing(w, i, _, _) => i != id && Unchanged(w, id, sub)
          case _ => true)
  }

  lemma LessIsUnchanged(w: Work, id: string, sub: Sub)
    requires Unchanged(w, id, sub)
    ensures w.drops != [] ==> Unchanged(w.(drops := w.drops[1..]), id, sub)
    ensures w.adds != [] ==> Unchanged(w.(adds := w.adds[1..]), id, sub) && (w.adds[0].0 == id ==> w.adds[0].1 == sub.spec)
  {
  }

  lemma {:induction false} ProceedSpares(c: Config, s: Channel, w: Work, id: string, sub: Sub)
    requires s.chain != [] && (|s.chain| > 1 ==> s.chain[1].Waiting?)
    requires id in s.active && s.active[id] == sub && Unchanged(w, id, sub)
    ensures Spared(Proceed(c, s, w), id, sub)
    decreases |w.drops| + |w.adds|
  {
    LessIsUnchanged(w, id, sub);
    hide Unchanged;
    if w.drops != [] {
      UnchangedIsDesired(w, id, sub);
      if w.drops[0].0 in w.desired { ProceedSpares(c, s, w.(drops := w.drops[1..]), id, sub); }
    } else if w.adds != [] {
      var (i, spec) := w.adds[0];
      if i in s.active && s.active[i].spec == spec { ProceedSpares(c, s, w.(adds := w.adds[1..]), id, sub); }
    }
  }

  lemma UnchangedIsDesired(w: Work, id: string, sub: Sub)
    requires Unchanged(w, id, sub)
    ensures id in w.desired
  {
  }

  lemma WorkIsUnchanged(active: map<string, Sub>, specs: seq<Spec>, clean: bool, order: seq<string>, id: string)
    requires Walks(order, active) && id in active && id in Desired(specs) && Desired(specs)[id] == active[id].spec
    ensures Unchanged(WorkOf(active, specs, clean, order), id, active[id])
  {
  }

  lemma NotedIsUnchanged(w: Work, id: string, sub: Sub, failed: set<string>, died: set<string>)
    requires Unchanged(w, id, sub)
    ensures Unchanged(w.(failed := failed), id, sub) && Unchanged(w.(died := died), id, sub)
  {
  }

  lemma NextSpares(c: Config, s: Channel, e: Event, id: string, sub: Sub)
    requires ChainValid(s) && Spared(s, id, sub) && e != LoopDies(id, sub.number)
    requires Next(c, s, e).started == s.started
    ensures Spared(Next(c, s, e), id, sub)
  {
    hide Unchanged, Proceed, AfterLoad, Walks, MayCall;
    var s0 := s.(finished := None);
    if s.chain != [] && e.StopEnds? && s.chain[0].Dropping? {
      ProceedSpares(c, s0, s.chain[0].work, id, sub);
    } else if s.chain != [] && e.SubscribeEnds? && s.chain[0].Subscribing? {
      var l := s.chain[0];
      NotedIsUnchanged(l.work, id, sub, l.work.failed + {l.id}, {});
      ProceedSpares(c, s0.(active := s.active[l.id := Sub(l.spec, l.number)]), l.work, id, sub);
      ProceedSpares(c, s0, l.work.(failed := l.work.failed + {l.id}), id, sub);
    } else if s.chain != [] && e.LoopDies? && InPass(s.chain[0]) {
      NotedIsUnchanged(s.chain[0].work, id, sub, {}, s.chain[0].work.died + {e.id});
    }
  }

  function Through(c: Config, s: Channel, fs: seq<Event>): Channel {
    if fs == [] then s else Next(c, Through(c, s, fs[..|fs| - 1]), fs[|fs| - 1])
  }

  lemma {:induction false} StartedGrows(c: Config, s: Channel, fs: seq<Event>)
    requires ChainValid(s)
    ensures s.started <= Through(c, s, fs).started && ChainValid(Through(c, s, fs))
  {
    hide Next, ChainValid;
    if fs != [] {
      StartedGrows(c, s, fs[..|fs| - 1]);
      NextOnChain(c, Through(c, s, fs[..|fs| - 1]), fs[|fs| - 1]);
    }
  }

  lemma {:induction false} ThroughSpares(c: Config, s: Channel, fs: seq<Event>, id: string, sub: Sub)
    requires ChainValid(s) && Spared(s, id, sub) && Through(c, s, fs).started == s.started
    requires forall i | 0 <= i < |fs| :: fs[i] != LoopDies(id, sub.number)
    ensures Spared(Through(c, s, fs), id, sub)
  {
    hide Next, ChainValid, Spared;
    if fs != [] {
      var t := Through(c, s, fs[..|fs| - 1]);
      StartedGrows(c, s, fs[..|fs| - 1]);
      NextOnChain(c, t, fs[|fs| - 1]);
      ThroughSpares(c, s, fs[..|fs| - 1], id, sub);
      NextSpares(c, t, fs[|fs| - 1], id, sub);
    }
  }

  // The load is good and wants the id with the spec it is active with.
  predicate WantedAsItIs(c: Config, s: Channel, got: Got, id: string) {
    var load := Loaded(c, s.everLoaded, got);
    load.Use? && id in s.active && id in Desired(load.specs) && Desired(load.specs)[id] == s.active[id].spec
  }

  lemma LoadProceeds(c: Config, s: Channel, got: Got, order: seq<string>)
    requires s.chain != [] && s.chain[0].Loading? && Walks(order, s.active) && Loaded(c, s.everLoaded, got).Use?
    ensures var load := Loaded(c, s.everLoaded, got);
            var w := WorkOf(s.active, load.specs, load.clean, order);
            Next(c, s, LoadEnds(got, order)) ==
            Proceed(c, s.(finished := None, everLoaded := true, loads := s.loads[s.started := w]), w)
  {
    hide Proceed, WorkOf, Walks, Loaded;
  }

  lemma LoadSpares(c: Config, s: Channel, got: Got, order: seq<string>, id: string)
    requires ChainValid(s) && s.chain != [] && s.chain[0].Loading? && Walks(order, s.active) && WantedAsItIs(c, s, got, id)
    ensures var t := Next(c, s, LoadEnds(got, order)); Spared(t, id, s.active[id]) && t.started == s.started
  {
    hide Unchanged, Proceed, WorkOf, Walks, Loaded, Desired, Spared, Next;
    var load := Loaded(c, s.everLoaded, got);
    var w := WorkOf(s.active, load.specs, load.clean, order);
    var u := s.(finished := None, everLoaded := true, loads := s.loads[s.started := w]);
    LoadProceeds(c, s, got, order);
    WorkIsUnchanged(s.active, load.specs, load.clean, order, id);
    ProceedSpares(c, u, w, id, s.active[id]);
    ProceedMoves(c, u, w);
  }

  // From the load of a pass until the next pass starts, a subscription that is wanted with the spec it
  // has stays active as the same object, unless its own loop dies: it misses no message and its cursor
  // is not touched.
  lemma UnchangedKeepsItsObject(c: Config, s: Channel, got: Got, order: seq<string>, fs: seq<Event>, id: string)
    requires ChainValid(s) && s.chain != [] && s.chain[0].Loading? && Walks(order, s.active) && WantedAsItIs(c, s, got, id)
    requires Through(c, Next(c, s, LoadEnds(got, order)), fs).started == s.started
    requires forall i | 0 <= i < |fs| :: fs[i] != LoopDies(id, s.active[id].number)
    ensures var t := Through(c, Next(c, s, LoadEnds(got, order)), fs);
            id in t.active && t.active[id] == s.active[id]
  {
    LoadSpares(c, s, got, order, id);
    NextOnChain(c, s, LoadEnds(got, order));
    hide Next, WantedAsItIs, Walks, ChainValid, Through;
    ThroughSpares(c, Next(c, s, LoadEnds(got, order)), fs, id, s.active[id]);
  }

  // ---- Subscribing ----

  lemma {:induction false} ProceedAddsNothing(c: Config, s: Channel, w: Work)
    requires s.chain != []
    ensures Proceed(c, s, w).active.Keys <= s.active.Keys
    decreases |w.drops| + |w.adds|
  {
    if w.drops != [] {
      if w.drops[0].0 in w.desired { ProceedAddsNothing(c, s, w.(drops := w.drops[1..])); }
    } else if w.adds != [] {
      var (id, spec) := w.adds[0];
      if id in s.active && s.active[id].spec == spec { ProceedAddsNothing(c, s, w.(adds := w.adds[1..])); }
    }
  }

  // A subscribe that succeeds leaves the new object active under its id; one that fails leaves the id out.
  lemma SubscribeDecides(c: Config, s: Channel, ok: bool)
    requires ChainValid(s) && PassValid(s) && s.chain != [] && s.chain[0].Subscribing?
    ensures var l, t := s.chain[0], Next(c, s, SubscribeEnds(ok));
            && (ok ==> l.id in t.active && t.active[l.id] == Sub(l.spec, l.number))
            && (!ok && l.id !in s.active ==> l.id !in t.active)
  {
    var l, s0 := s.chain[0], s.(finished := None);
    BusyIsUnchanged(s, l.work, l.id, l.spec, l.number);
    hide Proceed, Unchanged, PassValid;
    ProceedSpares(c, s0.(active := s.active[l.id := Sub(l.spec, l.number)]), l.work, l.id, Sub(l.spec, l.number));
    ProceedAddsNothing(c, s0, l.work.(failed := l.work.failed + {l.id}));
  }

  lemma BusyIsUnchanged(s: Channel, w: Work, id: string, spec: Spec, number: nat)
    requires WorkValid(s.active, w, Some(id)) && id in w.desired && w.desired[id] == spec
    ensures Unchanged(w, id, Sub(spec, number))
  {
  }

  // ---- Objects ----

  // No two subscriptions share a number, and the one being made has none of those in use.
  ghost predicate NumbersValid(s: Channel) {
    && (forall id <- s.active :: s.active[id].number < s.nextSub)
    && (forall i, j | i in s.active && j in s.active && i != j :: s.active[i].number != s.active[j].number)
    && (s.chain != [] && s.chain[0].Subscribing? ==>
          s.chain[0].number < s.nextSub && forall id <- s.active :: s.active[id].number != s.chain[0].number)
  }

  ghost predicate ActiveNumbersValid(s: Channel) { NumbersValid(s.(chain := [])) }

  // Fewer subscriptions, and the same one being made, or a new number for it.
  lemma FewerKeepNumbers(s: Channel, t: Channel)
    requires NumbersValid(s) && s.nextSub <= t.nextSub
    requires forall id <- t.active :: id in s.active && t.active[id] == s.active[id]
    requires t.chain != [] && t.chain[0].Subscribing? ==>
               || (s.chain != [] && s.chain[0].Subscribing? && t.chain[0].number == s.chain[0].number)
               || s.nextSub == t.chain[0].number < t.nextSub
    ensures NumbersValid(t)
  {
  }

  lemma {:induction false} ProceedKeepsNumbers(c: Config, s: Channel, w: Work)
    requires s.chain != [] && (|s.chain| > 1 ==> s.chain[1].Waiting?) && ActiveNumbersValid(s)
    ensures NumbersValid(Proceed(c, s, w))
    decreases |w.drops| + |w.adds|
  {
    hide NumbersValid, HasDurable;
    var t := Proceed(c, s, w);
    if w.drops != [] {
      if w.drops[0].0 in w.desired { ProceedKeepsNumbers(c, s, w.(drops := w.drops[1..])); } else { FewerKeepNumbers(s.(chain := []), t); }
    } else if w.adds != [] {
      var (id, spec) := w.adds[0];
      if id in s.active && s.active[id].spec == spec {
        ProceedKeepsNumbers(c, s, w.(adds := w.adds[1..]));
      } else {
        FewerKeepNumbers(s.(chain := []), t);
      }
    } else {
      FewerKeepNumbers(s.(chain := []), t);
    }
  }

  lemma LoadKeepsNumbers(c: Config, s: Channel, got: Got, order: seq<string>)
    requires ChainValid(s) && NumbersValid(s) && s.chain != [] && s.chain[0].Loading? && Walks(order, s.active)
    ensures NumbersValid(AfterLoad(c, s, got, order))
  {
    hide Proceed, Walks, Loaded, WorkOf;
    match Loaded(c, s.everLoaded, got)
    case Use(specs, clean) =>
      var w := WorkOf(s.active, specs, clean, order);
      ProceedKeepsNumbers(c, s.(everLoaded := true, loads := s.loads[s.started := w]), w);
    case _ =>
  }

  lemma SubscribedKeepsNumbers(c: Config, s: Channel, ok: bool)
    requires ChainValid(s) && NumbersValid(s) && s.chain != [] && s.chain[0].Subscribing?
    ensures NumbersValid(Step(c, s, SubscribeEnds(ok)))
  {
    var l := s.chain[0];
    var u := s.(active := s.active[l.id := Sub(l.spec, l.number)]);
    assert ActiveNumbersValid(u);
    ProceedKeepsNumbers(c, u, l.work);
    ProceedKeepsNumbers(c, s, l.work.(failed := l.work.failed + {l.id}));
    hide Proceed, NumbersValid;
  }

  lemma DeathKeepsNumbers(s: Channel, id: string, number: nat)
    requires NumbersValid(s)
    ensures NumbersValid(Reaped(s, id, number))
  {
    hide NumbersValid;
    FewerKeepNumbers(s, Reaped(s, id, number));
  }

  lemma StepKeepsNumbers(c: Config, s: Channel, e: Event)
    requires ChainValid(s) && NumbersValid(s) && s.chain != []
    requires !e.LoadEnds? && !e.SubscribeEnds? && !e.LoopDies? && !(e.StopEnds? && s.chain[0].Dropping?)
    ensures NumbersValid(Step(c, s, e))
  {
    hide Proceed, Walks, MayCall, AfterLoad, NumbersValid, Reaped;
    FewerKeepNumbers(s, Step(c, s, e));
  }

  lemma NextKeepsNumbers(c: Config, s: Channel, e: Event)
    requires ChainValid(s) && NumbersValid(s)
    ensures NumbersValid(Next(c, s, e))
  {
    var s0, t := s.(finished := None), Next(c, s, e);
    FewerKeepNumbers(s, s0);
    assert ActiveNumbersValid(s0);
    if e.LoopDies? { DeathKeepsNumbers(s0, e.id, e.number); }
    hide Proceed, Walks, MayCall, AfterLoad, NumbersValid, ActiveNumbersValid, Reaped;
    if s.chain == [] {
      if !e.LoopDies? { FewerKeepNumbers(s0, t); }
    } else if e.LoadEnds? {
      if s.chain[0].Loading? && Walks(e.order, s.active) { LoadKeepsNumbers(c, s0, e.got, e.order); }
    } else if e.StopEnds? && s.chain[0].Dropping? {
      ProceedKeepsNumbers(c, s0, s.chain[0].work);
    } else if e.SubscribeEnds? {
      if s.chain[0].Subscribing? { SubscribedKeepsNumbers(c, s0, e.ok); }
    } else if !e.LoopDies? {
      StepKeepsNumbers(c, s0, e);
    }
  }

  // So in every run a loop that dies takes out its own subscription or none, never a newer one.
  lemma {:induction false} NumbersTellApart(c: Config, es: seq<Event>)
    ensures NumbersValid(Run(c, es))
  {
    if es != [] {
      NumbersTellApart(c, es[..|es| - 1]);
      RunKeepsChain(c, es[..|es| - 1]);
      NextKeepsNumbers(c, Run(c, es[..|es| - 1]), es[|es| - 1]);
      hide Next;
    }
  }

  lemma DeadLoopTakesItsOwn(c: Config, s: Channel, id: string, number: nat, other: string)
    requires NumbersValid(s) && other in s.active
    ensures var t := Next(c, s, LoopDies(id, number));
            (other in t.active <==> !(other == id && s.active[other].number == number))
            && (other in t.active ==> t.active[other] == s.active[other])
  {
  }

  // ---- Which load a deletion comes from ----

  // The event at this place ended the load of the pass, well, with this work.
  ghost predicate LoadedAt(c: Config, es: seq<Event>, i: nat, pass: nat, w: Work)
    requires i < |es|
  {
    var s := Run(c, es[..i]);
    && es[i].LoadEnds? && s.started == pass && Walks(es[i].order, s.active)
    && var load := Loaded(c, s.everLoaded, es[i].got);
       load.Use? && w == WorkOf(s.active, load.specs, load.clean, es[i].order)
  }

  lemma LoadEndMoves(c: Config, s: Channel, got: Got, order: seq<string>)
    requires s.chain != [] && Walks(order, s.active)
    ensures var t, load := AfterLoad(c, s, got, order), Loaded(c, s.everLoaded, got);
            t.loads == if load.Use? then s.loads[s.started := WorkOf(s.active, load.specs, load.clean, order)] else s.loads
  {
    hide Proceed, Walks, WorkOf, Loaded;
    match Loaded(c, s.everLoaded, got)
    case Use(specs, clean) =>
      var w := WorkOf(s.active, specs, clean, order);
      ProceedMoves(c, s.(everLoaded := true, loads := s.loads[s.started := w]), w);
    case _ =>
  }

  lemma LoadsMove(c: Config, s: Channel, e: Event)
    ensures var t := Next(c, s, e);
            t.loads == s.loads ||
            (&& e.LoadEnds? && Walks(e.order, s.active)
             && var load := Loaded(c, s.everLoaded, e.got);
                load.Use? && t.loads == s.loads[s.started := WorkOf(s.active, load.specs, load.clean, e.order)])
  {
    hide Proceed, AfterLoad, Walks, WorkOf, Loaded, MayCall;
    var s0 := s.(finished := None);
    if s.chain != [] && s.chain[0].Loading? && e.LoadEnds? && Walks(e.order, s.active) {
      LoadEndMoves(c, s0, e.got, e.order);
    } else if s.chain != [] && s.chain[0].Dropping? {
      ProceedMoves(c, s0, s.chain[0].work);
    } else if s.chain != [] && s.chain[0].Subscribing? {
      var l := s.chain[0];
      ProceedMoves(c, s0.(active := s.active[l.id := Sub(l.spec, l.number)]), l.work);
      ProceedMoves(c, s0, l.work.(failed := l.work.failed + {l.id}));
    }
  }

  lemma {:induction false} LoadsComeFromEvents(c: Config, es: seq<Event>, pass: nat) returns (i: nat)
    requires pass in Run(c, es).loads
    ensures i < |es| && LoadedAt(c, es, i, pass, Run(c, es).loads[pass])
  {
    var before, e := es[..|es| - 1], es[|es| - 1];
    var s := Run(c, before);
    LoadsMove(c, s, e);
    assert Run(c, es) == Next(c, s, e);
    hide Next, Run, Walks, WorkOf, Loaded;
    if Run(c, es).loads == s.loads || pass != s.started {
      i := LoadsComeFromEvents(c, before, pass);
      assert before[..i] == es[..i] && before[i] == es[i];
    } else {
      i := |es| - 1;
    }
  }

  // In every run a durable is deleted only by a pass whose load was the seeding of the defaults, or found
  // a list in which every entry was usable and no two shared a cursor, and which did not want the id.
  lemma DeletionComesFromAnUntouchedList(c: Config, es: seq<Event>, d: Deletion) returns (i: nat)
    requires d in Run(c, es).deletions
    ensures c.deleteOnDrop && i < |es| && es[i].LoadEnds? && Run(c, es[..i]).started == d.pass
    ensures match es[i].got
            case Absent => !Run(c, es[..i]).everLoaded
            case Value(raws) => AllUsable(raws) && forall r | r in raws :: IdOf(r.spec) != d.id
            case _ => false
  {
    DeletionsNeedACleanLoad(c, es, d);
    i := LoadsComeFromEvents(c, es, d.pass);
    var s := Run(c, es[..i]);
    hide Run, Walks;
    match es[i].got
    case Value(raws) =>
      CleanIffAllUsable(raws);
      forall r | r in raws ensures IdOf(r.spec) != d.id {
        var k :| 0 <= k < |raws| && raws[k] == r;
        DesiredIsLastListed(Valid(raws), d.id);
      }
    case _ =>
  }
}
