// The presence lease of presence.ts: any number of PresenceClaimers and the one Redis key they
// compete for. A claimer is named by its instance token. Requests reach the store late, replies may
// be lost, and time moves on between any two steps. Instants and the TTL are in milliseconds.
module Presence {
  import opened Wrappers

  // ---- One claimer ----

  datatype Command = SetNx | Get | Expire | Beat | Release

  // Holder names the claimer whose token the record bears; None is no record, or none of theirs.
  datatype Reply = Yes | No | Holder(token: Option<nat>)

  datatype Claimer = Claimer(started: bool, stopped: bool, owned: bool, lastOwnedAt: int)

  const Unborn := Claimer(false, false, false, 0)

  predicate IsOwned(c: Claimer) { c.started && c.owned }

  // start() up to its first request; a claimer that was stopped is not started again.
  function Begun(c: Claimer): (Claimer, Option<Command>) {
    if c.started || c.stopped then (c, None) else (c.(started := true), Some(SetNx))
  }

  // One tick of the maintain timer.
  function Maintained(c: Claimer): (Claimer, Option<Command>) {
    if !c.started then (c, None) else (c, Some(if c.owned then Beat else SetNx))
  }

  function Ended(c: Claimer): (Claimer, Option<Command>) {
    (c.(started := false, stopped := true, owned := false), Some(Release))
  }

  function ClaimWon(c: Claimer, now: int): (Claimer, Option<Command>) {
    if !c.started then (c, Some(Release)) else (c.(owned := true, lastOwnedAt := now), None)
  }

  function Dup(c: Claimer): (Claimer, Option<Command>) { (c.(owned := false), None) }

  // A reply arrives at the claimer with this token.
  function Answered(c: Claimer, token: nat, command: Command, reply: Reply, now: int): (Claimer, Option<Command>) {
    match command
    case SetNx => if reply == Yes then ClaimWon(c, now) else (c, Some(Get))
    case Get => if reply == Holder(Some(token)) then (c, Some(Expire)) else Dup(c)
    case Expire => ClaimWon(c, now)
    case Beat => if reply == Yes then (c.(lastOwnedAt := now), None) else Dup(c)
    case Release => (c, None)
  }

  // A request fails or times out at the claimer.
  function Failed(ttl: int, c: Claimer, command: Command, now: int): Claimer {
    match command
    case Beat => if now - c.lastOwnedAt >= ttl then c.(owned := false) else c
    case Release => c
    case _ => c.(owned := false)
  }

  // ---- The store ----

  // A record of the key; token None is a record that bears no claimer's token.
  datatype Record = Record(token: Option<nat>, deadline: int)

  // armed holds, for each token, when the store last set the expiry of a record bearing it.
  datatype Store = Store(now: int, key: Option<Record>, armed: map<nat, int>)

  predicate Live(st: Store) { st.key.Some? && st.now < st.key.value.deadline }

  predicate Bears(st: Store, token: nat) { Live(st) && st.key.value.token == Some(token) }

  function Armed(ttl: int, st: Store, token: Option<nat>): Store {
    st.(key := Some(Record(token, st.now + ttl)),
        armed := if token.Some? then st.armed[token.value := st.now] else st.armed)
  }

  // The store executes a command of the claimer with this token.
  function Executed(ttl: int, st: Store, token: nat, command: Command): (Store, Reply) {
    match command
    case SetNx => if Live(st) then (st, No) else (Armed(ttl, st, Some(token)), Yes)
    case Get => (st, Holder(if Live(st) then st.key.value.token else None))
    case Expire => if Live(st) then (Armed(ttl, st, st.key.value.token), Yes) else (st, No)
    case Beat => if Bears(st, token) then (Armed(ttl, st, Some(token)), Yes) else (st, No)
    case Release => if Bears(st, token) then (st.(key := None), Yes) else (st, No)
  }

  // ---- Claimers and store together ----

  // A request some claimer is awaiting, and the reply once the store has executed it.
  datatype Request = Request(token: nat, command: Command, reply: Option<Reply>)

  // late holds the requests that were given up on before the store executed them, lost the tokens of
  // the claimers that have given up on one, or have not seen its reply.
  datatype System = System(store: Store, claimers: map<nat, Claimer>, requests: map<nat, Request>,
                           late: map<nat, (nat, Command)>, lost: set<nat>)

  function At(s: System, token: nat): Claimer {
    if token in s.claimers then s.claimers[token] else Unborn
  }

  // A claimer moves on, and perhaps sends a request under a number not in use.
  function Moved(s: System, token: nat, id: nat, to: (Claimer, Option<Command>)): System {
    s.(claimers := s.claimers[token := to.0],
       requests := if to.1.Some? then s.requests[id := Request(token, to.1.value, None)] else s.requests - {id})
  }

  datatype Event =
    | Tick(now: int)
    | Start(token: nat, id: nat) | Maintain(token: nat, id: nat) | Stop(token: nat, id: nat)
    | Execute(id: nat) | ExecuteLate(id: nat) | Deliver(id: nat) | Lose(id: nat)

  predicate Unused(s: System, id: nat) { id !in s.requests && id !in s.late }

  function Next(ttl: int, s: System, e: Event): System {
    match e
    case Tick(now) => if now >= s.store.now then s.(store := s.store.(now := now)) else s
    case Start(token, id) => if Unused(s, id) then Moved(s, token, id, Begun(At(s, token))) else s
    case Maintain(token, id) => if Unused(s, id) then Moved(s, token, id, Maintained(At(s, token))) else s
    case Stop(token, id) => if Unused(s, id) then Moved(s, token, id, Ended(At(s, token))) else s
    case Execute(id) =>
      if id in s.requests && s.requests[id].reply.None? then
        var r := s.requests[id];
        var (st, reply) := Executed(ttl, s.store, r.token, r.command);
        s.(store := st, requests := s.requests[id := r.(reply := Some(reply))])
      else s
    case ExecuteLate(id) =>
      if id in s.late then
        s.(store := Executed(ttl, s.store, s.late[id].0, s.late[id].1).0, late := s.late - {id})
      else s
    case Deliver(id) =>
      if id in s.requests && s.requests[id].reply.Some? then
        var r := s.requests[id];
        Moved(s, r.token, id, Answered(At(s, r.token), r.token, r.command, r.reply.value, s.store.now))
      else s
    case Lose(id) =>
      if id in s.requests then
        var r := s.requests[id];
        Moved(s, r.token, id, (Failed(ttl, At(s, r.token), r.command, s.store.now), None)).(
          late := if r.reply.None? then s.late[id := (r.token, r.command)] else s.late, lost := s.lost + {r.token})
      else s
  }

  // The key may hold a foreign record to begin with.
  function Begin(now: int, foreign: Option<int>): System {
    System(Store(now, if foreign.Some? then Some(Record(None, foreign.value)) else None, map[]), map[], map[], map[], {})
  }

  function Run(ttl: int, now: int, foreign: Option<int>, es: seq<Event>): System {
    if es == [] then Begin(now, foreign)
    else Next(ttl, Run(ttl, now, foreign, es[..|es| - 1]), es[|es| - 1])
  }

  // ---- What every event keeps ----

  // While its token is not released, a claimer that was armed holds the key until a TTL has passed.
  ghost predicate HeldFor(ttl: int, st: Store, token: nat) {
    token in st.armed ==>
      || (st.key.Some? && st.key.value == Record(Some(token), st.armed[token] + ttl))
      || st.now >= st.armed[token] + ttl
  }

  // What a reply the claimer has yet to see says about the store's past.
  ghost predicate ReplyTrue(st: Store, r: Request) {
    && (r.command == SetNx && r.reply == Some(Yes) ==> r.token in st.armed)
    && (r.command == Get && r.reply == Some(Holder(Some(r.token))) ==> r.token in st.armed)
    && (r.command == Expire ==> r.token in st.armed)
  }

  ghost predicate StoreValid(ttl: int, st: Store) {
    && (forall t <- st.armed :: st.armed[t] <= st.now)
    && (st.key.Some? && st.key.value.token.Some? ==>
          st.key.value.token.value in st.armed && st.key.value.deadline == st.armed[st.key.value.token.value] + ttl)
  }

  ghost predicate ClaimerValid(ttl: int, st: Store, c: Claimer, token: nat) {
    && (!c.stopped ==> HeldFor(ttl, st, token))
    && (c.started ==> !c.stopped)
    && (c.owned ==> c.started && token in st.armed)
  }

  ghost predicate RequestValid(s: System, id: nat)
    requires id in s.requests
  {
    var r := s.requests[id];
    && ReplyTrue(s.store, r) && (r.command == Release ==> At(s, r.token).stopped)
    && (At(s, r.token).started || At(s, r.token).stopped)
  }

  ghost predicate LateValid(s: System, id: nat)
    requires id in s.late
  {
    && (s.late[id].1 == Release ==> At(s, s.late[id].0).stopped)
    && (s.late[id].1 == Expire ==> s.late[id].0 in s.store.armed)
  }

  ghost predicate Inv(ttl: int, s: System) {
    && StoreValid(ttl, s.store)
    && (forall t: nat :: ClaimerValid(ttl, s.store, At(s, t), t))
    && (forall id <- s.requests :: RequestValid(s, id))
    && (forall id <- s.late :: LateValid(s, id))
  }

  // ---- The store keeps its side ----

  // No command touches a live record that bears someone else's token, save that EXPIRE may extend it.
  lemma OthersRecordIsSpared(ttl: int, st: Store, token: nat, command: Command)
    requires 0 < ttl && StoreValid(ttl, st) && Live(st) && st.key.value.token != Some(token)
    ensures var after := Executed(ttl, st, token, command).0;
            && Live(after) && after.key.value.token == st.key.value.token
            && (st.key.value.token.Some? ==> after.key.value.deadline >= st.key.value.deadline)
            && (command != Expire ==> after == st)
  {
  }

  lemma ExecutedKeeps(ttl: int, st: Store, token: nat, command: Command, t: nat)
    requires 0 < ttl && StoreValid(ttl, st)
    ensures var (after, reply) := Executed(ttl, st, token, command);
            && StoreValid(ttl, after) && after.now == st.now
            && st.armed.Keys <= after.armed.Keys
            && (HeldFor(ttl, st, t) && !(command == Release && token == t) ==> HeldFor(ttl, after, t))
            && ((command == Expire ==> token in st.armed) ==> ReplyTrue(after, Request(token, command, Some(reply))))
  {
  }

  lemma ReplyStaysTrue(st: Store, after: Store, r: Request)
    requires ReplyTrue(st, r) && st.armed.Keys <= after.armed.Keys
    ensures ReplyTrue(after, r)
  {
  }

  lemma MovedKeepsInv(ttl: int, s: System, token: nat, id: nat, to: (Claimer, Option<Command>))
    requires Inv(ttl, s)
    requires ClaimerValid(ttl, s.store, to.0, token) && (At(s, token).stopped ==> to.0.stopped)
    requires to.1 == Some(Expire) ==> token in s.store.armed
    requires to.1 == Some(Release) ==> to.0.stopped
    requires At(s, token).started || At(s, token).stopped || to.1.Some? ==> to.0.started || to.0.stopped
    ensures Inv(ttl, Moved(s, token, id, to))
  {
    hide HeldFor, StoreValid;
    var t := Moved(s, token, id, to);
    forall c: nat ensures ClaimerValid(ttl, t.store, At(t, c), c) { assert ClaimerValid(ttl, s.store, At(s, c), c); }
    forall i <- t.requests ensures RequestValid(t, i) { if i in s.requests { assert RequestValid(s, i); } }
    forall i <- t.late ensures LateValid(t, i) { assert LateValid(s, i); }
  }

  // The store executes a command, and the request is marked as executed or forgotten.
  lemma StoreKeepsInv(ttl: int, s: System, token: nat, command: Command, t: System)
    requires 0 < ttl && Inv(ttl, s)
    requires command == Release ==> At(s, token).stopped
    requires command == Expire ==> token in s.store.armed
    requires t.store == Executed(ttl, s.store, token, command).0 && t.claimers == s.claimers
    requires forall i <- t.late :: i in s.late && t.late[i] == s.late[i]
    requires forall i <- t.requests ::
               && i in s.requests
               && (t.requests[i] == s.requests[i] ||
                   (s.requests[i].token == token &&
                    t.requests[i] == Request(token, command, Some(Executed(ttl, s.store, token, command).1))))
    ensures Inv(ttl, t)
  {
    hide HeldFor, StoreValid, Executed, ReplyTrue;
    ExecutedKeeps(ttl, s.store, token, command, token);
    forall c: nat ensures ClaimerValid(ttl, t.store, At(t, c), c) {
      ExecutedKeeps(ttl, s.store, token, command, c);
      assert ClaimerValid(ttl, s.store, At(s, c), c);
    }
    forall i <- t.requests ensures RequestValid(t, i) {
      assert RequestValid(s, i);
      if t.requests[i] == s.requests[i] {
        ReplyStaysTrue(s.store, t.store, s.requests[i]);
      }
    }
    forall i <- t.late ensures LateValid(t, i) { assert LateValid(s, i); }
  }

  lemma TickKeepsInv(ttl: int, s: System, now: int)
    requires Inv(ttl, s) && s.store.now <= now
    ensures Inv(ttl, s.(store := s.store.(now := now)))
  {
    var t := s.(store := s.store.(now := now));
    forall c: nat ensures ClaimerValid(ttl, t.store, At(t, c), c) { assert ClaimerValid(ttl, s.store, At(s, c), c); }
    forall i <- t.requests ensures RequestValid(t, i) { assert RequestValid(s, i); }
    forall i <- t.late ensures LateValid(t, i) { assert LateValid(s, i); }
  }

  lemma NextKeepsInv(ttl: int, s: System, e: Event)
    requires 0 < ttl && Inv(ttl, s)
    ensures Inv(ttl, Next(ttl, s, e))
  {
    hide StoreValid, HeldFor, Executed, Moved;
    match e
    case Tick(now) => if now >= s.store.now { TickKeepsInv(ttl, s, now); }
    case Start(token, id) =>
      assert ClaimerValid(ttl, s.store, At(s, token), token);
      MovedKeepsInv(ttl, s, token, id, Begun(At(s, token)));
    case Maintain(token, id) =>
      assert ClaimerValid(ttl, s.store, At(s, token), token);
      MovedKeepsInv(ttl, s, token, id, Maintained(At(s, token)));
    case Stop(token, id) =>
      MovedKeepsInv(ttl, s, token, id, Ended(At(s, token)));
    case Execute(id) =>
      if id in s.requests && s.requests[id].reply.None? {
        assert RequestValid(s, id);
        StoreKeepsInv(ttl, s, s.requests[id].token, s.requests[id].command, Next(ttl, s, e));
      }
    case ExecuteLate(id) =>
      if id in s.late {
        assert LateValid(s, id);
        StoreKeepsInv(ttl, s, s.late[id].0, s.late[id].1, Next(ttl, s, e));
      }
    case Deliver(id) =>
      if id in s.requests && s.requests[id].reply.Some? {
        DeliverKeepsInv(ttl, s, id);
      }
    case Lose(id) =>
      if id in s.requests { LoseKeepsInv(ttl, s, id); }
  }

  lemma DeliverKeepsInv(ttl: int, s: System, id: nat)
    requires Inv(ttl, s) && id in s.requests && s.requests[id].reply.Some?
    ensures var r := s.requests[id];
            Inv(ttl, Moved(s, r.token, id, Answered(At(s, r.token), r.token, r.command, r.reply.value, s.store.now)))
  {
    hide StoreValid, HeldFor, Moved;
    var r := s.requests[id];
    assert RequestValid(s, id);
    assert ClaimerValid(ttl, s.store, At(s, r.token), r.token);
    MovedKeepsInv(ttl, s, r.token, id, Answered(At(s, r.token), r.token, r.command, r.reply.value, s.store.now));
  }

  lemma LoseKeepsInv(ttl: int, s: System, id: nat)
    requires Inv(ttl, s) && id in s.requests
    ensures Inv(ttl, Next(ttl, s, Lose(id)))
  {
    hide StoreValid, HeldFor;
    var r, t := s.requests[id], Next(ttl, s, Lose(id));
    assert RequestValid(s, id);
    forall c: nat ensures ClaimerValid(ttl, t.store, At(t, c), c) { assert ClaimerValid(ttl, s.store, At(s, c), c); }
    forall i <- t.requests ensures RequestValid(t, i) { assert RequestValid(s, i); }
    forall i <- t.late ensures LateValid(t, i) { if i in s.late { assert LateValid(s, i); } }
  }

  lemma {:induction false} RunKeepsInv(ttl: int, now: int, foreign: Option<int>, es: seq<Event>)
    requires 0 < ttl
    ensures Inv(ttl, Run(ttl, now, foreign, es))
  {
    if es != [] {
      RunKeepsInv(ttl, now, foreign, es[..|es| - 1]);
      NextKeepsInv(ttl, Run(ttl, now, foreign, es[..|es| - 1]), es[|es| - 1]);
    }
  }

  // ---- What holds in every run ----

  // A live record that bears a claimer's token stays live under that token until its time runs out or
  // its own claimer's release is executed.
  lemma LiveRecordsAreSafe(ttl: int, s: System, e: Event, t: nat)
    requires 0 < ttl && Inv(ttl, s) && Bears(s.store, t)
    ensures var after := Next(ttl, s, e).store;
            || (Bears(after, t) && after.key.value.deadline >= s.store.key.value.deadline)
            || (e.Tick? && after.now >= s.store.key.value.deadline)
            || (e.Execute? && s.requests[e.id].token == t && s.requests[e.id].command == Release && At(s, t).stopped)
            || (e.ExecuteLate? && s.late[e.id] == (t, Release) && At(s, t).stopped)
  {
    hide Moved;
    match e
    case Execute(id) =>
      if id in s.requests {
        assert RequestValid(s, id);
        if s.requests[id].token != t { OthersRecordIsSpared(ttl, s.store, s.requests[id].token, s.requests[id].command); }
      }
    case ExecuteLate(id) =>
      if id in s.late {
        assert LateValid(s, id);
        if s.late[id].0 != t { OthersRecordIsSpared(ttl, s.store, s.late[id].0, s.late[id].1); }
      }
    case Start(_, _) => MovedLeavesStore(s, e.token, e.id, Begun(At(s, e.token)));
    case Maintain(_, _) => MovedLeavesStore(s, e.token, e.id, Maintained(At(s, e.token)));
    case Stop(_, _) => MovedLeavesStore(s, e.token, e.id, Ended(At(s, e.token)));
    case Deliver(id) => DeliverLeavesStore(ttl, s, id);
    case Lose(id) => DeliverLeavesStore(ttl, s, id);
    case _ =>
  }

  lemma MovedLeavesStore(s: System, token: nat, id: nat, to: (Claimer, Option<Command>))
    ensures Moved(s, token, id, to).store == s.store
  {
  }

  lemma DeliverLeavesStore(ttl: int, s: System, id: nat)
    ensures Next(ttl, s, Deliver(id)).store == s.store && Next(ttl, s, Lose(id)).store == s.store
  {
  }

  // Two claimers report ownership at once only when the store armed the record of one of them for the
  // last time a full TTL ago or more.
  lemma TwoOwnersMeansOneLapsed(ttl: int, now: int, foreign: Option<int>, es: seq<Event>, a: nat, b: nat)
    requires 0 < ttl && a != b
    requires IsOwned(At(Run(ttl, now, foreign, es), a)) && IsOwned(At(Run(ttl, now, foreign, es), b))
    ensures var st := Run(ttl, now, foreign, es).store;
            && a in st.armed && b in st.armed
            && (st.now >= st.armed[a] + ttl || st.now >= st.armed[b] + ttl)
  {
    RunKeepsInv(ttl, now, foreign, es);
    var s := Run(ttl, now, foreign, es);
    assert ClaimerValid(ttl, s.store, At(s, a), a) && ClaimerValid(ttl, s.store, At(s, b), b);
  }

  // When the key's record has run out, a claimer that starts, or ticks without owning the key, takes
  // it, if its request is executed before another's and answered.
  function ClaimedIn(ttl: int, s: System, first: Event, id: nat): System {
    Next(ttl, Next(ttl, Next(ttl, s, first), Execute(id)), Deliver(id))
  }

  lemma StaleKeyIsReclaimed(ttl: int, s: System, token: nat, id: nat, first: Event)
    requires !Live(s.store) && Unused(s, id) && !At(s, token).stopped && !At(s, token).owned
    requires first == if At(s, token).started then Maintain(token, id) else Start(token, id)
    ensures var t := ClaimedIn(ttl, s, first, id);
            && IsOwned(At(t, token)) && t.store.key == Some(Record(Some(token), s.store.now + ttl))
            && t.requests == s.requests && t.late == s.late
            && forall other: nat | other != token :: At(t, other) == At(s, other)
  {
  }

  // The condition is needed: a claimer that has not heartbeaten still reports ownership when its
  // record has run out and another has claimed.
  lemma TwoOwnersCanBe(ttl: int)
    requires 0 < ttl
    ensures exists es :: IsOwned(At(Run(ttl, 0, None, es), 0)) && IsOwned(At(Run(ttl, 0, None, es), 1))
  {
    var s0 := Begin(0, None);
    var s3 := ClaimedIn(ttl, s0, Start(0, 0), 0);
    StaleKeyIsReclaimed(ttl, s0, 0, 0, Start(0, 0));
    var s4 := Next(ttl, s3, Tick(ttl));
    assert At(s4, 1) == At(s0, 1) && At(s4, 0) == At(s3, 0) && !Live(s4.store) && Unused(s4, 1);
    StaleKeyIsReclaimed(ttl, s4, 1, 1, Start(1, 1));
    hide Next, ClaimedIn;
    RunClaim(ttl, [], Start(0, 0), 0);
    RunSnoc(ttl, [] + [Start(0, 0), Execute(0), Deliver(0)], Tick(ttl));
    RunClaim(ttl, ([] + [Start(0, 0), Execute(0), Deliver(0)]) + [Tick(ttl)], Start(1, 1), 1);
  }

  lemma RunSnoc(ttl: int, es: seq<Event>, e: Event)
    ensures Run(ttl, 0, None, es + [e]) == Next(ttl, Run(ttl, 0, None, es), e)
  {
    assert (es + [e])[..|es|] == es;
  }

  lemma RunClaim(ttl: int, es: seq<Event>, first: Event, id: nat)
    ensures Run(ttl, 0, None, es + [first, Execute(id), Deliver(id)]) == ClaimedIn(ttl, Run(ttl, 0, None, es), first, id)
  {
    hide Next;
    RunSnoc(ttl, es, first);
    RunSnoc(ttl, es + [first], Execute(id));
    RunSnoc(ttl, es + [first] + [Execute(id)], Deliver(id));
    assert es + [first] + [Execute(id)] + [Deliver(id)] == es + [first, Execute(id), Deliver(id)];
  }

  // ---- Stopping ----

  ghost predicate WillRelease(s: System, id: nat, t: nat) {
    && id in s.requests && s.requests[id].token == t
    && ((s.requests[id].command == Release && s.requests[id].reply.None?)
     || (s.requests[id].command == SetNx && s.requests[id].reply == Some(Yes)))
  }

  // The key bears a stopped claimer's token only while one of its calls is bound to release it.
  ghost predicate Covered(s: System, t: nat) {
    At(s, t).stopped && Bears(s.store, t) ==> exists id :: WillRelease(s, id, t)
  }

  ghost predicate NoneLate(s: System, t: nat) { forall id <- s.late :: s.late[id].0 != t }

  // ... unless one of that claimer's own requests was lost; what the others lose does not matter.
  ghost predicate ReleaseOwed(s: System) {
    forall t: nat | t !in s.lost :: NoneLate(s, t) && Covered(s, t)
  }

  lemma NextKeepsReleaseOwed(ttl: int, s: System, e: Event)
    requires 0 < ttl && Inv(ttl, s) && ReleaseOwed(s)
    ensures ReleaseOwed(Next(ttl, s, e))
  {
    var u := Next(ttl, s, e);
    forall t: nat | t !in u.lost ensures NoneLate(u, t) && Covered(u, t) {
      LostOnlyGrows(ttl, s, e, t);
      assert Covered(s, t);
      if At(u, t).stopped && Bears(u.store, t) { CoverLasts(ttl, s, e, t); }
    }
  }

  lemma LostOnlyGrows(ttl: int, s: System, e: Event, t: nat)
    requires t !in Next(ttl, s, e).lost
    ensures t !in s.lost && (e.Lose? && e.id in s.requests ==> s.requests[e.id].token != t)
    ensures NoneLate(s, t) ==> NoneLate(Next(ttl, s, e), t)
  {
    hide Executed;
  }

  lemma CoverLasts(ttl: int, s: System, e: Event, t: nat)
    requires 0 < ttl && Inv(ttl, s) && Covered(s, t) && NoneLate(s, t) && t !in Next(ttl, s, e).lost
    requires At(Next(ttl, s, e), t).stopped && Bears(Next(ttl, s, e).store, t)
    ensures exists id :: WillRelease(Next(ttl, s, e), id, t)
  {
    hide StoreValid, HeldFor;
    var u := Next(ttl, s, e);
    if At(s, t).stopped && Bears(s.store, t) {
      var id :| WillRelease(s, id, t);
      assert ClaimerValid(ttl, s.store, At(s, t), t);
      assert WillRelease(u, id, t);
    } else if e.Stop? {
      assert WillRelease(u, e.id, t);
    } else {
      assert WillRelease(u, e.id, t);
    }
  }

  lemma {:induction false} RunKeepsReleaseOwed(ttl: int, now: int, foreign: Option<int>, es: seq<Event>)
    requires 0 < ttl
    ensures ReleaseOwed(Run(ttl, now, foreign, es))
  {
    if es != [] {
      RunKeepsReleaseOwed(ttl, now, foreign, es[..|es| - 1]);
      RunKeepsInv(ttl, now, foreign, es[..|es| - 1]);
      NextKeepsReleaseOwed(ttl, Run(ttl, now, foreign, es[..|es| - 1]), es[|es| - 1]);
    }
  }

  // The event loses a request of the claimer with this token.
  predicate LosesOf(s: System, e: Event, t: nat) {
    e.Lose? && e.id in s.requests && s.requests[e.id].token == t
  }

  lemma OnlyLosesLose(ttl: int, s: System, e: Event, t: nat)
    requires t !in s.lost && !LosesOf(s, e, t)
    ensures t !in Next(ttl, s, e).lost
  {
    hide Executed, Answered, Failed;
  }

  lemma {:induction false} NothingLost(ttl: int, now: int, foreign: Option<int>, es: seq<Event>, t: nat)
    requires forall i | 0 <= i < |es| :: !LosesOf(Run(ttl, now, foreign, es[..i]), es[i], t)
    ensures t !in Run(ttl, now, foreign, es).lost
  {
    if es != [] {
      var before := es[..|es| - 1];
      hide Next, LosesOf;
      assert forall i | 0 <= i < |before| :: before[i] == es[i] && before[..i] == es[..i];
      NothingLost(ttl, now, foreign, before, t);
      OnlyLosesLose(ttl, Run(ttl, now, foreign, before), es[|es| - 1], t);
    }
  }

  // After stop(), once the claimer's outstanding calls have finished and none of them was lost, the
  // key does not bear its token.
  lemma StoppedLeavesNoGhost(ttl: int, now: int, foreign: Option<int>, es: seq<Event>, t: nat)
    requires 0 < ttl && forall i | 0 <= i < |es| :: !LosesOf(Run(ttl, now, foreign, es[..i]), es[i], t)
    requires At(Run(ttl, now, foreign, es), t).stopped
    requires forall id <- Run(ttl, now, foreign, es).requests :: Run(ttl, now, foreign, es).requests[id].token != t
    ensures !Bears(Run(ttl, now, foreign, es).store, t)
  {
    var s := Run(ttl, now, foreign, es);
    RunKeepsReleaseOwed(ttl, now, foreign, es);
    NothingLost(ttl, now, foreign, es, t);
    assert Covered(s, t);
  }

  // ---- Losing and regaining ownership ----

  // A heartbeat that fails a TTL or more after the last confirmation ends the claimer's ownership;
  // an earlier failure leaves it as it was.
  lemma FailedHeartbeatFailsClosed(ttl: int, s: System, id: nat)
    requires id in s.requests && s.requests[id].command == Beat
    ensures var c := At(s, s.requests[id].token);
            var after := At(Next(ttl, s, Lose(id)), s.requests[id].token);
            && (IsOwned(after) ==> s.store.now < c.lastOwnedAt + ttl)
            && (s.store.now < c.lastOwnedAt + ttl ==> after == c)
  {
  }

  // The instance: each method runs from one await to the next and returns the request it then awaits.
  class PresenceClaimer {
    const instanceToken: nat
    const ttl: int

    var started: bool
    ghost var stopped: bool
    var owned: bool
    var lastOwnedAt: int

    ghost function Now(): Claimer
      reads this
    {
      Claimer(started, stopped, owned, lastOwnedAt)
    }

    constructor (instanceToken: nat, ttl: int)
      ensures Now() == Unborn && this.instanceToken == instanceToken && this.ttl == ttl
    {
      this.instanceToken, this.ttl := instanceToken, ttl;
      started, stopped, owned, lastOwnedAt := false, false, false, 0;
    }

    method Start() returns (send: Option<Command>)
      requires !stopped
      modifies this
      ensures (Now(), send) == Begun(old(Now()))
    {
      if started { return None; }
      started := true;
      return Some(SetNx);
    }

    method Maintain() returns (send: Option<Command>)
      ensures (Now(), send) == Maintained(Now())
    {
      if !started { return None; }
      if owned { return Some(Beat); }
      return Some(SetNx);
    }

    method Stop() returns (send: Option<Command>)
      modifies this
      ensures (Now(), send) == Ended(old(Now()))
    {
      started := false;
      owned := false;
      stopped := true;
      return Some(Release);
    }

    method WinClaim(now: int) returns (send: Option<Command>)
      modifies this
      ensures (Now(), send) == ClaimWon(old(Now()), now)
    {
      if !started { return Some(Release); }
      owned := true;
      lastOwnedAt := now;
      return None;
    }

    // tryClaim and heartbeat go on from an await whose reply arrived.
    method Continue(command: Command, reply: Reply, now: int) returns (send: Option<Command>)
      modifies this
      ensures (Now(), send) == Answered(old(Now()), instanceToken, command, reply, now)
    {
      send := None;
      match command
      case SetNx =>
        if reply == Yes { send := WinClaim(now); } else { send := Some(Get); }
      case Get =>
        if reply == Holder(Some(instanceToken)) { send := Some(Expire); } else { owned := false; }
      case Expire => send := WinClaim(now);
      case Beat =>
        if reply == Yes { lastOwnedAt := now; } else { owned := false; }
      case Release =>
    }

    // ... and from one that threw or timed out.
    method Catch(command: Command, now: int)
      modifies this
      ensures Now() == Failed(ttl, old(Now()), command, now)
    {
      match command
      case Beat => if now - lastOwnedAt >= ttl { owned := false; }
      case Release =>
      case _ => owned := false;
    }
  }
}
