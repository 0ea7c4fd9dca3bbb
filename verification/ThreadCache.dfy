// The thread_key cache of codex_gateway.ts: bounded, expiring, and reused only under the exact
// context it was filled under.
module ThreadCache {
  import opened Wrappers

  datatype Context = Context(sandbox: string, cwd: string)
  datatype Thread = Thread(threadId: string, ctx: Context, lastUsedMs: real)

  // A Map in insertion order.
  type Entries = seq<(string, Thread)>

  const DEFAULT_MAX := 256
  const DEFAULT_TTL := 7200000.0

  // What the constructor makes of its options; a fraction below 1 leaves no room at all.
  function MaxEntries(option: Option<real>): nat {
    if option.Some? && option.value > 0.0 then option.value.Floor else DEFAULT_MAX
  }

  function TtlMs(option: Option<real>): real {
    if option.Some? && option.value > 0.0 then option.value else DEFAULT_TTL
  }

  // ---- Operations on the map ----

  predicate Expired(ttl: real, t: Thread, now: real) { now - t.lastUsedMs > ttl }

  function Unexpired(ttl: real, es: Entries, now: real): Entries {
    if es == [] then []
    else if Expired(ttl, es[0].1, now) then Unexpired(ttl, es[1..], now)
    else [es[0]] + Unexpired(ttl, es[1..], now)
  }

  function Trimmed(max: nat, es: Entries): Entries {
    if |es| > max then es[|es| - max..] else es
  }

  function Cleaned(max: nat, ttl: real, es: Entries, now: real): Entries {
    Trimmed(max, Unexpired(ttl, es, now))
  }

  function Find(es: Entries, key: string): (r: Option<Thread>)
    ensures r.Some? ==> (key, r.value) in es
    ensures r.None? ==> forall e | e in es :: e.0 != key
  {
    if es == [] then None else if es[0].0 == key then Some(es[0].1) else Find(es[1..], key)
  }

  function Without(es: Entries, key: string): Entries {
    if es == [] then [] else if es[0].0 == key then Without(es[1..], key) else [es[0]] + Without(es[1..], key)
  }

  function Put(es: Entries, key: string, t: Thread): Entries { Without(es, key) + [(key, t)] }

  function Got(max: nat, ttl: real, es: Entries, key: string, ctx: Context, t1: real, t2: real): (Entries, Option<string>) {
    if key == "" then (es, None)
    else
      var live := Cleaned(max, ttl, es, t1);
      match Find(live, key)
      case None => (live, None)
      case Some(t) =>
        if t.ctx != ctx then (Without(live, key), None)
        else (Put(live, key, t.(lastUsedMs := t2)), Some(t.threadId))
  }

  function SetIn(max: nat, ttl: real, es: Entries, key: string, id: string, ctx: Context, t1: real, t2: real, t3: real): Entries {
    if key == "" then es
    else Cleaned(max, ttl, Put(Cleaned(max, ttl, es, t1), key, Thread(id, ctx, t2)), t3)
  }

  // ---- The simple specification ----

  // What a key was last set to, unless it has been deleted or asked for under another context since,
  // and the other keys set or hit since this one was.
  datatype Use = Use(last: Option<Thread>, since: set<string>)
  type History = map<string, Use>

  function Touched(h: History, key: string, t: Thread): History {
    map k | k in h.Keys + {key} :: if k == key then Use(Some(t), {}) else h[k].(since := h[k].since + {key})
  }

  function Forgotten(h: History, key: string): History {
    if key in h then h[key := h[key].(last := None)] else h
  }

  datatype Event =
    | Get(key: string, ctx: Context, t1: real, t2: real)
    | Set(key: string, id: string, ctx: Context, t1: real, t2: real, t3: real)
    | Delete(key: string)
    | Size(t1: real)

  // entries is the cache, history what has been done to it, clock the last reading.
  datatype State = State(entries: Entries, history: History, clock: real)

  predicate Timely(s: State, e: Event) {
    match e
    case Get(_, _, t1, t2) => s.clock <= t1 <= t2
    case Set(_, _, _, t1, t2, t3) => s.clock <= t1 <= t2 <= t3
    case Delete(_) => true
    case Size(t1) => s.clock <= t1
  }

  predicate MustHit(max: nat, ttl: real, h: History, key: string, ctx: Context, now: real) {
    MayHit(ttl, h, key, ctx, now) && |h[key].since| < max
  }

  predicate MayHit(ttl: real, h: History, key: string, ctx: Context, now: real) {
    && key != "" && key in h && h[key].last.Some? && h[key].last.value.ctx == ctx
    && now - h[key].last.value.lastUsedMs <= ttl
  }

  function HistoryAfterGet(h: History, key: string, ctx: Context, hit: bool, t2: real): History {
    if key !in h || h[key].last.None? || key == "" then h
    else if h[key].last.value.ctx != ctx then Forgotten(h, key)
    else if hit then Touched(h, key, h[key].last.value.(lastUsedMs := t2))
    else h
  }

  function Next(max: nat, ttl: real, s: State, e: Event): State {
    if !Timely(s, e) then s
    else match e
    case Get(key, ctx, t1, t2) =>
      var (es, id) := Got(max, ttl, s.entries, key, ctx, t1, t2);
      State(es, HistoryAfterGet(s.history, key, ctx, id.Some?, t2), t2)
    case Set(key, id, ctx, t1, t2, t3) =>
      State(SetIn(max, ttl, s.entries, key, id, ctx, t1, t2, t3),
            if key == "" then s.history else Touched(s.history, key, Thread(id, ctx, t2)), t3)
    case Delete(key) =>
      if key == "" then s else s.(entries := Without(s.entries, key), history := Forgotten(s.history, key))
    case Size(t1) => s.(entries := Cleaned(max, ttl, s.entries, t1), clock := t1)
  }

  function Run(max: nat, ttl: real, start: real, events: seq<Event>): State {
    if events == [] then State([], map[], start)
    else Next(max, ttl, Run(max, ttl, start, events[..|events| - 1]), events[|events| - 1])
  }

  // ---- What every operation keeps ----

  predicate Holds(es: Entries, key: string) { exists i | 0 <= i < |es| :: es[i].0 == key }

  ghost predicate Agrees(es: Entries, h: History) {
    forall i | 0 <= i < |es| :: es[i].0 in h && h[es[i].0].last == Some(es[i].1)
  }

  ghost predicate UsedBefore(a: (string, Thread), b: (string, Thread), h: History) {
    a.0 != b.0 && a.1.lastUsedMs <= b.1.lastUsedMs && a.0 in h && b.0 in h[a.0].since
  }

  // The map order is the order of last use.
  ghost predicate InRecencyOrder(es: Entries, h: History) {
    forall i, j | 0 <= i < j < |es| :: UsedBefore(es[i], es[j], h)
  }

  // What the cache has dropped had expired, or had max other keys touched after it.
  ghost predicate Excused(max: nat, ttl: real, s: State, key: string)
    requires key in s.history
  {
    s.history[key].last.Some? && !Holds(s.entries, key) ==>
      s.clock - s.history[key].last.value.lastUsedMs > ttl || |s.history[key].since| >= max
  }

  ghost predicate Kept(max: nat, ttl: real, s: State) {
    && Agrees(s.entries, s.history) && InRecencyOrder(s.entries, s.history)
    && (forall i | 0 <= i < |s.entries| :: s.entries[i].1.lastUsedMs <= s.clock)
    && (forall k <- s.history :: Excused(max, ttl, s, k))
  }

  ghost predicate Inv(max: nat, ttl: real, s: State) { Kept(max, ttl, s) && |s.entries| <= max }

  // A cache whose entries are some of another's, in their order.
  ghost predicate Within(part: Entries, es: Entries) {
    && |part| <= |es|
    && (forall i | 0 <= i < |part| :: part[i] in es)
    && (forall h: History | InRecencyOrder(es, h) :: InRecencyOrder(part, h))
  }

  lemma {:induction false} UnexpiredIsWithin(ttl: real, es: Entries, now: real)
    ensures Within(Unexpired(ttl, es, now), es)
    ensures forall e | e in es :: e in Unexpired(ttl, es, now) <==> !Expired(ttl, e.1, now)
  {
    if es != [] {
      UnexpiredIsWithin(ttl, es[1..], now);
      HeadJoins(es, Unexpired(ttl, es[1..], now));
    }
  }

  lemma {:induction false} WithoutIsWithin(es: Entries, key: string)
    ensures Within(Without(es, key), es)
    ensures forall e | e in es :: e in Without(es, key) <==> e.0 != key
    ensures Holds(es, key) ==> |Without(es, key)| < |es|
  {
    if es != [] {
      WithoutIsWithin(es[1..], key);
      HeadJoins(es, Without(es[1..], key));
      if es[0].0 != key && Holds(es, key) {
        var i :| 0 <= i < |es| && es[i].0 == key;
        assert es[1..][i - 1].0 == key;
      }
    }
  }

  lemma HeadJoins(es: Entries, part: Entries)
    requires es != [] && Within(part, es[1..])
    ensures Within(part, es) && Within([es[0]] + part, es)
    ensures forall e :: e in es <==> e == es[0] || e in es[1..]
  {
    assert es == [es[0]] + es[1..];
    TailIsWithin(es, 1);
    forall h: History | InRecencyOrder(es, h) ensures InRecencyOrder([es[0]] + part, h) {
      forall j | 0 <= j < |part| ensures UsedBefore(es[0], part[j], h) {
        var i :| 0 <= i < |es| - 1 && es[1..][i] == part[j];
        assert es[i + 1] == part[j];
      }
    }
  }

  lemma TailIsWithin(es: Entries, n: nat)
    requires n <= |es|
    ensures Within(es[n..], es)
  {
    forall h: History | InRecencyOrder(es, h) ensures InRecencyOrder(es[n..], h) {
      assert forall i | 0 <= i < |es| - n :: es[n..][i] == es[n + i];
    }
  }

  lemma NotInTail(es: Entries, n: nat, k: string)
    requires n <= |es| && !Holds(es[n..], k)
    ensures forall j | n <= j < |es| :: es[j].0 != k
  {
    forall j | n <= j < |es| ensures es[j].0 != k { assert es[n..][j - n] == es[j]; }
  }

  // The keys after an entry are that many, and were all touched since.
  lemma {:induction false} LaterKeys(es: Entries, h: History, i: nat, j: nat) returns (keys: set<string>)
    requires InRecencyOrder(es, h) && i < j <= |es| && es[i].0 in h
    ensures |keys| == |es| - j && keys <= h[es[i].0].since
    ensures forall k <- keys :: exists m | j <= m < |es| :: es[m].0 == k
    decreases |es| - j
  {
    if j == |es| {
      keys := {};
    } else {
      keys := LaterKeys(es, h, i, j + 1);
      keys := keys + {es[j].0};
    }
  }

  lemma DroppedIsExcused(es: Entries, h: History, max: nat, i: nat)
    requires Agrees(es, h) && InRecencyOrder(es, h) && i + max < |es|
    ensures |h[es[i].0].since| >= max
  {
    var keys := LaterKeys(es, h, i, i + 1);
    SubsetSize(keys, h[es[i].0].since);
  }

  lemma SubsetSize(a: set<string>, b: set<string>)
    requires a <= b
    ensures |a| <= |b|
  {
    assert b == a + (b - a);
  }

  lemma CleanedIsWithin(max: nat, ttl: real, es: Entries, now: real)
    ensures Within(Cleaned(max, ttl, es, now), es) && |Cleaned(max, ttl, es, now)| <= max
    ensures forall e | e in Cleaned(max, ttl, es, now) :: !Expired(ttl, e.1, now)
  {
    var live := Unexpired(ttl, es, now);
    UnexpiredIsWithin(ttl, es, now);
    var n := if |live| > max then |live| - max else 0;
    TailIsWithin(live, n);
    assert Cleaned(max, ttl, es, now) == live[n..];
    hide InRecencyOrder;
    assert forall e | e in live[n..] :: e in live && e in es && !Expired(ttl, e.1, now);
  }

  lemma CleanedOut(max: nat, ttl: real, s: State, now: real, k: string)
    requires Kept(max, ttl, s) && s.clock <= now && k in s.history
    requires Holds(s.entries, k) && !Holds(Cleaned(max, ttl, s.entries, now), k)
    ensures s.history[k].last.Some? && (Expired(ttl, s.history[k].last.value, now) || |s.history[k].since| >= max)
  {
    var live := Unexpired(ttl, s.entries, now);
    UnexpiredIsWithin(ttl, s.entries, now);
    var i :| 0 <= i < |s.entries| && s.entries[i].0 == k;
    assert s.entries[i] in s.entries;
    if s.entries[i] in live {
      var j :| 0 <= j < |live| && live[j] == s.entries[i];
      var n := if |live| > max then |live| - max else 0;
      NotInTail(live, n, k);
      assert Agrees(live, s.history);
      DroppedIsExcused(live, s.history, max, j);
    }
  }

  lemma CleanedIsKept(max: nat, ttl: real, s: State, now: real)
    requires Kept(max, ttl, s) && s.clock <= now
    ensures Inv(max, ttl, State(Cleaned(max, ttl, s.entries, now), s.history, now))
    ensures Within(Cleaned(max, ttl, s.entries, now), s.entries)
    ensures forall e | e in Cleaned(max, ttl, s.entries, now) :: !Expired(ttl, e.1, now)
  {
    CleanedIsWithin(max, ttl, s.entries, now);
    var t := State(Cleaned(max, ttl, s.entries, now), s.history, now);
    forall k <- s.history ensures Excused(max, ttl, t, k) {
      assert Excused(max, ttl, s, k);
      if Holds(s.entries, k) && !Holds(t.entries, k) { CleanedOut(max, ttl, s, now, k); }
    }
    hide Cleaned;
    assert InRecencyOrder(t.entries, s.history);
    assert forall i | 0 <= i < |t.entries| :: t.entries[i] in s.entries;
  }

  lemma WithoutIsKept(max: nat, ttl: real, s: State, key: string)
    requires Kept(max, ttl, s)
    ensures Kept(max, ttl, s.(entries := Without(s.entries, key), history := Forgotten(s.history, key)))
    ensures |Without(s.entries, key)| <= |s.entries|
  {
    var es := Without(s.entries, key);
    var t := s.(entries := es, history := Forgotten(s.history, key));
    WithoutIsWithin(s.entries, key);
    assert InRecencyOrder(es, s.history);
    forall k <- t.history ensures Excused(max, ttl, t, k) {
      assert Excused(max, ttl, s, k);
      if Holds(s.entries, k) && k != key { HoldsOn(s.entries, key, k); }
    }
    forall i | 0 <= i < |es| ensures es[i].0 in t.history && t.history[es[i].0].last == Some(es[i].1) {
      assert es[i] in s.entries && es[i].0 != key;
    }
  }

  lemma HoldsOn(es: Entries, key: string, k: string)
    requires Holds(es, k) && k != key
    ensures Holds(Without(es, key), k)
  {
    WithoutIsWithin(es, key);
    var i :| 0 <= i < |es| && es[i].0 == k;
    assert es[i] in es;
    var j :| 0 <= j < |Without(es, key)| && Without(es, key)[j] == es[i];
  }

  lemma PutIsKept(max: nat, ttl: real, s: State, key: string, t: Thread)
    requires Kept(max, ttl, s) && t.lastUsedMs >= s.clock
    ensures Kept(max, ttl, State(Put(s.entries, key, t), Touched(s.history, key, t), t.lastUsedMs))
    ensures Holds(s.entries, key) ==> |Put(s.entries, key, t)| <= |s.entries|
  {
    var rest := Without(s.entries, key);
    var u := State(rest + [(key, t)], Touched(s.history, key, t), t.lastUsedMs);
    WithoutIsWithin(s.entries, key);
    assert InRecencyOrder(rest, s.history);
    assert forall i | 0 <= i < |rest| :: rest[i] in s.entries && rest[i].0 != key;
    assert u.entries[|rest|] == (key, t);
    forall k <- u.history ensures Excused(max, ttl, u, k) {
      if k != key {
        assert Excused(max, ttl, s, k);
        SubsetSize(s.history[k].since, u.history[k].since);
        if Holds(s.entries, k) {
          HoldsOn(s.entries, key, k);
          var j :| 0 <= j < |rest| && rest[j].0 == k;
          assert u.entries[j].0 == k;
        }
      }
    }
  }

  lemma {:induction false} FindInOrder(es: Entries, h: History, i: nat)
    requires InRecencyOrder(es, h) && i < |es|
    ensures Find(es, es[i].0) == Some(es[i].1)
  {
    if i > 0 {
      assert UsedBefore(es[0], es[i], h);
      TailIsWithin(es, 1);
      FindInOrder(es[1..], h, i - 1);
    }
  }

  // ---- get against the specification ----

  lemma GetAnswers(max: nat, ttl: real, s: State, key: string, ctx: Context, t1: real, t2: real)
    requires Inv(max, ttl, s) && s.clock <= t1 <= t2
    ensures var id := Got(max, ttl, s.entries, key, ctx, t1, t2).1;
            && (id.Some? ==> MayHit(ttl, s.history, key, ctx, t1) && id.value == s.history[key].last.value.threadId)
            && (MustHit(max, ttl, s.history, key, ctx, t1) ==> id.Some?)
  {
    var live := Cleaned(max, ttl, s.entries, t1);
    var t := State(live, s.history, t1);
    CleanedIsKept(max, ttl, s, t1);
    hide Cleaned, Kept;
    KeptParts(max, ttl, t);
    if key != "" && Find(live, key).Some? {
      var i :| 0 <= i < |live| && live[i] == (key, Find(live, key).value);
    } else if key in s.history && s.history[key].last.Some? && Find(live, key).None? {
      assert !Holds(live, key);
      assert Excused(max, ttl, t, key);
    }
  }

  lemma KeptParts(max: nat, ttl: real, s: State)
    requires Kept(max, ttl, s)
    ensures Agrees(s.entries, s.history) && InRecencyOrder(s.entries, s.history)
    ensures forall k <- s.history :: Excused(max, ttl, s, k)
  {
  }

  lemma GetKeepsInv(max: nat, ttl: real, s: State, key: string, ctx: Context, t1: real, t2: real)
    requires Inv(max, ttl, s) && s.clock <= t1 <= t2 && key != ""
    ensures Inv(max, ttl, Next(max, ttl, s, Get(key, ctx, t1, t2)))
  {
    var live := Cleaned(max, ttl, s.entries, t1);
    var c := State(live, s.history, t1);
    CleanedIsKept(max, ttl, s, t1);
    hide Cleaned, Kept;
    KeptParts(max, ttl, c);
    var found := Find(live, key);
    if found.Some? {
      var i :| 0 <= i < |live| && live[i] == (key, found.value);
      if found.value.ctx != ctx {
        WithoutIsKept(max, ttl, c, key);
        LaterIsKept(max, ttl, c.(entries := Without(live, key), history := Forgotten(s.history, key)), t2);
      } else {
        LaterIsKept(max, ttl, c, t2);
        PutIsKept(max, ttl, c.(clock := t2), key, found.value.(lastUsedMs := t2));
      }
    } else {
      LaterIsKept(max, ttl, c, t2);
      MissIsKept(max, ttl, c.(clock := t2), key, ctx, t2);
    }
  }

  lemma LaterIsKept(max: nat, ttl: real, s: State, now: real)
    requires Kept(max, ttl, s) && s.clock <= now
    ensures Kept(max, ttl, s.(clock := now))
  {
    forall k <- s.history ensures Excused(max, ttl, s.(clock := now), k) { assert Excused(max, ttl, s, k); }
  }

  lemma MissIsKept(max: nat, ttl: real, s: State, key: string, ctx: Context, t2: real)
    requires Kept(max, ttl, s) && !Holds(s.entries, key)
    ensures Kept(max, ttl, s.(history := HistoryAfterGet(s.history, key, ctx, false, t2)))
  {
    var t := s.(history := HistoryAfterGet(s.history, key, ctx, false, t2));
    assert forall i | 0 <= i < |s.entries| :: s.entries[i].0 != key;
    forall i, j | 0 <= i < j < |s.entries| ensures UsedBefore(s.entries[i], s.entries[j], t.history) {
      assert UsedBefore(s.entries[i], s.entries[j], s.history);
    }
    forall k <- t.history ensures Excused(max, ttl, t, k) { assert Excused(max, ttl, s, k); }
  }

  lemma SetKeepsInv(max: nat, ttl: real, s: State, key: string, id: string, ctx: Context, t1: real, t2: real, t3: real)
    requires Inv(max, ttl, s) && s.clock <= t1 <= t2 <= t3 && key != ""
    ensures Inv(max, ttl, Next(max, ttl, s, Set(key, id, ctx, t1, t2, t3)))
  {
    var c := State(Cleaned(max, ttl, s.entries, t1), s.history, t1);
    CleanedIsKept(max, ttl, s, t1);
    hide Kept;
    var t := Thread(id, ctx, t2);
    PutIsKept(max, ttl, c, key, t);
    CleanedIsKept(max, ttl, State(Put(c.entries, key, t), Touched(s.history, key, t), t2), t3);
  }

  lemma NextKeepsInv(max: nat, ttl: real, s: State, e: Event)
    requires Inv(max, ttl, s)
    ensures Inv(max, ttl, Next(max, ttl, s, e))
  {
    hide Kept, Got, SetIn, Cleaned;
    if Timely(s, e) {
      match e
      case Get(key, ctx, t1, t2) =>
        if key != "" {
          GetKeepsInv(max, ttl, s, key, ctx, t1, t2);
        } else {
          LaterIsKept(max, ttl, s, t2);
          NoKey(max, ttl, s, e);
        }
      case Set(key, id, ctx, t1, t2, t3) =>
        if key != "" {
          SetKeepsInv(max, ttl, s, key, id, ctx, t1, t2, t3);
        } else {
          LaterIsKept(max, ttl, s, t3);
          NoKey(max, ttl, s, e);
        }
      case Delete(key) => if key != "" { WithoutIsKept(max, ttl, s, key); }
      case Size(t1) => CleanedIsKept(max, ttl, s, t1);
    }
  }

  lemma NoKey(max: nat, ttl: real, s: State, e: Event)
    requires (e.Get? || e.Set?) && e.key == "" && Timely(s, e)
    ensures Next(max, ttl, s, e) == s.(clock := if e.Get? then e.t2 else e.t3)
  {
  }

  lemma {:induction false} RunKeepsInv(max: nat, ttl: real, start: real, events: seq<Event>)
    ensures Inv(max, ttl, Run(max, ttl, start, events))
  {
    if events != [] {
      RunKeepsInv(max, ttl, start, events[..|events| - 1]);
      NextKeepsInv(max, ttl, Run(max, ttl, start, events[..|events| - 1]), events[|events| - 1]);
    }
  }

  // ---- What holds in every run ----

  // get returns the id its key was last set to, under the same context and used within the TTL, and
  // nothing else; and it does return it when fewer than max other keys were touched since.
  lemma GetIsHonest(max: nat, ttl: real, start: real, events: seq<Event>, key: string, ctx: Context, t1: real, t2: real)
    requires Run(max, ttl, start, events).clock <= t1 <= t2
    ensures var s := Run(max, ttl, start, events);
            var id := Got(max, ttl, s.entries, key, ctx, t1, t2).1;
            && (id.Some? ==> MayHit(ttl, s.history, key, ctx, t1) && id.value == s.history[key].last.value.threadId)
            && (MustHit(max, ttl, s.history, key, ctx, t1) ==> id.Some?)
  {
    RunKeepsInv(max, ttl, start, events);
    GetAnswers(max, ttl, Run(max, ttl, start, events), key, ctx, t1, t2);
  }

  lemma SizeIsBounded(max: nat, ttl: real, start: real, events: seq<Event>)
    ensures |Run(max, ttl, start, events).entries| <= max
  {
    RunKeepsInv(max, ttl, start, events);
  }

  lemma OrderIsRecency(max: nat, ttl: real, start: real, events: seq<Event>)
    ensures InRecencyOrder(Run(max, ttl, start, events).entries, Run(max, ttl, start, events).history)
  {
    RunKeepsInv(max, ttl, start, events);
  }

  // An option between 0 and 1 passes the constructor's check and leaves a cache that never hits.
  lemma FractionalMaxNeverHits(option: real, ttl: real, start: real, events: seq<Event>,
                               key: string, ctx: Context, t1: real, t2: real)
    requires 0.0 < option < 1.0 && Run(MaxEntries(Some(option)), ttl, start, events).clock <= t1 <= t2
    ensures var max := MaxEntries(Some(option));
            Got(max, ttl, Run(max, ttl, start, events).entries, key, ctx, t1, t2).1 == None
  {
    assert option.Floor == 0;
    RunKeepsInv(0, ttl, start, events);
    assert Unexpired(ttl, [], t1) == [];
  }

  // What the options mean: a positive number counts, its whole part for the entries; anything else
  // leaves 256 entries and two hours.
  lemma OptionsMean(option: real)
    ensures MaxEntries(None) == 256 && TtlMs(None) == 2.0 * 60.0 * 60.0 * 1000.0
    ensures option <= 0.0 ==> MaxEntries(Some(option)) == 256 && TtlMs(Some(option)) == TtlMs(None)
    ensures option > 0.0 ==>
              TtlMs(Some(option)) == option && MaxEntries(Some(option)) as real <= option < (MaxEntries(Some(option)) + 1) as real
  {
  }

  class GatewayThreadCache {
    const maxEntries: nat
    const ttlMs: real
    var entries: Entries

    constructor (maxEntries: Option<real>, ttlMs: Option<real>)
      ensures this.maxEntries == MaxEntries(maxEntries) && this.ttlMs == TtlMs(ttlMs) && entries == []
    {
      this.maxEntries, this.ttlMs := MaxEntries(maxEntries), TtlMs(ttlMs);
      entries := [];
    }

    method CleanUp(now: real)
      modifies this
      ensures entries == Cleaned(maxEntries, ttlMs, old(entries), now)
    {
      var all := entries;
      ghost var live := Unexpired(ttlMs, all, now);
      var kept: Entries := [];
      for i := 0 to |all|
        invariant kept + Unexpired(ttlMs, all[i..], now) == live
      {
        ghost var rest := Unexpired(ttlMs, all[i + 1..], now);
        assert all[i..][1..] == all[i + 1..];
        if now - all[i].1.lastUsedMs > ttlMs {
        } else {
          assert kept + ([all[i]] + rest) == (kept + [all[i]]) + rest;
          kept := kept + [all[i]];
        }
      }
      entries := kept;
      assert live == entries;
      hide Unexpired;
      while |entries| > maxEntries
        invariant |entries| <= |live| && entries == live[|live| - |entries|..]
        invariant |live| > maxEntries ==> |entries| >= maxEntries
        invariant |live| <= maxEntries ==> entries == live
      {
        entries := entries[1..];
      }
    }

    method DropKey(key: string)
      modifies this
      ensures entries == Without(old(entries), key)
    {
      var all := entries;
      entries := [];
      for i := 0 to |all|
        invariant entries + Without(all[i..], key) == Without(all, key)
      {
        assert all[i..][1..] == all[i + 1..];
        if all[i].0 != key { entries := entries + [all[i]]; }
      }
    }

    method Get(threadKey: string, ctx: Context, t1: real, t2: real) returns (id: Option<string>)
      modifies this
      ensures (entries, id) == Got(maxEntries, ttlMs, old(entries), threadKey, ctx, t1, t2)
    {
      if threadKey == "" { return None; }
      CleanUp(t1);
      var entry := Find(entries, threadKey);
      if entry.None? { return None; }
      DropKey(threadKey);
      if entry.value.ctx != ctx { return None; }
      entries := entries + [(threadKey, entry.value.(lastUsedMs := t2))];
      return Some(entry.value.threadId);
    }

    method Set(threadKey: string, threadId: string, ctx: Context, t1: real, t2: real, t3: real)
      modifies this
      ensures entries == SetIn(maxEntries, ttlMs, old(entries), threadKey, threadId, ctx, t1, t2, t3)
    {
      if threadKey == "" { return; }
      CleanUp(t1);
      DropKey(threadKey);
      entries := entries + [(threadKey, Thread(threadId, ctx, t2))];
      CleanUp(t3);
    }

    method Delete(threadKey: string) returns (removed: bool)
      modifies this
      ensures entries == if threadKey == "" then old(entries) else Without(old(entries), threadKey)
      ensures removed <==> threadKey != "" && Holds(old(entries), threadKey)
    {
      if threadKey == "" { return false; }
      var found := Find(entries, threadKey);
      if found.Some? { assert exists i | 0 <= i < |entries| :: entries[i] == (threadKey, found.value); }
      DropKey(threadKey);
      return found.Some?;
    }

    method Size(now: real) returns (n: nat)
      modifies this
      ensures entries == Cleaned(maxEntries, ttlMs, old(entries), now)
      ensures n == |entries| && n <= maxEntries
    {
      CleanUp(now);
      return |entries|;
    }
  }
}
